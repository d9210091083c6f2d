/**
  What a constraint, an objective, eligibility and the status of a shortlist mean
  (src/llm_hardtest/community_results.py:220-284, 410-468).
 */
module Shortlists {
  import opened Numbers
  import opened Percentiles
  import opened Sequences
  import opened Bundles
  import opened Recommender

  // ----- constraints -----

  /** A row meets an equality exactly for the value it shows, and a limit from the number it shows upwards; a
      missing attribute meets nothing. */
  lemma ConstraintMeans(entry: Entry, a: Id, v: Value, limit: real)
    ensures a !in entry.attributes ==> !Satisfies(entry, Equals(a, v)) && !Satisfies(entry, AtMost(a, limit))
    ensures a in entry.attributes ==> Satisfies(entry, Equals(a, entry.attributes[a]))
    ensures Satisfies(entry, Equals(a, v)) ==> a in entry.attributes && v == entry.attributes[a]
    ensures a in entry.attributes && entry.attributes[a].Number? ==>
      (Satisfies(entry, AtMost(a, limit)) <==> limit >= entry.attributes[a].number)
    ensures a in entry.attributes && !entry.attributes[a].Number? ==> !Satisfies(entry, AtMost(a, limit))
  {
  }

  // ----- objectives -----

  /** What a row of these bundles shows under each objective, and that it takes five reports: the lower ends of
      the accuracy and completion intervals, the ninetieth percentile of latency, the median of throughput. */
  lemma ObjectiveMeans(g: Group, wilson: Wilson)
    ensures
      var stats := StatsOf(g, wilson);
      && (ObjectiveValue(stats, Accuracy).Some? <==> |g.accuracies| >= 5)
      && (|g.accuracies| >= 5 ==>
            ObjectiveValue(stats, Accuracy).value == wilson(Mean(g.accuracies), |g.accuracies|).0)
      && (ObjectiveValue(stats, Completion).Some? <==> |g.completions| >= 5)
      && (|g.completions| >= 5 ==>
            ObjectiveValue(stats, Completion).value == wilson(Mean(g.completions), |g.completions|).0)
      && (ObjectiveValue(stats, Latency).Some? <==> |g.latencies| >= 5)
      && (|g.latencies| >= 5 ==> NearestRank(g.latencies, 0.9, ObjectiveValue(stats, Latency).value))
      && (ObjectiveValue(stats, Throughput).Some? <==> |g.throughputs| >= 5)
      && (|g.throughputs| >= 5 ==> NearestRank(g.throughputs, 0.5, ObjectiveValue(stats, Throughput).value))
  {
    if g.latencies != [] { PercentileIsNearestRank(g.latencies, 0.9, Percentile(g.latencies, 0.9)); }
    if g.throughputs != [] { PercentileIsNearestRank(g.throughputs, 0.5, Percentile(g.throughputs, 0.5)); }
  }

  /** An objective as a number to be large: latency counts against a row. */
  function Worth(entry: Entry, o: Objective): real
    requires ObjectiveValue(entry.stats, o).Some?
  {
    if o == Latency then -ObjectiveValue(entry.stats, o).value else ObjectiveValue(entry.stats, o).value
  }

  /** One row dominates another exactly when it is worth at least as much on every objective and more on one. */
  lemma DominanceMeans(a: Entry, b: Entry, objectives: seq<Objective>)
    requires Measured(a.stats, objectives) && Measured(b.stats, objectives)
    ensures Dominates(a, b, objectives) <==>
      && (forall o :: o in objectives ==> Worth(a, o) >= Worth(b, o))
      && (exists o :: o in objectives && Worth(a, o) > Worth(b, o))
  {
    if o :| o in objectives && Better(a.stats, b.stats, o) {
      assert Worth(a, o) > Worth(b, o);
    }
    if o :| o in objectives && Worth(a, o) > Worth(b, o) {
      assert Better(a.stats, b.stats, o);
    }
    forall o | o in objectives ensures NoWorse(a.stats, b.stats, o) <==> Worth(a, o) >= Worth(b, o) {
    }
  }

  // ----- the pack a query is about -----

  /** Some row of the round has this pack. */
  ghost predicate Offered(rows: seq<Entry>, round: nat, pack: Id) {
    exists x :: x in rows && x.key.round == round && x.key.pack == pack
  }

  lemma OfferedMeans(rows: seq<Entry>, round: nat, pack: Id)
    ensures pack in Packs(OfRound(rows, round)) <==> Offered(rows, round, pack)
  {
  }

  /** A pack is selected if the round offers it and the query names it, or names none and nothing else is offered. */
  lemma SelectsMeans(rows: seq<Entry>, q: Query, pack: Id)
    ensures Selects(rows, q, pack) <==>
      && Offered(rows, q.round, pack)
      && (if q.pack.Some? then q.pack.value == pack
          else forall other :: Offered(rows, q.round, other) ==> other == pack)
  {
    var packs := Packs(OfRound(rows, q.round));
    forall other ensures other in packs <==> Offered(rows, q.round, other) {
      OfferedMeans(rows, q.round, other);
    }
    if q.pack.None? && pack in packs && forall other :: other in packs ==> other == pack {
      assert packs == {pack};
    }
  }

  /** A query that names no pack must do so exactly when its round offers two. */
  lemma PackRequiredMeans(rows: seq<Entry>, round: nat)
    ensures |Packs(OfRound(rows, round))| > 1 <==>
      exists a, b :: Offered(rows, round, a) && Offered(rows, round, b) && a != b
  {
    var packs := Packs(OfRound(rows, round));
    forall other ensures other in packs <==> Offered(rows, round, other) {
      OfferedMeans(rows, round, other);
    }
    MoreThanOne(packs);
    if |packs| > 1 {
      var a, b :| a in packs && b in packs && a != b;
      assert Offered(rows, round, a) && Offered(rows, round, b);
    }
  }

  // ----- eligibility and status -----

  /** A row passes every gate exactly when it meets every constraint, shows an accuracy and each objective, and
      its accuracy's lower end is at or above the floor. */
  lemma EligibleMeans(rows: seq<Entry>, q: Query, x: Entry)
    ensures x in EligibleRows(rows, q) <==>
      && x in rows
      && (forall c :: c in q.constraints ==> Satisfies(x, c))
      && x.stats.accuracy.Some?
      && (forall o :: o in q.objectives ==> ObjectiveValue(x.stats, o).Some?)
      && (q.floor.Some? ==> x.stats.accuracy.value.low >= q.floor.value)
  {
    if MatchesConstraints(x, q.constraints) {
      forall c | c in q.constraints ensures Satisfies(x, c) {
        var i :| 0 <= i < |q.constraints| && q.constraints[i] == c;
      }
    }
    if forall c :: c in q.constraints ==> Satisfies(x, c) {
      forall i | 0 <= i < |q.constraints| ensures Satisfies(x, q.constraints[i]) {
        assert q.constraints[i] in q.constraints;
      }
    }
  }

  /** A row that is left out is counted at the first gate it misses: constraints, accuracy, objectives, floor. */
  lemma FateMeans(x: Entry, q: Query)
    ensures
      var fate, matches, known := FateOf(x, q), MatchesConstraints(x, q.constraints), x.stats.accuracy.Some?;
      var measured := forall o :: o in q.objectives ==> ObjectiveValue(x.stats, o).Some?;
      && (fate == Unmatched <==> !matches)
      && (fate == Insufficient <==> matches && !known)
      && (fate == Missing <==> matches && known && !measured)
      && (fate == BelowFloor <==>
            matches && known && measured && q.floor.Some? && x.stats.accuracy.value.low < q.floor.value)
  {
  }

  ghost predicate SomeMatches(rows: seq<Entry>, q: Query) {
    exists x :: x in rows && MatchesConstraints(x, q.constraints)
  }

  lemma {:induction false} UnmatchedAtMost(rows: seq<Entry>, q: Query)
    ensures CountFate(rows, q, Unmatched) <= |rows|
    ensures CountFate(rows, q, Unmatched) == |rows| <==> !SomeMatches(rows, q)
    decreases |rows|
  {
    if rows != [] {
      var init, last := rows[..|rows| - 1], rows[|rows| - 1];
      assert rows == init + [last];
      UnmatchedAtMost(init, q);
      if x :| x in init && MatchesConstraints(x, q.constraints) {
        assert x in rows;
      }
      if MatchesConstraints(last, q.constraints) {
        assert last in rows;
      }
    }
  }

  lemma OneIsTheFront(rows: seq<Entry>, objectives: seq<Objective>)
    requires |rows| == 1
    ensures ParetoFront(rows, objectives) == rows
  {
    DominanceIrreflexive(rows[0], objectives);
    assert Front(rows, 0, objectives) == [];
    assert rows == [rows[0]];
  }

  /** The status of a shortlist over the rows of one pack. */
  lemma ShortlistStatusMeans(rows: seq<Entry>, q: Query, matched: nat)
    requires matched + CountFate(rows, q, Unmatched) == |rows|
    ensures
      var eligible := EligibleRows(rows, q);
      var status := StatusOf(matched, |eligible|);
      && (status == NoMatch <==> !SomeMatches(rows, q))
      && (status == InsufficientEvidence <==> SomeMatches(rows, q) && eligible == [])
      && (status == SingleEligible <==> |eligible| == 1)
      && (status == SingleEligible ==> ParetoFront(eligible, q.objectives) == eligible)
      && (status == DescriptiveCandidates <==> |eligible| >= 2)
  {
    var eligible := EligibleRows(rows, q);
    UnmatchedAtMost(rows, q);
    if eligible != [] {
      assert eligible[0] in eligible;
      assert eligible[0] in rows && MatchesConstraints(eligible[0], q.constraints);
    }
    if |eligible| == 1 { OneIsTheFront(eligible, q.objectives); }
  }
}
