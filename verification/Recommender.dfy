/**
  The gated Pareto shortlist (src/llm_hardtest/community_results.py:220-468).
 */
module Recommender {
  import opened Numbers
  import opened Percentiles
  import opened Sequences
  import opened Bundles

  // ----- constraints -----

  /** An attribute of a configuration; text is compared after case folding, so by an ID. */
  datatype Value = Text(folded: Id) | Number(number: real) | Flag(flag: bool)

  datatype Constraint = Equals(attribute: Id, expected: Value) | AtMost(attribute: Id, limit: real)

  /** One aggregated row: its key, the attributes constraints may ask for, and its statistics. */
  datatype Entry = Entry(key: Key, attributes: map<Id, Value>, stats: Stats)

  predicate Satisfies(entry: Entry, c: Constraint) {
    && c.attribute in entry.attributes
    && var actual := entry.attributes[c.attribute];
    match c
    case Equals(_, expected) => actual == expected
    case AtMost(_, limit) => actual.Number? && actual.number <= limit
  }

  predicate MatchesConstraints(entry: Entry, constraints: seq<Constraint>) {
    forall i :: 0 <= i < |constraints| ==> Satisfies(entry, constraints[i])
  }

  // ----- objectives and dominance -----

  datatype Objective = Accuracy | Completion | Latency | Throughput

  /** The metric a candidate shows for an objective; it takes enough bundles to have one. */
  function ObjectiveValue(stats: Stats, o: Objective): Option<real> {
    match o
    case Accuracy => if stats.accuracy.Some? then Some(stats.accuracy.value.low) else None
    case Completion => if stats.completion.Some? then Some(stats.completion.value.low) else None
    case Latency => if stats.wallObserved >= MINIMUM_BUNDLES then stats.wallP90 else None
    case Throughput => if stats.tokenRateObserved >= MINIMUM_BUNDLES then stats.tokenRateP50 else None
  }

  predicate Measured(stats: Stats, objectives: seq<Objective>) {
    forall o :: o in objectives ==> ObjectiveValue(stats, o).Some?
  }

  /** Lower latency is better; more of anything else is better. */
  predicate NoWorse(a: Stats, b: Stats, o: Objective)
    requires ObjectiveValue(a, o).Some? && ObjectiveValue(b, o).Some?
  {
    var x, y := ObjectiveValue(a, o).value, ObjectiveValue(b, o).value;
    if o == Latency then x <= y else x >= y
  }

  predicate Better(a: Stats, b: Stats, o: Objective)
    requires ObjectiveValue(a, o).Some? && ObjectiveValue(b, o).Some?
  {
    var x, y := ObjectiveValue(a, o).value, ObjectiveValue(b, o).value;
    if o == Latency then x < y else x > y
  }

  predicate Dominates(a: Entry, b: Entry, objectives: seq<Objective>) {
    && Measured(a.stats, objectives) && Measured(b.stats, objectives)
    && (forall o :: o in objectives ==> NoWorse(a.stats, b.stats, o))
    && (exists o :: o in objectives && Better(a.stats, b.stats, o))
  }

  lemma DominanceIrreflexive(a: Entry, objectives: seq<Objective>)
    ensures !Dominates(a, a, objectives)
  {
  }

  lemma DominanceTransitive(a: Entry, b: Entry, c: Entry, objectives: seq<Objective>)
    requires Dominates(a, b, objectives) && Dominates(b, c, objectives)
    ensures Dominates(a, c, objectives)
  {
    var o :| o in objectives && Better(a.stats, b.stats, o);
    assert NoWorse(b.stats, c.stats, o);
    assert Better(a.stats, c.stats, o);
    forall p | p in objectives ensures NoWorse(a.stats, c.stats, p) {
      assert NoWorse(a.stats, b.stats, p) && NoWorse(b.stats, c.stats, p);
    }
  }

  lemma DominanceAsymmetric(a: Entry, b: Entry, objectives: seq<Objective>)
    requires Dominates(a, b, objectives)
    ensures !Dominates(b, a, objectives)
  {
    if Dominates(b, a, objectives) {
      DominanceTransitive(a, b, a, objectives);
      DominanceIrreflexive(a, objectives);
    }
  }

  // ----- the Pareto front -----

  predicate Dominated(rows: seq<Entry>, entry: Entry, objectives: seq<Objective>) {
    exists i :: 0 <= i < |rows| && Dominates(rows[i], entry, objectives)
  }

  /** The rows among the first n that nothing in the whole list dominates. */
  function Front(rows: seq<Entry>, n: nat, objectives: seq<Objective>): seq<Entry>
    requires n <= |rows|
  {
    if n == 0 then []
    else Front(rows, n - 1, objectives) + (if Dominated(rows, rows[n - 1], objectives) then [] else [rows[n - 1]])
  }

  function ParetoFront(rows: seq<Entry>, objectives: seq<Objective>): seq<Entry> {
    Front(rows, |rows|, objectives)
  }

  lemma {:induction false} FrontMembers(rows: seq<Entry>, n: nat, objectives: seq<Objective>, x: Entry)
    requires n <= |rows|
    ensures x in Front(rows, n, objectives) <==> x in rows[..n] && !Dominated(rows, x, objectives)
  {
    if n > 0 {
      FrontMembers(rows, n - 1, objectives, x);
      LastOfPrefix(rows, n, x);
    }
  }

  lemma LastOfPrefix(rows: seq<Entry>, n: nat, x: Entry)
    requires 0 < n <= |rows|
    ensures x in rows[..n] <==> x in rows[..n - 1] || x == rows[n - 1]
  {
    assert rows[..n] == rows[..n - 1] + [rows[n - 1]];
  }

  /** How many of the first n rows dominate a row. */
  function Above(rows: seq<Entry>, n: nat, x: Entry, objectives: seq<Objective>): nat
    requires n <= |rows|
  {
    if n == 0 then 0 else Above(rows, n - 1, x, objectives) + (if Dominates(rows[n - 1], x, objectives) then 1 else 0)
  }

  /** Whatever dominates a dominator dominates the row too, and the dominator itself counts extra. */
  lemma {:induction false} FewerAbove(rows: seq<Entry>, n: nat, top: Entry, x: Entry, objectives: seq<Objective>)
    requires n <= |rows| && Dominates(top, x, objectives)
    ensures Above(rows, n, top, objectives) <= Above(rows, n, x, objectives)
    ensures top in rows[..n] ==> Above(rows, n, top, objectives) < Above(rows, n, x, objectives)
  {
    if n > 0 {
      FewerAbove(rows, n - 1, top, x, objectives);
      assert rows[..n] == rows[..n - 1] + [rows[n - 1]];
      if Dominates(rows[n - 1], top, objectives) {
        DominanceTransitive(rows[n - 1], top, x, objectives);
      }
      DominanceIrreflexive(top, objectives);
    }
  }

  /** Every row dropped as dominated is dominated by a row that stays. */
  lemma {:induction false} DroppedRowsAreBeaten(rows: seq<Entry>, x: Entry,
                                                objectives: seq<Objective>) returns (best: Entry)
    requires Dominated(rows, x, objectives)
    ensures best in ParetoFront(rows, objectives) && Dominates(best, x, objectives)
    decreases Above(rows, |rows|, x, objectives)
  {
    var i :| 0 <= i < |rows| && Dominates(rows[i], x, objectives);
    var top := rows[i];
    assert rows[..|rows|] == rows;
    if Dominated(rows, top, objectives) {
      FewerAbove(rows, |rows|, top, x, objectives);
      best := DroppedRowsAreBeaten(rows, top, objectives);
      DominanceTransitive(best, top, x, objectives);
    } else {
      best := top;
      FrontMembers(rows, |rows|, objectives, top);
    }
  }

  // ----- the accuracy floor -----

  predicate MeetsFloor(stats: Stats, floor: Option<real>) {
    floor.None? || (stats.accuracy.Some? && stats.accuracy.value.low >= floor.value)
  }

  function AboveFloor(rows: seq<Entry>, floor: Option<real>): seq<Entry> {
    if rows == [] then []
    else
      var last := rows[|rows| - 1];
      AboveFloor(rows[..|rows| - 1], floor) + (if MeetsFloor(last.stats, floor) then [last] else [])
  }

  lemma {:induction false} AboveFloorMembers(rows: seq<Entry>, floor: Option<real>, x: Entry)
    ensures x in AboveFloor(rows, floor) <==> x in rows && MeetsFloor(x.stats, floor)
    decreases |rows|
  {
    if rows != [] {
      AboveFloorMembers(rows[..|rows| - 1], floor, x);
      assert rows == rows[..|rows| - 1] + [rows[|rows| - 1]];
    }
  }

  /** When accuracy is an objective, a row above the floor is beaten only from above the floor. */
  lemma FloorKeepsDominators(rows: seq<Entry>, x: Entry, objectives: seq<Objective>, floor: Option<real>)
    requires Accuracy in objectives && MeetsFloor(x.stats, floor)
    ensures Dominated(AboveFloor(rows, floor), x, objectives) <==> Dominated(rows, x, objectives)
  {
    var kept := AboveFloor(rows, floor);
    if Dominated(rows, x, objectives) {
      var i :| 0 <= i < |rows| && Dominates(rows[i], x, objectives);
      assert NoWorse(rows[i].stats, x.stats, Accuracy);
      AboveFloorMembers(rows, floor, rows[i]);
      var j :| 0 <= j < |kept| && kept[j] == rows[i];
      assert Dominates(kept[j], x, objectives);
    }
    if Dominated(kept, x, objectives) {
      var j :| 0 <= j < |kept| && Dominates(kept[j], x, objectives);
      AboveFloorMembers(rows, floor, kept[j]);
      var i :| 0 <= i < |rows| && rows[i] == kept[j];
      assert Dominates(rows[i], x, objectives);
    }
  }

  function KeepUndominated(rows: seq<Entry>, rivals: seq<Entry>, objectives: seq<Objective>): seq<Entry> {
    if rows == [] then []
    else
      var last := rows[|rows| - 1];
      KeepUndominated(rows[..|rows| - 1], rivals, objectives)
      + (if Dominated(rivals, last, objectives) then [] else [last])
  }

  lemma {:induction false} FrontIsKept(rows: seq<Entry>, n: nat, objectives: seq<Objective>)
    requires n <= |rows|
    ensures Front(rows, n, objectives) == KeepUndominated(rows[..n], rows, objectives)
  {
    if n > 0 {
      FrontIsKept(rows, n - 1, objectives);
      assert rows[..n][..n - 1] == rows[..n - 1];
    }
  }

  lemma AboveFloorAppend(rows: seq<Entry>, last: Entry, floor: Option<real>)
    ensures AboveFloor(rows + [last], floor)
         == AboveFloor(rows, floor) + (if MeetsFloor(last.stats, floor) then [last] else [])
  {
    assert (rows + [last])[..|rows|] == rows;
  }

  lemma KeepAppend(rows: seq<Entry>, last: Entry, rivals: seq<Entry>, objectives: seq<Objective>)
    ensures KeepUndominated(rows + [last], rivals, objectives)
         == KeepUndominated(rows, rivals, objectives) + (if Dominated(rivals, last, objectives) then [] else [last])
  {
    assert (rows + [last])[..|rows|] == rows;
  }

  lemma {:induction false} FloorAndFront(rows: seq<Entry>, rivals: seq<Entry>, objectives: seq<Objective>,
                                         floor: Option<real>)
    requires Accuracy in objectives
    ensures KeepUndominated(AboveFloor(rows, floor), AboveFloor(rivals, floor), objectives)
         == AboveFloor(KeepUndominated(rows, rivals, objectives), floor)
    decreases |rows|
  {
    if rows != [] {
      var init, last := rows[..|rows| - 1], rows[|rows| - 1];
      FloorAndFront(init, rivals, objectives, floor);
      var kept, front := AboveFloor(init, floor), KeepUndominated(init, rivals, objectives);
      KeepAppend(kept, last, AboveFloor(rivals, floor), objectives);
      AboveFloorAppend(front, last, floor);
      assert kept + [] == kept && front + [] == front;
      assert AboveFloor(front, floor) + [] == AboveFloor(front, floor);
      if MeetsFloor(last.stats, floor) {
        FloorKeepsDominators(rivals, last, objectives, floor);
      }
    }
  }

  lemma FloorCommutes(rows: seq<Entry>, objectives: seq<Objective>, floor: Option<real>)
    requires Accuracy in objectives
    ensures ParetoFront(AboveFloor(rows, floor), objectives) == AboveFloor(ParetoFront(rows, objectives), floor)
  {
    var kept := AboveFloor(rows, floor);
    FrontIsKept(rows, |rows|, objectives);
    FrontIsKept(kept, |kept|, objectives);
    assert rows[..|rows|] == rows && kept[..|kept|] == kept;
    FloorAndFront(rows, rows, objectives, floor);
  }

  ghost predicate AlwaysCommutes(objectives: seq<Objective>) {
    forall rows: seq<Entry>, floor: Option<real> ::
      ParetoFront(AboveFloor(rows, floor), objectives) == AboveFloor(ParetoFront(rows, objectives), floor)
  }

  /** One bundle's contribution from one run: passed or not, with or without an incomplete attempt. */
  function SampleCell(passed: real, incomplete: real, wall: real, rate: real): Cell {
    CellOf(Local(1, passed, 1.0, incomplete, 0.0, 0.0, [wall], [rate]))
  }

  function Copies(cell: Cell, n: nat): (cells: seq<Cell>)
    ensures |cells| == n && forall i :: 0 <= i < n ==> cells[i] == cell
  {
    seq(n, _ => cell)
  }

  /** The aggregated row of as many such bundles as a rate needs. */
  function Sample(configuration: Id, cell: Cell, wilson: Wilson): Entry {
    Entry(Key(1, Id(0), Id(0), configuration), map[], StatsOf(GroupOf(Copies(cell, MINIMUM_BUNDLES)), wilson))
  }

  /** Wrong but complete and fast, or right but half incomplete and slow. */
  function Strong(wilson: Wilson): Entry { Sample(Id(1), SampleCell(0.0, 0.0, 1.0, 2.0), wilson) }
  function Accurate(wilson: Wilson): Entry { Sample(Id(2), SampleCell(1.0, 1.0, 2.0, 1.0), wilson) }

  /** Exactly n values, all the same. */
  ghost predicate Alike(values: seq<real>, x: real, n: nat) {
    |values| == n && forall v :: v in values ==> v == x
  }

  ghost predicate AllAlike(g: Group, c: Cell, n: nat)
    requires c.accuracy.Some? && c.completion.Some? && c.latency.Some? && c.throughput.Some?
  {
    && Alike(g.accuracies, c.accuracy.value, n) && Alike(g.completions, c.completion.value, n)
    && Alike(g.latencies, c.latency.value, n) && Alike(g.throughputs, c.throughput.value, n)
  }

  lemma {:induction false} GroupOfCopies(cells: seq<Cell>, c: Cell)
    requires c.accuracy.Some? && c.completion.Some? && c.latency.Some? && c.throughput.Some?
    requires forall i :: 0 <= i < |cells| ==> cells[i] == c
    ensures AllAlike(GroupOf(cells), c, |cells|)
    decreases |cells|
  {
    if cells != [] { GroupOfCopies(cells[..|cells| - 1], c); }
  }

  lemma RatesAlike(values: seq<real>, x: real, n: nat, wilson: Wilson)
    requires Alike(values, x, n) && n >= MINIMUM_BUNDLES
    ensures ClusterInterval(values, wilson) == Some(RateInterval(x, wilson(x, n).0, wilson(x, n).1, n))
  {
    MeanOfEqual(values, x);
  }

  lemma TimesAlike(values: seq<real>, x: real, n: nat, probability: real)
    requires Alike(values, x, n) && n > 0
    ensures PercentileOf(values, probability) == Some(x)
  {
    PercentileOfEqual(values, x, probability);
  }

  lemma SampleCellShows(passed: real, incomplete: real, wall: real, rate: real)
    requires incomplete >= 0.0
    ensures
      var c := SampleCell(passed, incomplete, wall, rate);
      && c.accuracy == Some(passed) && c.completion == Some(1.0 / (1.0 + incomplete))
      && c.latency == Some(wall) && c.throughput == Some(rate)
  {
    MeanOfEqual([wall], wall);
    MeanOfEqual([rate], rate);
  }

  /** What a row of five equal cells shows under each objective. */
  ghost predicate Shows(stats: Stats, c: Cell, wilson: Wilson) {
    && c.accuracy.Some? && c.completion.Some?
    && stats.accuracy.Some? && stats.accuracy.value.low == wilson(c.accuracy.value, MINIMUM_BUNDLES).0
    && ObjectiveValue(stats, Completion) == Some(wilson(c.completion.value, MINIMUM_BUNDLES).0)
    && ObjectiveValue(stats, Latency) == c.latency
    && ObjectiveValue(stats, Throughput) == c.throughput
  }

  lemma SampleShows(configuration: Id, c: Cell, wilson: Wilson)
    requires c.accuracy.Some? && c.completion.Some? && c.latency.Some? && c.throughput.Some?
    ensures Shows(Sample(configuration, c, wilson).stats, c, wilson)
  {
    GroupOfCopies(Copies(c, MINIMUM_BUNDLES), c);
    GroupShows(GroupOf(Copies(c, MINIMUM_BUNDLES)), c, wilson);
  }

  lemma GroupShows(g: Group, c: Cell, wilson: Wilson)
    requires c.accuracy.Some? && c.completion.Some? && c.latency.Some? && c.throughput.Some?
    requires AllAlike(g, c, MINIMUM_BUNDLES)
    ensures Shows(StatsOf(g, wilson), c, wilson)
  {
    RatesAlike(g.accuracies, c.accuracy.value, MINIMUM_BUNDLES, wilson);
    RatesAlike(g.completions, c.completion.value, MINIMUM_BUNDLES, wilson);
    TimesAlike(g.latencies, c.latency.value, MINIMUM_BUNDLES, 0.9);
    TimesAlike(g.throughputs, c.throughput.value, MINIMUM_BUNDLES, 0.5);
  }

  /** The floor commutes with Pareto filtering exactly when accuracy is an objective. */
  lemma FloorCommutesExactly(objectives: seq<Objective>)
    requires objectives != []
    ensures AlwaysCommutes(objectives) <==> Accuracy in objectives
  {
    if Accuracy in objectives {
      forall rows: seq<Entry>, floor: Option<real>
        ensures ParetoFront(AboveFloor(rows, floor), objectives) == AboveFloor(ParetoFront(rows, objectives), floor)
      {
        FloorCommutes(rows, objectives, floor);
      }
    } else {
      var wilson: Wilson := (mean, n) => (mean, mean);
      FloorMatters(objectives, wilson, 0.5);
      Refuted([Strong(wilson), Accurate(wilson)], Some(0.5), objectives);
    }
  }

  lemma Refuted(rows: seq<Entry>, floor: Option<real>, objectives: seq<Objective>)
    requires ParetoFront(AboveFloor(rows, floor), objectives) != AboveFloor(ParetoFront(rows, objectives), floor)
    ensures !AlwaysCommutes(objectives)
  {
  }

  /** Without accuracy among the objectives, a row below the floor can knock out one above it: two
      aggregated configurations show it for every interval that tells no passes from all and half from all. */
  lemma FloorMatters(objectives: seq<Objective>, wilson: Wilson, least: real)
    requires objectives != [] && Accuracy !in objectives
    requires wilson(0.0, MINIMUM_BUNDLES).0 < least <= wilson(1.0, MINIMUM_BUNDLES).0
    requires wilson(0.5, MINIMUM_BUNDLES).0 < wilson(1.0, MINIMUM_BUNDLES).0
    ensures
      var rows, floor := [Strong(wilson), Accurate(wilson)], Some(least);
      ParetoFront(AboveFloor(rows, floor), objectives) != AboveFloor(ParetoFront(rows, objectives), floor)
  {
    var quick, careful := SampleCell(0.0, 0.0, 1.0, 2.0), SampleCell(1.0, 1.0, 2.0, 1.0);
    SampleCellShows(0.0, 0.0, 1.0, 2.0);
    SampleCellShows(1.0, 1.0, 2.0, 1.0);
    SampleShows(Id(1), quick, wilson);
    SampleShows(Id(2), careful, wilson);
    StrongerOnTheRest(Strong(wilson), Accurate(wilson), quick, careful, wilson, objectives);
    KnockedOut(Strong(wilson), Accurate(wilson), objectives, Some(least));
  }

  lemma StrongerOnTheRest(a: Entry, b: Entry, x: Cell, y: Cell, wilson: Wilson, objectives: seq<Objective>)
    requires objectives != [] && Accuracy !in objectives && Shows(a.stats, x, wilson) && Shows(b.stats, y, wilson)
    requires wilson(x.completion.value, MINIMUM_BUNDLES).0 > wilson(y.completion.value, MINIMUM_BUNDLES).0
    requires x.latency.Some? && y.latency.Some? && x.latency.value < y.latency.value
    requires x.throughput.Some? && y.throughput.Some? && x.throughput.value > y.throughput.value
    ensures Dominates(a, b, objectives)
  {
    forall o | o in objectives
      ensures ObjectiveValue(a.stats, o).Some? && ObjectiveValue(b.stats, o).Some? && Better(a.stats, b.stats, o)
    {
      assert o == Completion || o == Latency || o == Throughput;
    }
    assert objectives[0] in objectives;
  }

  lemma KnockedOut(strong: Entry, accurate: Entry, objectives: seq<Objective>, floor: Option<real>)
    requires Dominates(strong, accurate, objectives) && MeetsFloor(accurate.stats, floor)
    requires !MeetsFloor(strong.stats, floor)
    ensures
      var rows := [strong, accurate];
      ParetoFront(AboveFloor(rows, floor), objectives) != AboveFloor(ParetoFront(rows, objectives), floor)
  {
    var rows := [strong, accurate];
    assert Dominates(rows[0], accurate, objectives);
    var kept := AboveFloor(rows, floor);
    AboveFloorMembers(rows, floor, accurate);
    DominanceIrreflexive(accurate, objectives);
    forall i | 0 <= i < |kept| ensures !Dominates(kept[i], accurate, objectives) {
      AboveFloorMembers(rows, floor, kept[i]);
      assert kept[i] in rows;
    }
    FrontMembers(kept, |kept|, objectives, accurate);
    assert kept[..|kept|] == kept;
    FrontMembers(rows, |rows|, objectives, accurate);
    AboveFloorMembers(ParetoFront(rows, objectives), floor, accurate);
  }

  // ----- the whole query -----

  datatype Excluded = Excluded(constraints: nat, insufficient: nat, missing: nat, floor: nat, dominated: nat)

  datatype Status = PackRequired | InsufficientEvidence | NoMatch | SingleEligible | DescriptiveCandidates

  datatype Shortlist = Shortlist(status: Status, matched: nat, eligible: seq<Entry>, candidates: seq<Entry>,
                                 excluded: Excluded)

  datatype Query = Query(round: nat, pack: Option<Id>, constraints: seq<Constraint>, objectives: seq<Objective>,
                         floor: Option<real>)

  function OfRound(rows: seq<Entry>, round: nat): (r: seq<Entry>)
    ensures forall x :: x in r <==> x in rows && x.key.round == round
  {
    if rows == [] then []
    else
      assert rows == rows[..|rows| - 1] + [rows[|rows| - 1]];
      OfRound(rows[..|rows| - 1], round) + (if rows[|rows| - 1].key.round == round then [rows[|rows| - 1]] else [])
  }

  function OfPack(rows: seq<Entry>, pack: Id): (r: seq<Entry>)
    ensures forall x :: x in r <==> x in rows && x.key.pack == pack
  {
    if rows == [] then []
    else
      assert rows == rows[..|rows| - 1] + [rows[|rows| - 1]];
      OfPack(rows[..|rows| - 1], pack) + (if rows[|rows| - 1].key.pack == pack then [rows[|rows| - 1]] else [])
  }

  /** The fate of one row of the selected pack, in the order the gates are tried. */
  datatype Fate = Unmatched | Insufficient | Missing | BelowFloor | Eligible

  function FateOf(row: Entry, q: Query): Fate {
    if !MatchesConstraints(row, q.constraints) then Unmatched
    else if row.stats.accuracy.None? then Insufficient
    else if !Measured(row.stats, q.objectives) then Missing
    else if !MeetsFloor(row.stats, q.floor) then BelowFloor
    else Eligible
  }

  function EligibleRows(rows: seq<Entry>, q: Query): (r: seq<Entry>)
    ensures forall x :: x in r <==> x in rows && FateOf(x, q) == Eligible
  {
    if rows == [] then []
    else
      assert rows == rows[..|rows| - 1] + [rows[|rows| - 1]];
      EligibleRows(rows[..|rows| - 1], q) + (if FateOf(rows[|rows| - 1], q) == Eligible then [rows[|rows| - 1]] else [])
  }

  function CountFate(rows: seq<Entry>, q: Query, fate: Fate): nat {
    if rows == [] then 0
    else CountFate(rows[..|rows| - 1], q, fate) + (if FateOf(rows[|rows| - 1], q) == fate then 1 else 0)
  }

  /** One more row with this fate. */
  function Bump(e: Excluded, fate: Fate): Excluded {
    match fate
    case Unmatched => e.(constraints := e.constraints + 1)
    case Insufficient => e.(insufficient := e.insufficient + 1)
    case Missing => e.(missing := e.missing + 1)
    case BelowFloor => e.(floor := e.floor + 1)
    case Eligible => e
  }

  function Tallied(rows: seq<Entry>, q: Query): Excluded {
    if rows == [] then Excluded(0, 0, 0, 0, 0) else Bump(Tallied(rows[..|rows| - 1], q), FateOf(rows[|rows| - 1], q))
  }

  /** The exclusion counters count the rows of each fate, and every row has one. */
  lemma {:induction false} TalliedCounts(rows: seq<Entry>, q: Query)
    ensures Tallied(rows, q) == Excluded(CountFate(rows, q, Unmatched), CountFate(rows, q, Insufficient),
                                         CountFate(rows, q, Missing), CountFate(rows, q, BelowFloor), 0)
    decreases |rows|
  {
    if rows != [] { TalliedCounts(rows[..|rows| - 1], q); }
  }

  /** The gates of one pass over the rows of the selected pack. */
  method GateRows(rows: seq<Entry>, q: Query) returns (matched: nat, eligible: seq<Entry>, excluded: Excluded)
    ensures eligible == EligibleRows(rows, q)
    ensures excluded == Tallied(rows, q)
    ensures matched + excluded.constraints == |rows|
    ensures matched == excluded.insufficient + excluded.missing + excluded.floor + |eligible|
  {
    matched, eligible, excluded := 0, [], Excluded(0, 0, 0, 0, 0);
    for n := 0 to |rows|
      invariant eligible == EligibleRows(rows[..n], q)
      invariant excluded == Tallied(rows[..n], q)
      invariant matched + excluded.constraints == n
      invariant matched == excluded.insufficient + excluded.missing + excluded.floor + |eligible|
    {
      var row := rows[n];
      assert rows[..n + 1][..n] == rows[..n];
      if !MatchesConstraints(row, q.constraints) {
        excluded := excluded.(constraints := excluded.constraints + 1);
      } else {
        matched := matched + 1;
        if row.stats.accuracy.None? {
          excluded := excluded.(insufficient := excluded.insufficient + 1);
        } else if !Measured(row.stats, q.objectives) {
          excluded := excluded.(missing := excluded.missing + 1);
        } else if !MeetsFloor(row.stats, q.floor) {
          excluded := excluded.(floor := excluded.floor + 1);
        } else {
          eligible := eligible + [row];
        }
      }
    }
    assert rows[..|rows|] == rows;
  }

  method KeepFront(eligible: seq<Entry>, objectives: seq<Objective>) returns (candidates: seq<Entry>, dominated: nat)
    ensures candidates == ParetoFront(eligible, objectives)
    ensures dominated + |candidates| == |eligible|
  {
    candidates, dominated := [], 0;
    for n := 0 to |eligible|
      invariant candidates == Front(eligible, n, objectives)
      invariant dominated + |candidates| == n
    {
      if Dominated(eligible, eligible[n], objectives) {
        dominated := dominated + 1;
      } else {
        candidates := candidates + [eligible[n]];
      }
    }
  }

  /** The fingerprints available for a round. */
  function Packs(rows: seq<Entry>): set<Id> {
    set x | x in rows :: x.key.pack
  }

  /** The pack a query is about, if the rows of its round determine one. */
  ghost predicate Selects(rows: seq<Entry>, q: Query, pack: Id) {
    var ofRound := OfRound(rows, q.round);
    pack in Packs(ofRound) && (if q.pack.Some? then q.pack.value == pack else Packs(ofRound) == {pack})
  }

  function StatusOf(matched: nat, eligible: nat): Status {
    if matched == 0 then NoMatch
    else if eligible == 0 then InsufficientEvidence
    else if eligible == 1 then SingleEligible
    else DescriptiveCandidates
  }

  // ----- the order candidates are listed in -----

  predicate NameOrder(a: Entry, b: Entry, fold: Folding) {
    || fold(a.key.name) < fold(b.key.name)
    || (fold(a.key.name) == fold(b.key.name) && a.key.configuration.place <= b.key.configuration.place)
  }

  ghost predicate InNameOrder(rows: seq<Entry>, fold: Folding) {
    forall i, j :: 0 <= i < j < |rows| ==> NameOrder(rows[i], rows[j], fold)
  }

  function NamePlace(fold: Folding): Entry -> int {
    (e: Entry) => fold(e.key.name)
  }

  function ConfigurationPlace(): Entry -> int {
    (e: Entry) => e.key.configuration.place
  }

  /** One stable pass per component of the key, the last one first. */
  function ByName(rows: seq<Entry>, fold: Folding): (r: seq<Entry>)
    ensures multiset(r) == multiset(rows)
  {
    SortBy(SortBy(rows, ConfigurationPlace()), NamePlace(fold))
  }

  lemma ByNameSorts(rows: seq<Entry>, fold: Folding)
    ensures InNameOrder(ByName(rows, fold), fold) && |ByName(rows, fold)| == |rows|
  {
    var any: (Entry, Entry) -> bool := (x, y) => true;
    var byConfiguration := ThenBy(ConfigurationPlace(), any);
    StableSort(rows, ConfigurationPlace(), any);
    StableSort(SortBy(rows, ConfigurationPlace()), NamePlace(fold), byConfiguration);
    var list := ByName(rows, fold);
    SameSize(list, rows);
    forall i, j | 0 <= i < j < |list| ensures NameOrder(list[i], list[j], fold) {
      assert ThenBy(NamePlace(fold), byConfiguration)(list[i], list[j]);
    }
  }

  method Recommend(rows: seq<Entry>, q: Query, fold: Folding) returns (result: Shortlist, selected: Option<Id>)
    ensures selected.None? ==> forall pack :: !Selects(rows, q, pack)
    ensures selected.Some? ==> Selects(rows, q, selected.value)
    ensures selected.None? ==> result.eligible == [] && result.candidates == []
    ensures selected.None? ==>
      result.status == (if q.pack.None? && |Packs(OfRound(rows, q.round))| > 1 then PackRequired
                        else InsufficientEvidence)
    ensures selected.Some? ==>
      var mine := OfPack(OfRound(rows, q.round), selected.value);
      && result.eligible == EligibleRows(mine, q)
      && multiset(result.candidates) == multiset(ParetoFront(result.eligible, q.objectives))
      && InNameOrder(result.candidates, fold)
      && result.matched + result.excluded.constraints == |mine|
      && result.excluded.constraints + result.excluded.insufficient + result.excluded.missing + result.excluded.floor
         + result.excluded.dominated + |result.candidates| == |mine|
      && result.excluded.constraints == CountFate(mine, q, Unmatched)
      && result.excluded.insufficient == CountFate(mine, q, Insufficient)
      && result.excluded.missing == CountFate(mine, q, Missing)
      && result.excluded.floor == CountFate(mine, q, BelowFloor)
      && result.status == StatusOf(result.matched, |result.eligible|)
  {
    var ofRound := OfRound(rows, q.round);
    selected := SelectPack(rows, q);
    if selected.None? {
      var status := if q.pack.None? && |Packs(ofRound)| > 1 then PackRequired else InsufficientEvidence;
      result := Shortlist(status, 0, [], [], Excluded(0, 0, 0, 0, 0));
      return;
    }
    var mine := OfPack(ofRound, selected.value);
    var matched, eligible, excluded := GateRows(mine, q);
    TalliedCounts(mine, q);
    var candidates, dominated := KeepFront(eligible, q.objectives);
    ByNameSorts(candidates, fold);
    result := Shortlist(StatusOf(matched, |eligible|), matched, eligible, ByName(candidates, fold),
                        excluded.(dominated := dominated));
  }

  method SelectPack(rows: seq<Entry>, q: Query) returns (selected: Option<Id>)
    ensures selected.None? ==> forall pack :: !Selects(rows, q, pack)
    ensures selected.Some? ==> Selects(rows, q, selected.value)
  {
    var packs := Packs(OfRound(rows, q.round));
    if q.pack.Some? {
      selected := if q.pack.value in packs then q.pack else None;
    } else if |packs| == 1 {
      var pack :| pack in packs;
      OnlyMember(packs, pack);
      selected := Some(pack);
    } else {
      assert forall pack :: packs == {pack} ==> |packs| == |{pack}|;
      selected := None;
    }
  }

  lemma OnlyMember<T>(s: set<T>, x: T)
    requires |s| == 1 && x in s
    ensures s == {x}
  {
    assert |s - {x}| == 0;
    assert s == {x} + (s - {x});
  }
}
