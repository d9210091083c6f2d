/**
  Which results do not depend on the order in which rows arrive: a bundle's cell on the
  order of its runs and of the items inside them, a published row on the order of bundles.
 */
module OrderFree {
  import opened Numbers
  import opened Percentiles
  import opened Sequences
  import opened Bundles

  // ----- runs inside a cell -----

  function PassedOf(r: Run): real { OrZero(r.passed) }
  function TotalOf(r: Run): real { OrZero(r.total) }
  function IncompleteOf(r: Run): real { OrZero(r.incomplete) }
  function ReviewOf(r: Run): real { OrZero(r.manualReview) }
  function ErrorsOf(r: Run): real { OrZero(r.infrastructure) }
  function WallsOf(r: Run): seq<real> { Walls(r.items) }
  function RatesOf(r: Run): seq<real> { Rates(r.items) }

  /** Every accumulator is a total or a list collected over the runs. */
  lemma {:induction false} LocalFields(runs: seq<Run>)
    ensures LocalOf(runs) == Local(
      |runs|, SumBy(runs, PassedOf), SumBy(runs, TotalOf), SumBy(runs, IncompleteOf), SumBy(runs, ReviewOf),
      SumBy(runs, ErrorsOf), Flat(runs, WallsOf), Flat(runs, RatesOf))
    decreases |runs|
  {
    if runs != [] { LocalFields(runs[..|runs| - 1]); }
  }

  /** Equal totals and equally distributed lists give equal cells. */
  lemma SameCell(a: Local, b: Local)
    requires a.(walls := [], rates := []) == b.(walls := [], rates := [])
    requires multiset(a.walls) == multiset(b.walls) && multiset(a.rates) == multiset(b.rates)
    ensures CellOf(a) == CellOf(b)
  {
    var x, y := a.(walls := [], rates := []), b.(walls := [], rates := []);
    assert x.runs == y.runs && x.passed == y.passed && x.total == y.total && x.incomplete == y.incomplete;
    assert x.manualReview == y.manualReview && x.infrastructure == y.infrastructure;
    SumPermutation(a.walls, b.walls);
    SumPermutation(a.rates, b.rates);
  }

  lemma PermutedRuns(a: seq<Run>, b: seq<Run>)
    requires multiset(a) == multiset(b)
    ensures CellOf(LocalOf(a)) == CellOf(LocalOf(b))
  {
    LocalFields(a);
    LocalFields(b);
    SameSize(a, b);
    SumByPermutation(a, b, PassedOf);
    SumByPermutation(a, b, TotalOf);
    SumByPermutation(a, b, IncompleteOf);
    SumByPermutation(a, b, ReviewOf);
    SumByPermutation(a, b, ErrorsOf);
    FlatPermutation(a, b, WallsOf);
    FlatPermutation(a, b, RatesOf);
    SameCell(LocalOf(a), LocalOf(b));
  }

  /** The same run, up to the order of its items. */
  ghost predicate SameRun(a: Run, b: Run) {
    a.(items := []) == b.(items := []) && multiset(a.items) == multiset(b.items)
  }

  lemma SameRunFields(a: Run, b: Run)
    requires SameRun(a, b)
    ensures PassedOf(a) == PassedOf(b) && TotalOf(a) == TotalOf(b) && IncompleteOf(a) == IncompleteOf(b)
    ensures ReviewOf(a) == ReviewOf(b) && ErrorsOf(a) == ErrorsOf(b)
    ensures multiset(WallsOf(a)) == multiset(WallsOf(b)) && multiset(RatesOf(a)) == multiset(RatesOf(b))
    ensures a.bundle == b.bundle && KeyOf(a) == KeyOf(b)
  {
    var x, y := a.(items := []), b.(items := []);
    assert x.passed == y.passed && x.total == y.total && x.incomplete == y.incomplete;
    assert x.manualReview == y.manualReview && x.infrastructure == y.infrastructure;
    assert x.bundle == y.bundle && x.round == y.round && x.pack == y.pack
           && x.name == y.name && x.configuration == y.configuration;
    FlatPermutation(a.items, b.items, WallOf);
    FlatPermutation(a.items, b.items, RateOf);
  }

  ghost predicate SameRuns(a: seq<Run>, b: seq<Run>) {
    |a| == |b| && forall i :: 0 <= i < |a| ==> SameRun(a[i], b[i])
  }

  lemma ReorderedItems(a: seq<Run>, b: seq<Run>)
    requires SameRuns(a, b)
    ensures CellOf(LocalOf(a)) == CellOf(LocalOf(b))
  {
    LocalFields(a);
    LocalFields(b);
    forall i | 0 <= i < |a|
      ensures PassedOf(a[i]) == PassedOf(b[i]) && TotalOf(a[i]) == TotalOf(b[i])
      ensures IncompleteOf(a[i]) == IncompleteOf(b[i])
      ensures ReviewOf(a[i]) == ReviewOf(b[i]) && ErrorsOf(a[i]) == ErrorsOf(b[i])
      ensures multiset(WallsOf(a[i])) == multiset(WallsOf(b[i])) && multiset(RatesOf(a[i])) == multiset(RatesOf(b[i]))
    {
      SameRunFields(a[i], b[i]);
    }
    SumByPointwise(a, b, PassedOf);
    SumByPointwise(a, b, TotalOf);
    SumByPointwise(a, b, IncompleteOf);
    SumByPointwise(a, b, ReviewOf);
    SumByPointwise(a, b, ErrorsOf);
    FlatPointwise(a, b, WallsOf);
    FlatPointwise(a, b, RatesOf);
    SameCell(LocalOf(a), LocalOf(b));
  }

  // ----- selecting the runs of a cell -----

  lemma {:induction false} MatchingConcat(a: seq<Run>, b: seq<Run>, bundle: Id, key: Key)
    ensures Matching(a + b, bundle, key) == Matching(a, bundle, key) + Matching(b, bundle, key)
    decreases |a|
  {
    if a == [] {
      assert a + b == b;
    } else {
      assert (a + b)[1..] == a[1..] + b;
      MatchingConcat(a[1..], b, bundle, key);
    }
  }

  lemma {:induction false} MatchingWithout(runs: seq<Run>, i: nat, bundle: Id, key: Key)
    requires i < |runs|
    ensures multiset(Matching(runs, bundle, key))
         == multiset(Matching([runs[i]], bundle, key)) + multiset(Matching(Without(runs, i), bundle, key))
  {
    var front, back := runs[..i], runs[i + 1..];
    assert runs == front + ([runs[i]] + back);
    MatchingConcat(front, [runs[i]] + back, bundle, key);
    MatchingConcat([runs[i]], back, bundle, key);
    MatchingConcat(front, back, bundle, key);
  }

  lemma {:induction false} MatchingPermutation(a: seq<Run>, b: seq<Run>, bundle: Id, key: Key)
    requires multiset(a) == multiset(b)
    ensures multiset(Matching(a, bundle, key)) == multiset(Matching(b, bundle, key))
    decreases |a|
  {
    SameSize(a, b);
    if a != [] {
      var n := |a| - 1;
      var j := MatchLast(a, b);
      MatchingPermutation(a[..n], Without(b, j), bundle, key);
      MatchingWithout(a, n, bundle, key);
      MatchingWithout(b, j, bundle, key);
      assert Without(a, n) == a[..n];
    }
  }

  lemma {:induction false} MatchingSameRuns(a: seq<Run>, b: seq<Run>, bundle: Id, key: Key)
    requires SameRuns(a, b)
    ensures SameRuns(Matching(a, bundle, key), Matching(b, bundle, key))
    decreases |a|
  {
    if a != [] {
      SameRunFields(a[0], b[0]);
      MatchingSameRuns(a[1..], b[1..], bundle, key);
    }
  }

  // ----- bundles inside a row -----

  function CellRuns(c: Cell): real { c.runs as real }
  function CellPassed(c: Cell): real { c.passed }
  function CellTotal(c: Cell): real { c.total }
  function CellIncomplete(c: Cell): real { c.incomplete }
  function CellReview(c: Cell): real { c.manualReview }
  function CellErrors(c: Cell): real { c.infrastructure }
  function CellAccuracy(c: Cell): seq<real> { AsList(c.accuracy) }
  function CellCompletion(c: Cell): seq<real> { AsList(c.completion) }
  function CellLatency(c: Cell): seq<real> { AsList(c.latency) }
  function CellThroughput(c: Cell): seq<real> { AsList(c.throughput) }

  lemma {:induction false} GroupTotals(cells: seq<Cell>)
    ensures
      var g := GroupOf(cells);
      && g.submissions == |cells| && g.runs as real == SumBy(cells, CellRuns)
      && g.passed == SumBy(cells, CellPassed) && g.total == SumBy(cells, CellTotal)
      && g.incomplete == SumBy(cells, CellIncomplete) && g.manualReview == SumBy(cells, CellReview)
      && g.infrastructure == SumBy(cells, CellErrors)
    decreases |cells|
  {
    if cells != [] { GroupTotals(cells[..|cells| - 1]); }
  }

  lemma {:induction false} GroupLists(cells: seq<Cell>)
    ensures
      var g := GroupOf(cells);
      && g.accuracies == Flat(cells, CellAccuracy) && g.completions == Flat(cells, CellCompletion)
      && g.latencies == Flat(cells, CellLatency) && g.throughputs == Flat(cells, CellThroughput)
    decreases |cells|
  {
    if cells != [] { GroupLists(cells[..|cells| - 1]); }
  }

  lemma SameTotals(a: seq<Cell>, b: seq<Cell>)
    requires multiset(a) == multiset(b)
    ensures
      var g, h := GroupOf(a), GroupOf(b);
      && g.submissions == h.submissions && g.runs == h.runs && g.passed == h.passed && g.total == h.total
      && g.incomplete == h.incomplete && g.manualReview == h.manualReview && g.infrastructure == h.infrastructure
  {
    GroupTotals(a);
    GroupTotals(b);
    SameSize(a, b);
    SumByPermutation(a, b, CellRuns);
    SumByPermutation(a, b, CellPassed);
    SumByPermutation(a, b, CellTotal);
    SumByPermutation(a, b, CellIncomplete);
    SumByPermutation(a, b, CellReview);
    SumByPermutation(a, b, CellErrors);
  }

  lemma SameLists(a: seq<Cell>, b: seq<Cell>)
    requires multiset(a) == multiset(b)
    ensures
      var g, h := GroupOf(a), GroupOf(b);
      && multiset(g.accuracies) == multiset(h.accuracies) && multiset(g.completions) == multiset(h.completions)
      && multiset(g.latencies) == multiset(h.latencies) && multiset(g.throughputs) == multiset(h.throughputs)
  {
    GroupLists(a);
    GroupLists(b);
    FlatPermutation(a, b, CellAccuracy);
    FlatPermutation(a, b, CellCompletion);
    FlatPermutation(a, b, CellLatency);
    FlatPermutation(a, b, CellThroughput);
  }

  lemma IntervalPermutation(a: seq<real>, b: seq<real>, wilson: Wilson)
    requires multiset(a) == multiset(b)
    ensures |a| == |b| && ClusterInterval(a, wilson) == ClusterInterval(b, wilson)
  {
    SumPermutation(a, b);
  }

  lemma PercentilesPermutation(a: seq<real>, b: seq<real>, probability: real)
    requires multiset(a) == multiset(b)
    ensures |a| == |b| && PercentileOf(a, probability) == PercentileOf(b, probability)
  {
    SameSize(a, b);
    if a != [] { PercentilePermutation(a, b, probability); }
  }

  /** A published row does not depend on the order of its bundles. */
  lemma StatsAreOrderFree(a: seq<Cell>, b: seq<Cell>, wilson: Wilson)
    requires multiset(a) == multiset(b)
    ensures StatsOf(GroupOf(a), wilson) == StatsOf(GroupOf(b), wilson)
  {
    SameTotals(a, b);
    SameLists(a, b);
    var g, h := GroupOf(a), GroupOf(b);
    IntervalPermutation(g.accuracies, h.accuracies, wilson);
    IntervalPermutation(g.completions, h.completions, wilson);
    PercentilesPermutation(g.latencies, h.latencies, 0.5);
    PercentilesPermutation(g.latencies, h.latencies, 0.9);
    PercentilesPermutation(g.throughputs, h.throughputs, 0.5);
  }
}
