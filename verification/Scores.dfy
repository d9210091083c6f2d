/**
  What aggregated rows and paired observations say of the bundles themselves: every published figure
  as a sum over bundles, model entries and rounds (src/llm_hardtest/community_results.py:121-217).
 */
module Scores {
  import opened Numbers
  import opened Percentiles
  import opened Sequences
  import opened Bundles
  import opened OrderFree
  import opened Aggregation
  import opened Conservation
  import opened Database
  import opened Reaggregation
  import opened Observations

  // ----- sums over the bundles -----

  /** A figure read off one round of one entry of one bundle. */
  type Figure = (Submission, Model, RoundResult) -> real

  function OfRound(s: Submission, m: Model, f: Figure): RoundResult -> real {
    (r: RoundResult) => f(s, m, r)
  }

  function OfEntry(s: Submission, f: Figure): Model -> real {
    (m: Model) => SumBy(m.rounds, OfRound(s, m, f))
  }

  function InBundle(s: Submission, f: Figure): real {
    SumBy(s.models, OfEntry(s, f))
  }

  function OfBundle(f: Figure): Submission -> real {
    (s: Submission) => InBundle(s, f)
  }

  function InAll(subs: seq<Submission>, f: Figure): real {
    SumBy(subs, OfBundle(f))
  }

  // ----- the metrics that count -----

  type Column = Metrics -> real

  /** Round 4 scores releases against attempts, every other round items passed against items. */
  function Passed(round: nat): Column {
    (x: Metrics) => if round == 4 then OrZero(x.releaseReady) else OrZero(x.passed)
  }

  function Total(round: nat): Column {
    (x: Metrics) => if round == 4 then OrZero(x.attempts) else OrZero(x.total)
  }

  function Incomplete(): Column { (x: Metrics) => OrZero(x.incomplete) }
  function Review(): Column { (x: Metrics) => OrZero(x.manualReview) }
  function Errors(): Column { (x: Metrics) => OrZero(x.infrastructure) }
  function One(): Column { (x: Metrics) => 1.0 }

  function Seconds(item: Item): real { if item.wall.Some? then item.wall.value else 0.0 }
  function Timed(item: Item): real { if item.wall.Some? then 1.0 else 0.0 }

  predicate Paced(item: Item) {
    item.wall.Some? && item.wall.value > 0.0 && item.tokens.Some?
  }

  function Pace(item: Item): real { if Paced(item) then item.tokens.value as real / item.wall.value else 0.0 }
  function HasPace(item: Item): real { if Paced(item) then 1.0 else 0.0 }

  /** Summed over the items of a round. */
  function OverItems(f: Item -> real): Column {
    (x: Metrics) => SumBy(x.items, f)
  }

  // ----- under a key -----

  /** This round of this entry of this bundle is what the key names. */
  predicate Under(s: Submission, m: Model, r: RoundResult, key: Key) {
    && m.configuration == key.configuration && m.identity.name == key.name
    && r.round == key.round && r.round in s.packs && s.packs[r.round] == key.pack
  }

  function OfKey(key: Key, column: Column): Figure {
    (s: Submission, m: Model, r: RoundResult) => if Under(s, m, r, key) then column(r.metrics) else 0.0
  }

  predicate InUnit(s: Submission, m: Model, r: RoundResult, key: ObservationKey) {
    && s.bundle == key.bundle && m.configuration == key.configuration
    && r.round == key.round && r.round in s.packs && s.packs[r.round] == key.pack
  }

  function OfUnit(key: ObservationKey, column: Column): Figure {
    (s: Submission, m: Model, r: RoundResult) => if InUnit(s, m, r, key) then column(r.metrics) else 0.0
  }

  // ----- sums over runs are sums over the bundles -----

  /** A figure of a run is this figure of the round it stands for. */
  ghost predicate Reads(g: Run -> real, f: Figure) {
    forall s: Submission, ordinal: nat, m: Model, r: RoundResult :: r.round in s.packs ==>
      g(RunOf(s, ordinal, m, r)) == f(s, m, r)
  }

  lemma {:induction false} RoundSums(s: Submission, ordinal: nat, m: Model, k: nat, g: Run -> real, f: Figure)
    requires k <= |m.rounds| && PacksCover(s.packs, m) && Reads(g, f)
    ensures SumBy(RoundRuns(s, ordinal, m, k), g) == SumBy(m.rounds[..k], OfRound(s, m, f))
  {
    if k > 0 {
      RoundSums(s, ordinal, m, k - 1, g, f);
      assert m.rounds[..k][..k - 1] == m.rounds[..k - 1];
      SumByAppend(RoundRuns(s, ordinal, m, k - 1), RunOf(s, ordinal, m, m.rounds[k - 1]), g);
    }
  }

  lemma SumByAppend<T>(s: seq<T>, last: T, f: T -> real)
    ensures SumBy(s + [last], f) == SumBy(s, f) + f(last)
  {
    assert (s + [last])[..|s|] == s;
  }

  lemma {:induction false} ModelSums(s: Submission, n: nat, g: Run -> real, f: Figure)
    requires ValidSubmission(s) && n <= |s.models| && Reads(g, f)
    ensures SumBy(ModelRuns(s, n), g) == SumBy(s.models[..n], OfEntry(s, f))
  {
    if n > 0 {
      var m := s.models[n - 1];
      ModelSums(s, n - 1, g, f);
      RoundSums(s, n, m, |m.rounds|, g, f);
      assert m.rounds[..|m.rounds|] == m.rounds;
      assert s.models[..n][..n - 1] == s.models[..n - 1];
      SumByConcat(ModelRuns(s, n - 1), EntryRuns(s, n), g);
    }
  }

  lemma BundleSums(s: Submission, g: Run -> real, f: Figure)
    requires ValidSubmission(s) && Reads(g, f)
    ensures SumBy(RunsOf(s), g) == InBundle(s, f)
  {
    ModelSums(s, |s.models|, g, f);
    assert s.models[..|s.models|] == s.models;
  }

  lemma {:induction false} AllSums(subs: seq<Submission>, g: Run -> real, f: Figure)
    requires ValidSubmissions(subs) && Reads(g, f)
    ensures SumBy(AllRuns(subs), g) == InAll(subs, f)
    decreases |subs|
  {
    if subs != [] {
      var init, last := subs[..|subs| - 1], subs[|subs| - 1];
      AllSums(init, g, f);
      BundleSums(last, g, f);
      SumByConcat(AllRuns(init), RunsOf(last), g);
    }
  }

  // ----- runs picked by a key -----

  function Keyed(key: Key, g: Run -> real): Run -> real {
    (run: Run) => if KeyOf(run) == key then g(run) else 0.0
  }

  lemma {:induction false} WithKeySum(runs: seq<Run>, key: Key, g: Run -> real)
    ensures SumBy(WithKey(runs, key), g) == SumBy(runs, Keyed(key, g))
    decreases |runs|
  {
    if runs != [] {
      var init, last := runs[..|runs| - 1], runs[|runs| - 1];
      assert runs == init + [last];
      WithKeySum(init, key, g);
      WithKeyConcat(init, [last], key);
      assert [last][1..] == [];
      SumByConcat(WithKey(init, key), WithKey([last], key), g);
      SumByAppend(init, last, Keyed(key, g));
      SumOfOne(last, g);
    }
  }

  lemma SumOfOne<T>(x: T, f: T -> real)
    ensures SumBy([x], f) == f(x)
  {
    assert [x][..0] == [];
  }

  function UnitPart(key: ObservationKey, g: Run -> real): Run -> real {
    (run: Run) => if ObservationKeyOf(run) == key then g(run) else 0.0
  }

  lemma {:induction false} MineSum(runs: seq<Run>, key: ObservationKey, g: Run -> real)
    ensures SumBy(Flat(runs, Mine(key)), g) == SumBy(runs, UnitPart(key, g))
    decreases |runs|
  {
    if runs != [] {
      var init, last := runs[..|runs| - 1], runs[|runs| - 1];
      MineSum(init, key, g);
      SumByConcat(Flat(init, Mine(key)), Mine(key)(last), g);
      SumOfOne(last, g);
    }
  }

  // ----- lists of times as sums -----

  function RunWalls(run: Run): real { SumBy(run.items, Seconds) }
  function RunTimed(run: Run): real { SumBy(run.items, Timed) }
  function RunPaces(run: Run): real { SumBy(run.items, Pace) }
  function RunPaced(run: Run): real { SumBy(run.items, HasPace) }
  function OneRun(run: Run): real { 1.0 }

  lemma {:induction false} ItemWalls(items: seq<Item>)
    ensures Sum(Walls(items)) == SumBy(items, Seconds) && |Walls(items)| as real == SumBy(items, Timed)
    decreases |items|
  {
    if items != [] {
      var init, last := items[..|items| - 1], items[|items| - 1];
      ItemWalls(init);
      SumConcat(Walls(init), WallOf(last));
    }
  }

  lemma {:induction false} ItemRates(items: seq<Item>)
    ensures Sum(Rates(items)) == SumBy(items, Pace) && |Rates(items)| as real == SumBy(items, HasPace)
    decreases |items|
  {
    if items != [] {
      var init, last := items[..|items| - 1], items[|items| - 1];
      ItemRates(init);
      SumConcat(Rates(init), RateOf(last));
    }
  }

  lemma {:induction false} RunLists(runs: seq<Run>)
    ensures Sum(Flat(runs, WallsOf)) == SumBy(runs, RunWalls) && |Flat(runs, WallsOf)| as real == SumBy(runs, RunTimed)
    ensures Sum(Flat(runs, RatesOf)) == SumBy(runs, RunPaces) && |Flat(runs, RatesOf)| as real == SumBy(runs, RunPaced)
    decreases |runs|
  {
    if runs != [] {
      var init, last := runs[..|runs| - 1], runs[|runs| - 1];
      RunLists(init);
      ItemWalls(last.items);
      ItemRates(last.items);
      SumConcat(Flat(init, WallsOf), WallsOf(last));
      SumConcat(Flat(init, RatesOf), RatesOf(last));
    }
  }

  lemma {:induction false} CountRuns(runs: seq<Run>)
    ensures |runs| as real == SumBy(runs, OneRun)
    decreases |runs|
  {
    if runs != [] { CountRuns(runs[..|runs| - 1]); }
  }

  // ----- one bundle under a key -----

  /** Where the denominator is positive, the number that gives the numerator when multiplied by it. */
  function Quotient(part: real, whole: real): (r: Option<real>)
    ensures r.Some? <==> whole > 0.0
    ensures r.Some? ==> r.value * whole == part
  {
    if whole > 0.0 then Some(part / whole) else None
  }

  /** The sums a bundle's measures are made of. */
  datatype Sums = Sums(runs: real, passed: real, total: real, incomplete: real, review: real, errors: real,
                       seconds: real, timed: real, pace: real, paced: real)

  function AccuracyOf(x: Sums): Option<real> {
    Quotient(x.passed, x.total)
  }

  /** Scored attempts among all that were made. */
  function CompletionOf(x: Sums): Option<real> {
    Quotient(x.total, x.total + x.incomplete + x.review + x.errors)
  }

  /** Mean seconds over the timed items, and mean tokens per second over the paced ones. */
  function LatencyOf(x: Sums): Option<real> {
    Quotient(x.seconds, x.timed)
  }

  function PaceOf(x: Sums): Option<real> {
    Quotient(x.pace, x.paced)
  }

  /** The sums under a key in one bundle and in all, and those of a unit. */
  function KeySums(s: Submission, key: Key): Sums {
    Sums(InBundle(s, OfKey(key, One())), InBundle(s, OfKey(key, Passed(key.round))),
         InBundle(s, OfKey(key, Total(key.round))), InBundle(s, OfKey(key, Incomplete())),
         InBundle(s, OfKey(key, Review())), InBundle(s, OfKey(key, Errors())),
         InBundle(s, OfKey(key, OverItems(Seconds))), InBundle(s, OfKey(key, OverItems(Timed))),
         InBundle(s, OfKey(key, OverItems(Pace))), InBundle(s, OfKey(key, OverItems(HasPace))))
  }

  function AllKeySums(subs: seq<Submission>, key: Key): Sums {
    Sums(InAll(subs, OfKey(key, One())), InAll(subs, OfKey(key, Passed(key.round))),
         InAll(subs, OfKey(key, Total(key.round))), InAll(subs, OfKey(key, Incomplete())),
         InAll(subs, OfKey(key, Review())), InAll(subs, OfKey(key, Errors())),
         InAll(subs, OfKey(key, OverItems(Seconds))), InAll(subs, OfKey(key, OverItems(Timed))),
         InAll(subs, OfKey(key, OverItems(Pace))), InAll(subs, OfKey(key, OverItems(HasPace))))
  }

  function UnitSums(subs: seq<Submission>, key: ObservationKey): Sums {
    Sums(InAll(subs, OfUnit(key, One())), InAll(subs, OfUnit(key, Passed(key.round))),
         InAll(subs, OfUnit(key, Total(key.round))), InAll(subs, OfUnit(key, Incomplete())),
         InAll(subs, OfUnit(key, Review())), InAll(subs, OfUnit(key, Errors())),
         InAll(subs, OfUnit(key, OverItems(Seconds))), InAll(subs, OfUnit(key, OverItems(Timed))),
         InAll(subs, OfUnit(key, OverItems(Pace))), InAll(subs, OfUnit(key, OverItems(HasPace))))
  }

  function RunSums(runs: seq<Run>): Sums {
    Sums(SumBy(runs, OneRun), SumBy(runs, PassedOf), SumBy(runs, TotalOf), SumBy(runs, IncompleteOf),
         SumBy(runs, ReviewOf), SumBy(runs, ErrorsOf), SumBy(runs, RunWalls), SumBy(runs, RunTimed),
         SumBy(runs, RunPaces), SumBy(runs, RunPaced))
  }

  /** A figure of the runs of a round is this column of its metrics. */
  ghost predicate ReadsColumn(g: Run -> real, column: Column, round: nat) {
    forall s: Submission, ordinal: nat, m: Model, r: RoundResult :: r.round in s.packs && r.round == round ==>
      g(RunOf(s, ordinal, m, r)) == column(r.metrics)
  }

  lemma KeyReads(key: Key, g: Run -> real, column: Column)
    requires ReadsColumn(g, column, key.round)
    ensures Reads(Keyed(key, g), OfKey(key, column))
  {
    forall s: Submission, ordinal: nat, m: Model, r: RoundResult | r.round in s.packs
      ensures Keyed(key, g)(RunOf(s, ordinal, m, r)) == OfKey(key, column)(s, m, r)
    {
      assert KeyOf(RunOf(s, ordinal, m, r)) == key <==> Under(s, m, r, key);
    }
  }

  lemma KeySum(s: Submission, key: Key, g: Run -> real, column: Column)
    requires ValidSubmission(s) && ReadsColumn(g, column, key.round)
    ensures SumBy(WithKey(RunsOf(s), key), g) == InBundle(s, OfKey(key, column))
  {
    KeyReads(key, g, column);
    WithKeySum(RunsOf(s), key, g);
    BundleSums(s, Keyed(key, g), OfKey(key, column));
  }

  lemma ScoreColumns(round: nat)
    ensures ReadsColumn(PassedOf, Passed(round), round) && ReadsColumn(TotalOf, Total(round), round)
    ensures ReadsColumn(IncompleteOf, Incomplete(), round) && ReadsColumn(ReviewOf, Review(), round)
    ensures ReadsColumn(ErrorsOf, Errors(), round) && ReadsColumn(OneRun, One(), round)
  {
  }

  lemma TimeColumns(round: nat)
    ensures ReadsColumn(RunWalls, OverItems(Seconds), round) && ReadsColumn(RunTimed, OverItems(Timed), round)
    ensures ReadsColumn(RunPaces, OverItems(Pace), round) && ReadsColumn(RunPaced, OverItems(HasPace), round)
  {
  }

  ghost predicate ShowsMeasuresOf(c: Cell, x: Sums) {
    && c.accuracy == AccuracyOf(x) && c.completion == CompletionOf(x)
    && c.latency == LatencyOf(x) && c.throughput == PaceOf(x)
  }

  ghost predicate LocalHolds(l: Local, x: Sums) {
    && x.passed == l.passed && x.total == l.total && x.incomplete == l.incomplete && x.review == l.manualReview
    && x.errors == l.infrastructure && x.seconds == Sum(l.walls) && x.timed == |l.walls| as real
    && x.pace == Sum(l.rates) && x.paced == |l.rates| as real
  }

  lemma RatioIsQuotient(part: real, whole: real)
    ensures Ratio(part, whole) == Quotient(part, whole)
  {
  }

  lemma MeanIsQuotient(values: seq<real>)
    ensures MeanOf(values) == Quotient(Sum(values), |values| as real)
  {
  }

  lemma LocalShows(l: Local, x: Sums)
    requires LocalHolds(l, x)
    ensures ShowsMeasuresOf(CellOf(l), x)
  {
    RatioIsQuotient(x.passed, x.total);
    RatioIsQuotient(x.total, x.total + x.incomplete + x.review + x.errors);
    MeanIsQuotient(l.walls);
    MeanIsQuotient(l.rates);
  }

  lemma RunsHold(runs: seq<Run>)
    ensures LocalHolds(LocalOf(runs), RunSums(runs))
  {
    LocalFields(runs);
    RunLists(runs);
  }

  /** The cell of a list of runs shows the measures of their sums. */
  lemma CellShares(runs: seq<Run>)
    ensures ShowsMeasuresOf(CellOf(LocalOf(runs)), RunSums(runs))
  {
    RunsHold(runs);
    LocalShows(LocalOf(runs), RunSums(runs));
  }

  lemma BundleKeySums(s: Submission, key: Key)
    requires ValidSubmission(s)
    ensures RunSums(WithKey(RunsOf(s), key)) == KeySums(s, key)
  {
    ScoreColumns(key.round);
    KeySum(s, key, OneRun, One());
    KeySum(s, key, PassedOf, Passed(key.round));
    KeySum(s, key, TotalOf, Total(key.round));
    KeySum(s, key, IncompleteOf, Incomplete());
    KeySum(s, key, ReviewOf, Review());
    KeySum(s, key, ErrorsOf, Errors());
    TimeColumns(key.round);
    KeySum(s, key, RunWalls, OverItems(Seconds));
    KeySum(s, key, RunTimed, OverItems(Timed));
    KeySum(s, key, RunPaces, OverItems(Pace));
    KeySum(s, key, RunPaced, OverItems(HasPace));
  }

  lemma KeyTotal(subs: seq<Submission>, key: Key, g: Run -> real, column: Column)
    requires ValidSubmissions(subs) && ReadsColumn(g, column, key.round)
    ensures SumBy(WithKey(AllRuns(subs), key), g) == InAll(subs, OfKey(key, column))
  {
    KeyReads(key, g, column);
    WithKeySum(AllRuns(subs), key, g);
    AllSums(subs, Keyed(key, g), OfKey(key, column));
  }

  lemma KeyTotals(subs: seq<Submission>, key: Key)
    requires ValidSubmissions(subs)
    ensures RunSums(WithKey(AllRuns(subs), key)) == AllKeySums(subs, key)
  {
    ScoreColumns(key.round);
    KeyTotal(subs, key, OneRun, One());
    KeyTotal(subs, key, PassedOf, Passed(key.round));
    KeyTotal(subs, key, TotalOf, Total(key.round));
    KeyTotal(subs, key, IncompleteOf, Incomplete());
    KeyTotal(subs, key, ReviewOf, Review());
    KeyTotal(subs, key, ErrorsOf, Errors());
    TimeColumns(key.round);
    KeyTotal(subs, key, RunWalls, OverItems(Seconds));
    KeyTotal(subs, key, RunTimed, OverItems(Timed));
    KeyTotal(subs, key, RunPaces, OverItems(Pace));
    KeyTotal(subs, key, RunPaced, OverItems(HasPace));
  }

  // ----- a published row -----

  /** What the bundles report of a measure, bundle by bundle. */
  function Reported(subs: seq<Submission>, key: Key, measure: Sums -> Option<real>): seq<real> {
    Flat(subs, Reporting(key, measure))
  }

  function Reporting(key: Key, measure: Sums -> Option<real>): Submission -> seq<real> {
    (s: Submission) => AsList(measure(KeySums(s, key)))
  }

  /** Mean and interval ends of at least five rates. */
  ghost predicate ShowsInterval(shown: Option<RateInterval>, rates: seq<real>, wilson: Wilson) {
    && (shown.Some? <==> |rates| >= MINIMUM_BUNDLES)
    && (shown.Some? ==>
          && shown.value.estimate * |rates| as real == Sum(rates) && shown.value.observed == |rates|
          && (shown.value.low, shown.value.high) == wilson(shown.value.estimate, |rates|))
  }

  ghost predicate ShowsRank(shown: Option<real>, values: seq<real>, p: real) {
    (shown.Some? <==> values != []) && (shown.Some? ==> NearestRank(values, p, shown.value))
  }

  /** The bundles with at least one round under the key. */
  ghost function BundlesUnder(subs: seq<Submission>, key: Key): set<int> {
    set i | 0 <= i < |subs| && KeySums(subs[i], key).runs > 0.0
  }

  ghost predicate ShowsTotals(stats: Stats, subs: seq<Submission>, key: Key) {
    var all := AllKeySums(subs, key);
    && stats.submissions == |BundlesUnder(subs, key)| && stats.runs as real == all.runs
    && stats.passed == all.passed && stats.total == all.total
    && stats.incomplete == all.incomplete && stats.manualReview == all.review && stats.infrastructure == all.errors
  }

  ghost predicate ShowsMeasures(stats: Stats, subs: seq<Submission>, key: Key, wilson: Wilson) {
    var accuracies, completions := Reported(subs, key, AccuracyOf), Reported(subs, key, CompletionOf);
    var latencies, paces := Reported(subs, key, LatencyOf), Reported(subs, key, PaceOf);
    && stats.observed == |accuracies| && ShowsInterval(stats.accuracy, accuracies, wilson)
    && stats.completionObserved == |completions| && ShowsInterval(stats.completion, completions, wilson)
    && stats.wallObserved == |latencies|
    && ShowsRank(stats.wallP50, latencies, 0.5) && ShowsRank(stats.wallP90, latencies, 0.9)
    && stats.tokenRateObserved == |paces| && ShowsRank(stats.tokenRateP50, paces, 0.5)
  }

  /** Some round of some entry is recorded under the key. */
  ghost predicate Recorded(subs: seq<Submission>, key: Key) {
    BundlesUnder(subs, key) != {}
  }

  lemma RunsUnder(s: Submission, key: Key)
    requires ValidSubmission(s)
    ensures WithKey(RunsOf(s), key) != [] <==> KeySums(s, key).runs > 0.0
  {
    BundleKeySums(s, key);
    CountRuns(WithKey(RunsOf(s), key));
  }

  function HasRounds(key: Key): Submission -> bool {
    (s: Submission) => KeySums(s, key).runs > 0.0
  }

  lemma {:induction false} ContributorsAreCounted(subs: seq<Submission>, key: Key)
    requires ValidSubmissions(subs)
    ensures Contributors(subs, key) == Count(subs, HasRounds(key))
    decreases |subs|
  {
    if subs != [] {
      ContributorsAreCounted(subs[..|subs| - 1], key);
      RunsUnder(subs[|subs| - 1], key);
    }
  }

  lemma ContributorsAreBundles(subs: seq<Submission>, key: Key)
    requires ValidSubmissions(subs)
    ensures Contributors(subs, key) == |BundlesUnder(subs, key)|
  {
    ContributorsAreCounted(subs, key);
    CountMeans(subs, HasRounds(key));
    assert BundlesUnder(subs, key) == Where(subs, HasRounds(key));
  }

  lemma TotalsShown(stats: Stats, subs: seq<Submission>, key: Key)
    requires ValidSubmissions(subs) && ShownIn(stats) == TotalsOf(WithKey(AllRuns(subs), key))
    requires stats.submissions == Contributors(subs, key)
    ensures ShowsTotals(stats, subs, key)
  {
    var mine := WithKey(AllRuns(subs), key);
    assert ShownIn(stats).runs == |mine| && ShownIn(stats).passed == SumBy(mine, PassedOf);
    ContributorsAreBundles(subs, key);
    CountRuns(mine);
    KeyTotals(subs, key);
  }

  // ----- the lists behind the intervals -----

  /** The cells of a key hold what the bundles report. */
  ghost predicate Holds(cells: seq<Cell>, subs: seq<Submission>, key: Key) {
    && Flat(cells, CellAccuracy) == Reported(subs, key, AccuracyOf)
    && Flat(cells, CellCompletion) == Reported(subs, key, CompletionOf)
    && Flat(cells, CellLatency) == Reported(subs, key, LatencyOf)
    && Flat(cells, CellThroughput) == Reported(subs, key, PaceOf)
  }

  lemma EmptyCell()
    ensures
      var c := CellOf(EMPTY_LOCAL);
      c.accuracy == None && c.completion == None && c.latency == None && c.throughput == None
  {
  }

  /** One bundle's cell, or none, adds what the bundle reports. */
  lemma CellHereReports(s: Submission, key: Key)
    requires ValidSubmission(s)
    ensures
      var here := CellHere(LocalsOf(RunsOf(s)), key);
      && Flat(here, CellAccuracy) == AsList(AccuracyOf(KeySums(s, key)))
      && Flat(here, CellCompletion) == AsList(CompletionOf(KeySums(s, key)))
      && Flat(here, CellLatency) == AsList(LatencyOf(KeySums(s, key)))
      && Flat(here, CellThroughput) == AsList(PaceOf(KeySums(s, key)))
  {
    RunsComeFromModels(s, |s.models|);
    LocalsLookup(RunsOf(s), s.bundle, key);
    WithKeyOfBundle(RunsOf(s), s.bundle, key);
    BundleKeySums(s, key);
    CellShares(WithKey(RunsOf(s), key));
    EmptyCell();
    FlatOfOne(CellOf(LocalAt(LocalsOf(RunsOf(s)), key)), CellAccuracy);
    FlatOfOne(CellOf(LocalAt(LocalsOf(RunsOf(s)), key)), CellCompletion);
    FlatOfOne(CellOf(LocalAt(LocalsOf(RunsOf(s)), key)), CellLatency);
    FlatOfOne(CellOf(LocalAt(LocalsOf(RunsOf(s)), key)), CellThroughput);
  }

  lemma FlatOfOne<T, U>(x: T, f: T -> seq<U>)
    ensures Flat([x], f) == f(x)
  {
    FlatAppend([], x, f);
    assert [] + [x] == [x];
  }

  lemma ReportedNext(init: seq<Submission>, s: Submission, key: Key, measure: Sums -> Option<real>)
    ensures Reported(init + [s], key, measure) == Reported(init, key, measure) + AsList(measure(KeySums(s, key)))
  {
    FlatAppend(init, s, Reporting(key, measure));
  }

  lemma {:induction false} CellsReport(subs: seq<Submission>, key: Key)
    requires ValidSubmissions(subs)
    ensures Holds(CellsIn(BundleLocals(subs), key), subs, key)
    decreases |subs|
  {
    if subs != [] {
      var init, s := subs[..|subs| - 1], subs[|subs| - 1];
      assert subs == init + [s];
      CellsReport(init, key);
      CellHereReports(s, key);
      LastCells(init, s, key);
      var before, here := CellsIn(BundleLocals(init), key), CellHere(LocalsOf(RunsOf(s)), key);
      FlatConcat(before, here, CellAccuracy);
      FlatConcat(before, here, CellCompletion);
      FlatConcat(before, here, CellLatency);
      FlatConcat(before, here, CellThroughput);
      ReportedNext(init, s, key, AccuracyOf);
      ReportedNext(init, s, key, CompletionOf);
      ReportedNext(init, s, key, LatencyOf);
      ReportedNext(init, s, key, PaceOf);
    }
  }

  lemma IntervalShown(rates: seq<real>, wilson: Wilson)
    ensures ShowsInterval(ClusterInterval(rates, wilson), rates, wilson)
  {
    if rates != [] { MeanTimes(Sum(rates), |rates| as real); }
  }

  lemma MeanTimes(sum: real, n: real)
    requires n > 0.0
    ensures sum / n * n == sum
  {
  }

  lemma RankShown(values: seq<real>, p: real)
    requires 0.0 < p <= 1.0
    ensures ShowsRank(PercentileOf(values, p), values, p)
  {
    if values != [] { PercentileIsNearestRank(values, p, Percentile(values, p)); }
  }

  lemma MeasuresShown(g: Group, subs: seq<Submission>, key: Key, wilson: Wilson)
    requires g.accuracies == Reported(subs, key, AccuracyOf) && g.completions == Reported(subs, key, CompletionOf)
    requires g.latencies == Reported(subs, key, LatencyOf) && g.throughputs == Reported(subs, key, PaceOf)
    ensures ShowsMeasures(StatsOf(g, wilson), subs, key, wilson)
  {
    IntervalShown(g.accuracies, wilson);
    IntervalShown(g.completions, wilson);
    RankShown(g.latencies, 0.5);
    RankShown(g.latencies, 0.9);
    RankShown(g.throughputs, 0.5);
  }

  /** A row exists exactly for the keys with a recorded round, and all it shows is taken over the rounds,
      entries and bundles recorded under its key: releases per attempt in round 4, items elsewhere. */
  lemma RowsShowTheBundles(subs: seq<Submission>, wilson: Wilson, key: Key)
    requires ValidSubmissions(subs) && Consistent(map[], AllModels(subs))
    ensures
      var rows := DirectRows(subs, wilson);
      && (key in rows <==> Recorded(subs, key))
      && (key in rows ==> ShowsTotals(rows[key].stats, subs, key) && ShowsMeasures(rows[key].stats, subs, key, wilson))
  {
    NothingIsLost(subs, wilson, key);
    ContributorsAreBundles(subs, key);
    Conserved(subs, key);
    DirectKnown(subs);
    var rows := DirectRows(subs, wilson);
    if key in rows {
      TotalsShown(rows[key].stats, subs, key);
      MergeLookup(BundleLocals(subs), key);
      var cells := CellsIn(BundleLocals(subs), key);
      GroupLists(cells);
      CellsReport(subs, key);
      MeasuresShown(GroupOf(cells), subs, key, wilson);
    }
  }

  /** So do the rows rebuilt from the relational tables. */
  lemma StoredRowsShowTheBundles(db: Tables, subs: seq<Submission>, wilson: Wilson, rows: map<Key, Row>, key: Key)
    requires Publishable(subs) && Stores(db, subs) && Reaggregated(db, wilson, rows)
    ensures key in rows <==> Recorded(subs, key)
    ensures key in rows ==> ShowsTotals(rows[key].stats, subs, key) && ShowsMeasures(rows[key].stats, subs, key, wilson)
  {
    PathsAgree(db, subs, wilson, rows);
    RowsShowTheBundles(subs, wilson, key);
  }

  // ----- a paired observation -----

  lemma UnitReads(key: ObservationKey, g: Run -> real, column: Column)
    requires ReadsColumn(g, column, key.round)
    ensures Reads(UnitPart(key, g), OfUnit(key, column))
  {
    forall s: Submission, ordinal: nat, m: Model, r: RoundResult | r.round in s.packs
      ensures UnitPart(key, g)(RunOf(s, ordinal, m, r)) == OfUnit(key, column)(s, m, r)
    {
      assert ObservationKeyOf(RunOf(s, ordinal, m, r)) == key <==> InUnit(s, m, r, key);
    }
  }

  lemma UnitSum(subs: seq<Submission>, key: ObservationKey, g: Run -> real, column: Column)
    requires ValidSubmissions(subs) && ReadsColumn(g, column, key.round)
    ensures SumBy(Flat(AllRuns(subs), Mine(key)), g) == InAll(subs, OfUnit(key, column))
  {
    UnitReads(key, g, column);
    MineSum(AllRuns(subs), key, g);
    AllSums(subs, UnitPart(key, g), OfUnit(key, column));
  }

  lemma UnitTotals(subs: seq<Submission>, key: ObservationKey)
    requires ValidSubmissions(subs)
    ensures RunSums(Flat(AllRuns(subs), Mine(key))) == UnitSums(subs, key)
  {
    ScoreColumns(key.round);
    UnitSum(subs, key, OneRun, One());
    UnitSum(subs, key, PassedOf, Passed(key.round));
    UnitSum(subs, key, TotalOf, Total(key.round));
    UnitSum(subs, key, IncompleteOf, Incomplete());
    UnitSum(subs, key, ReviewOf, Review());
    UnitSum(subs, key, ErrorsOf, Errors());
    TimeColumns(key.round);
    UnitSum(subs, key, RunWalls, OverItems(Seconds));
    UnitSum(subs, key, RunTimed, OverItems(Timed));
    UnitSum(subs, key, RunPaces, OverItems(Pace));
    UnitSum(subs, key, RunPaced, OverItems(HasPace));
  }

  /** Every figure of an observation is taken over the rounds of its bundle, pack and configuration. */
  ghost predicate ShowsUnit(x: Observation, subs: seq<Submission>) {
    var sums := UnitSums(subs, x.key);
    && x.accuracy == AccuracyOf(sums) && x.completion == CompletionOf(sums)
    && x.latency == LatencyOf(sums) && x.throughput == PaceOf(sums)
  }

  lemma UnitShown(subs: seq<Submission>, key: ObservationKey, x: Observation, known: Identities)
    requires ValidSubmissions(subs) && key in UnitsOf(AllRuns(subs)) && key.configuration in known
    requires x == ObservationAt(UnitsOf(AllRuns(subs)), known, key)
    ensures ShowsUnit(x, subs)
  {
    UnitsLookup(AllRuns(subs), key);
    CellShares(Flat(AllRuns(subs), Mine(key)));
    UnitTotals(subs, key);
  }

  /** The observations are exactly those of the recorded units, and show what the bundles hold of them. */
  lemma ObservationsShowTheBundles(subs: seq<Submission>, known: Identities, list: seq<Observation>)
    requires ValidSubmissions(subs) && Listing(list, UnitsOf(AllRuns(subs)), known)
    ensures forall x :: x in list ==> ShowsUnit(x, subs) && x.identity == known[x.key.configuration]
    ensures forall key :: Lists(list, key) <==> UnitSums(subs, key).runs > 0.0
  {
    forall x | x in list ensures ShowsUnit(x, subs) && x.identity == known[x.key.configuration] {
      UnitShown(subs, x.key, x, known);
    }
    forall key ensures Lists(list, key) <==> UnitSums(subs, key).runs > 0.0 {
      UnitTotals(subs, key);
      CountRuns(Flat(AllRuns(subs), Mine(key)));
      UnitsLookup(AllRuns(subs), key);
    }
  }

  // ----- the relational rows -----

  /** The run stands for round k of entry j; ordinals count from one. */
  ghost predicate StandsFor(run: Run, s: Submission, j: int, k: int) {
    && 0 <= j < |s.models| && 0 <= k < |s.models[j].rounds| && s.models[j].rounds[k].round in s.packs
    && run == RunOf(s, j + 1, s.models[j], s.models[j].rounds[k])
  }

  lemma {:induction false} EntriesOfRuns(s: Submission, n: nat)
    requires ValidSubmission(s) && n <= |s.models|
    ensures forall run :: run in ModelRuns(s, n) <==> exists j, k :: j < n && StandsFor(run, s, j, k)
  {
    if n > 0 {
      var last := n - 1;
      var m := s.models[last];
      EntriesOfRuns(s, last);
      RoundRunShape(s, n, m, |m.rounds|);
      assert m in s.models;
      forall run ensures run in EntryRuns(s, n) <==> exists k :: StandsFor(run, s, last, k) {
        if run in EntryRuns(s, n) {
          var k :| 0 <= k < |EntryRuns(s, n)| && EntryRuns(s, n)[k] == run;
          assert StandsFor(run, s, last, k);
        }
        if k :| StandsFor(run, s, last, k) {
          assert EntryRuns(s, n)[k] == run;
        }
      }
    }
  }

  lemma {:induction false} RunsAreRounds(subs: seq<Submission>, run: Run)
    requires ValidSubmissions(subs)
    ensures run in AllRuns(subs) <==> exists i, j, k :: 0 <= i < |subs| && StandsFor(run, subs[i], j, k)
    decreases |subs|
  {
    if subs != [] {
      var n := |subs| - 1;
      var init := subs[..n];
      RunsAreRounds(init, run);
      EntriesOfRuns(subs[n], |subs[n].models|);
      if run in AllRuns(init) {
        var i, j, k :| 0 <= i < |init| && StandsFor(run, init[i], j, k);
        assert subs[i] == init[i];
      } else if run in RunsOf(subs[n]) {
        var j, k :| j < |subs[n].models| && StandsFor(run, subs[n], j, k);
      }
      if i, j, k :| 0 <= i < |subs| && StandsFor(run, subs[i], j, k) {
        if i < n { assert StandsFor(run, init[i], j, k); }
      }
    }
  }

  /** The row stores round k of entry j of this bundle, with the metrics that round is scored by. */
  ghost predicate StoresRound(row: RunRow, s: Submission, j: int, k: int) {
    && 0 <= j < |s.models| && 0 <= k < |s.models[j].rounds|
    && var m := s.models[j];
    var r := m.rounds[k];
    && r.round in s.packs
    && row.id == RunId(s.bundle, m.configuration, j + 1, r.round, s.packs[r.round])
    && row.passed == (if r.round == 4 then r.metrics.releaseReady else r.metrics.passed)
    && row.total == (if r.round == 4 then r.metrics.attempts else r.metrics.total)
    && row.incomplete == r.metrics.incomplete && row.manualReview == r.metrics.manualReview
    && row.infrastructure == r.metrics.infrastructure
  }

  lemma RunRowStores(run: Run, s: Submission, j: int, k: int)
    requires StandsFor(run, s, j, k)
    ensures StoresRound(RunRowOf(run), s, j, k)
  {
  }

  lemma StoringIsStanding(row: RunRow, s: Submission, j: int, k: int) returns (run: Run)
    requires StoresRound(row, s, j, k)
    ensures StandsFor(run, s, j, k) && row == RunRowOf(run)
  {
    run := RunOf(s, j + 1, s.models[j], s.models[j].rounds[k]);
  }

  lemma StoredRunRows(db: Tables, subs: seq<Submission>, row: RunRow)
    requires ValidSubmissions(subs) && Stores(db, subs)
    ensures row in db.runs <==> exists run :: run in AllRuns(subs) && row == RunRowOf(run)
  {
    var rows := RunRows(AllRuns(subs));
    assert row in multiset(db.runs) <==> row in multiset(rows);
    if row in rows {
      var i :| 0 <= i < |rows| && rows[i] == row;
      assert AllRuns(subs)[i] in AllRuns(subs);
    }
    if run :| run in AllRuns(subs) && row == RunRowOf(run) {
      var i :| 0 <= i < |AllRuns(subs)| && AllRuns(subs)[i] == run;
      assert rows[i] == row;
    }
  }

  function EachRound(): Figure {
    (s: Submission, m: Model, r: RoundResult) => 1.0
  }

  /** The run table holds exactly one row per round of an entry, under the right columns. */
  lemma StoredRowsAreRounds(db: Tables, subs: seq<Submission>)
    requires ValidSubmissions(subs) && Stores(db, subs)
    ensures forall row :: row in db.runs <==> exists i, j, k :: 0 <= i < |subs| && StoresRound(row, subs[i], j, k)
    ensures |db.runs| as real == InAll(subs, EachRound())
  {
    forall row ensures row in db.runs <==> exists i, j, k :: 0 <= i < |subs| && StoresRound(row, subs[i], j, k) {
      StoredRunRows(db, subs, row);
      if row in db.runs {
        var run :| run in AllRuns(subs) && row == RunRowOf(run);
        RunsAreRounds(subs, run);
        var i, j, k :| 0 <= i < |subs| && StandsFor(run, subs[i], j, k);
        RunRowStores(run, subs[i], j, k);
      }
      if i, j, k :| 0 <= i < |subs| && StoresRound(row, subs[i], j, k) {
        var run := StoringIsStanding(row, subs[i], j, k);
        RunsAreRounds(subs, run);
      }
    }
    SameSize(db.runs, RunRows(AllRuns(subs)));
    CountRuns(AllRuns(subs));
    AllSums(subs, OneRun, EachRound());
  }
}
