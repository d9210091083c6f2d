/**
  Public result bundles and the arithmetic both aggregation paths share
  (src/llm_hardtest/community_results.py:121-217, src/llm_hardtest/paired_comparison.py:24-87).
 */
module Bundles {
  import opened Numbers
  import opened Percentiles
  import opened Sequences

  /** Fingerprints and content-derived names: only equality and order matter. */
  datatype Id = Id(place: int)

  /** Case folding of names; only equality and order of folded names matter. */
  type Folding = Id -> int

  datatype Item = Item(name: Id, attempt: nat, wall: Option<real>, tokens: Option<nat>)

  /** The metrics of one round; a missing or null field is None. */
  datatype Metrics = Metrics(
    passed: Option<real>, total: Option<real>,
    releaseReady: Option<real>, attempts: Option<real>,
    incomplete: Option<real>, manualReview: Option<real>, infrastructure: Option<real>,
    items: seq<Item>)

  datatype RoundResult = RoundResult(round: nat, metrics: Metrics)

  /** What a row shows of a configuration. */
  datatype Identity = Identity(environment: Id, serving: Id, name: Id, transport: Id, parameters: Id, metadata: Id)

  /** One model entry: its configuration ID, its identity, its execution scaffold and its rounds. */
  datatype Model = Model(configuration: Id, identity: Identity, scaffold: Id, rounds: seq<RoundResult>)

  datatype Submission = Submission(bundle: Id, models: seq<Model>, packs: map<nat, Id>)

  // ----- runs -----

  /** One round of one model entry, as either path sees it. */
  datatype Run = Run(
    bundle: Id, configuration: Id, name: Id, ordinal: nat, round: nat, pack: Id,
    passed: Option<real>, total: Option<real>,
    incomplete: Option<real>, manualReview: Option<real>, infrastructure: Option<real>,
    items: seq<Item>)

  /** Every round of the entry has a pack fingerprint. */
  ghost predicate PacksCover(packs: map<nat, Id>, m: Model) {
    forall r :: r in m.rounds ==> r.round in packs
  }

  ghost predicate ValidSubmission(s: Submission) {
    forall m :: m in s.models ==> PacksCover(s.packs, m)
  }

  ghost predicate ValidSubmissions(subs: seq<Submission>) {
    forall i :: 0 <= i < |subs| ==> ValidSubmission(subs[i])
  }

  /** Round 4 scores releases per attempt; every other round scores items. */
  function RunOf(s: Submission, ordinal: nat, m: Model, r: RoundResult): Run
    requires r.round in s.packs
  {
    var passed, total := if r.round == 4 then r.metrics.releaseReady else r.metrics.passed,
                         if r.round == 4 then r.metrics.attempts else r.metrics.total;
    Run(s.bundle, m.configuration, m.identity.name, ordinal, r.round, s.packs[r.round],
        passed, total, r.metrics.incomplete, r.metrics.manualReview, r.metrics.infrastructure, r.metrics.items)
  }

  /** The runs of the first k rounds of one model entry. */
  function RoundRuns(s: Submission, ordinal: nat, m: Model, k: nat): seq<Run>
    requires k <= |m.rounds| && PacksCover(s.packs, m)
  {
    if k == 0 then [] else RoundRuns(s, ordinal, m, k - 1) + [RunOf(s, ordinal, m, m.rounds[k - 1])]
  }

  /** The runs of the model entry with a given ordinal. */
  function EntryRuns(s: Submission, ordinal: nat): seq<Run>
    requires 1 <= ordinal <= |s.models| && ValidSubmission(s)
  {
    RoundRuns(s, ordinal, s.models[ordinal - 1], |s.models[ordinal - 1].rounds|)
  }

  /** The runs of the first n model entries; ordinals count from one. */
  function ModelRuns(s: Submission, n: nat): seq<Run>
    requires n <= |s.models| && ValidSubmission(s)
  {
    if n == 0 then [] else ModelRuns(s, n - 1) + EntryRuns(s, n)
  }

  function RunsOf(s: Submission): seq<Run>
    requires ValidSubmission(s)
  {
    ModelRuns(s, |s.models|)
  }

  function AllRuns(subs: seq<Submission>): seq<Run>
    requires ValidSubmissions(subs)
  {
    if subs == [] then [] else AllRuns(subs[..|subs| - 1]) + RunsOf(subs[|subs| - 1])
  }

  function AllModels(subs: seq<Submission>): seq<Model> {
    if subs == [] then [] else AllModels(subs[..|subs| - 1]) + subs[|subs| - 1].models
  }

  // ----- inside one bundle -----

  /** The accumulators of one bundle and key. */
  datatype Local = Local(
    runs: nat, passed: real, total: real, incomplete: real, manualReview: real, infrastructure: real,
    walls: seq<real>, rates: seq<real>)

  const EMPTY_LOCAL := Local(0, 0.0, 0.0, 0.0, 0.0, 0.0, [], [])

  /** A missing metric adds nothing. */
  function OrZero(value: Option<real>): (r: real)
    ensures value == Some(r) || (value == None && r == 0.0)
  {
    if value.Some? then value.value else 0.0
  }

  function WallOf(item: Item): seq<real> {
    if item.wall.Some? then [item.wall.value] else []
  }

  function RateOf(item: Item): seq<real> {
    if item.wall.Some? && item.wall.value > 0.0 && item.tokens.Some?
    then [item.tokens.value as real / item.wall.value] else []
  }

  function Walls(items: seq<Item>): seq<real> {
    Flat(items, WallOf)
  }

  function Rates(items: seq<Item>): seq<real> {
    Flat(items, RateOf)
  }

  function Accumulate(local: Local, run: Run): Local {
    Local(local.runs + 1, local.passed + OrZero(run.passed), local.total + OrZero(run.total),
          local.incomplete + OrZero(run.incomplete), local.manualReview + OrZero(run.manualReview),
          local.infrastructure + OrZero(run.infrastructure),
          local.walls + Walls(run.items), local.rates + Rates(run.items))
  }

  /** The accumulators after a list of runs, first run first. */
  function LocalOf(runs: seq<Run>): Local {
    if runs == [] then EMPTY_LOCAL else Accumulate(LocalOf(runs[..|runs| - 1]), runs[|runs| - 1])
  }

  /** One bundle's contribution: its totals and the four rates it can show. */
  datatype Cell = Cell(
    runs: nat, passed: real, total: real, incomplete: real, manualReview: real, infrastructure: real,
    accuracy: Option<real>, completion: Option<real>, latency: Option<real>, throughput: Option<real>)

  function Ratio(part: real, whole: real): Option<real> {
    if whole > 0.0 then Some(part / whole) else None
  }

  function CellOf(local: Local): Cell {
    var attempted := local.total + local.incomplete + local.manualReview + local.infrastructure;
    Cell(local.runs, local.passed, local.total, local.incomplete, local.manualReview, local.infrastructure,
         Ratio(local.passed, local.total), Ratio(local.total, attempted),
         MeanOf(local.walls), MeanOf(local.rates))
  }

  // ----- across bundles -----

  datatype Group = Group(
    submissions: nat, runs: nat, passed: real, total: real, incomplete: real, manualReview: real, infrastructure: real,
    accuracies: seq<real>, completions: seq<real>, latencies: seq<real>, throughputs: seq<real>)

  const EMPTY_GROUP := Group(0, 0, 0.0, 0.0, 0.0, 0.0, 0.0, [], [], [], [])

  function AsList(value: Option<real>): seq<real> {
    if value.Some? then [value.value] else []
  }

  function AddCell(g: Group, c: Cell): Group {
    Group(g.submissions + 1, g.runs + c.runs, g.passed + c.passed, g.total + c.total,
          g.incomplete + c.incomplete, g.manualReview + c.manualReview, g.infrastructure + c.infrastructure,
          g.accuracies + AsList(c.accuracy), g.completions + AsList(c.completion),
          g.latencies + AsList(c.latency), g.throughputs + AsList(c.throughput))
  }

  function GroupOf(cells: seq<Cell>): Group {
    if cells == [] then EMPTY_GROUP else AddCell(GroupOf(cells[..|cells| - 1]), cells[|cells| - 1])
  }

  // ----- the published row -----

  const MINIMUM_BUNDLES := 5

  datatype RateInterval = RateInterval(estimate: real, low: real, high: real, observed: nat)

  /** Lower and upper ends of the Wilson-style interval, as a function of mean and sample size. */
  type Wilson = (real, nat) -> (real, real)

  function ClusterInterval(rates: seq<real>, wilson: Wilson): Option<RateInterval> {
    if |rates| < MINIMUM_BUNDLES then None
    else
      var ends := wilson(Mean(rates), |rates|);
      Some(RateInterval(Mean(rates), ends.0, ends.1, |rates|))
  }

  function PercentileOf(values: seq<real>, probability: real): Option<real> {
    if values == [] then None else Some(Percentile(values, probability))
  }

  datatype Stats = Stats(
    submissions: nat, runs: nat, passed: real, total: real, incomplete: real, manualReview: real, infrastructure: real,
    observed: nat, accuracy: Option<RateInterval>,
    completionObserved: nat, completion: Option<RateInterval>,
    wallP50: Option<real>, wallP90: Option<real>, wallObserved: nat,
    tokenRateP50: Option<real>, tokenRateObserved: nat)

  function StatsOf(g: Group, wilson: Wilson): Stats {
    Stats(g.submissions, g.runs, g.passed, g.total, g.incomplete, g.manualReview, g.infrastructure,
          |g.accuracies|, ClusterInterval(g.accuracies, wilson),
          |g.completions|, ClusterInterval(g.completions, wilson),
          PercentileOf(g.latencies, 0.5), PercentileOf(g.latencies, 0.9), |g.latencies|,
          PercentileOf(g.throughputs, 0.5), |g.throughputs|)
  }

  // ----- grouping keys -----

  /** Aggregates are per round, pack, model name and configuration. */
  datatype Key = Key(round: nat, pack: Id, name: Id, configuration: Id)

  function KeyOf(run: Run): Key {
    Key(run.round, run.pack, run.name, run.configuration)
  }

  function Matching(runs: seq<Run>, bundle: Id, key: Key): seq<Run> {
    if runs == [] then []
    else (if runs[0].bundle == bundle && KeyOf(runs[0]) == key then [runs[0]] else [])
         + Matching(runs[1..], bundle, key)
  }
}
