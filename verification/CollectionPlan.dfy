/**
  The bundle collection plan (src/llm_hardtest/collection_plan.py:14-130) and its agreement
  with the shortlist it is meant to unlock.
 */
module CollectionPlan {
  import opened Numbers
  import opened Sequences
  import opened Bundles
  import opened Recommender

  function ObjectiveCount(stats: Stats, o: Objective): nat {
    match o
    case Accuracy => stats.observed
    case Completion => stats.completionObserved
    case Latency => stats.wallObserved
    case Throughput => stats.tokenRateObserved
  }

  function Deficit(target: nat, observed: nat): nat {
    if observed < target then target - observed else 0
  }

  function Larger(a: nat, b: nat): nat {
    if a >= b then a else b
  }

  /** The largest deficit among the objectives; zero for none. */
  function LargestDeficit(stats: Stats, objectives: seq<Objective>, target: nat): nat {
    if objectives == [] then 0
    else Larger(LargestDeficit(stats, objectives[..|objectives| - 1], target),
                Deficit(target, ObjectiveCount(stats, objectives[|objectives| - 1])))
  }

  /** Complete bundles a row still needs, the accuracy prerequisite included. */
  function Additional(stats: Stats, objectives: seq<Objective>, target: nat): nat {
    Larger(LargestDeficit(stats, objectives, target), Deficit(MINIMUM_BUNDLES, stats.observed))
  }

  lemma {:induction false} LargestDeficitBound(stats: Stats, objectives: seq<Objective>, target: nat, j: nat)
    ensures LargestDeficit(stats, objectives, target) <= j
       <==> forall o :: o in objectives ==> ObjectiveCount(stats, o) + j >= target
    decreases |objectives|
  {
    if objectives != [] {
      var init, last := objectives[..|objectives| - 1], objectives[|objectives| - 1];
      LargestDeficitBound(stats, init, target, j);
      assert objectives == init + [last];
    }
  }

  /** Enough of everything: the gates the planner counts towards. */
  ghost predicate Ready(stats: Stats, objectives: seq<Objective>, target: nat) {
    && stats.observed >= MINIMUM_BUNDLES
    && forall o :: o in objectives ==> ObjectiveCount(stats, o) >= target
  }

  lemma ReadyMeansNothingMissing(stats: Stats, objectives: seq<Objective>, target: nat)
    ensures Additional(stats, objectives, target) == 0 <==> Ready(stats, objectives, target)
  {
    LargestDeficitBound(stats, objectives, target, 0);
  }

  // ----- aggregated rows show a metric exactly when enough bundles report it -----

  /** What aggregation guarantees of every row. */
  ghost predicate Coherent(stats: Stats) {
    && (stats.accuracy.Some? <==> stats.observed >= MINIMUM_BUNDLES)
    && (stats.completion.Some? <==> stats.completionObserved >= MINIMUM_BUNDLES)
    && (stats.wallP90.Some? <==> stats.wallObserved > 0)
    && (stats.tokenRateP50.Some? <==> stats.tokenRateObserved > 0)
  }

  lemma AggregatesAreCoherent(g: Group, wilson: Wilson)
    ensures Coherent(StatsOf(g, wilson))
  {
  }

  lemma CountsGateMetrics(stats: Stats, o: Objective)
    requires Coherent(stats)
    ensures ObjectiveValue(stats, o).Some? <==> ObjectiveCount(stats, o) >= MINIMUM_BUNDLES
  {
  }

  // ----- the plan -----

  datatype Outcome = PackNeeded | NoObservations | NothingMatches | TargetMet | CollectionNeeded

  datatype Planned = Planned(entry: Entry, additional: nat)

  datatype Plan = Plan(status: Outcome, planned: seq<Planned>, ready: nat, additional: nat)

  const MAXIMUM_TARGET := 1000

  function MatchingRows(rows: seq<Entry>, constraints: seq<Constraint>): (r: seq<Entry>)
    ensures forall x :: x in r <==> x in rows && MatchesConstraints(x, constraints)
  {
    if rows == [] then []
    else
      var init, last := rows[..|rows| - 1], rows[|rows| - 1];
      assert rows == init + [last];
      MatchingRows(init, constraints) + (if MatchesConstraints(last, constraints) then [last] else [])
  }

  function PlanRows(rows: seq<Entry>, objectives: seq<Objective>, target: nat): (r: seq<Planned>)
    ensures |r| == |rows|
    ensures forall i :: 0 <= i < |r| ==> r[i] == Planned(rows[i], Additional(rows[i].stats, objectives, target))
  {
    seq(|rows|, i requires 0 <= i < |rows| => Planned(rows[i], Additional(rows[i].stats, objectives, target)))
  }

  function ReadyCount(planned: seq<Planned>): nat {
    if planned == [] then 0
    else ReadyCount(planned[..|planned| - 1]) + (if planned[|planned| - 1].additional == 0 then 1 else 0)
  }

  function AdditionalTotal(planned: seq<Planned>): nat {
    if planned == [] then 0 else AdditionalTotal(planned[..|planned| - 1]) + planned[|planned| - 1].additional
  }

  lemma {:induction false} AllReady(planned: seq<Planned>)
    ensures ReadyCount(planned) <= |planned|
    ensures ReadyCount(planned) == |planned| <==> forall p :: p in planned ==> p.additional == 0
    ensures ReadyCount(planned) == |planned| <==> AdditionalTotal(planned) == 0
    decreases |planned|
  {
    if planned != [] {
      var init, last := planned[..|planned| - 1], planned[|planned| - 1];
      assert planned == init + [last];
      AllReady(init);
    }
  }

  method PlanLoop(rows: seq<Entry>, objectives: seq<Objective>,
                  target: nat) returns (planned: seq<Planned>, ready: nat, additional: nat)
    ensures planned == PlanRows(rows, objectives, target)
    ensures ready == ReadyCount(planned) && additional == AdditionalTotal(planned)
  {
    planned, ready, additional := [], 0, 0;
    for n := 0 to |rows|
      invariant planned == PlanRows(rows[..n], objectives, target)
      invariant ready == ReadyCount(planned) && additional == AdditionalTotal(planned)
    {
      var need := Additional(rows[n].stats, objectives, target);
      var next := planned + [Planned(rows[n], need)];
      assert next[..|planned|] == planned;
      planned := next;
      ready := ready + (if need == 0 then 1 else 0);
      additional := additional + need;
    }
    assert rows[..|rows|] == rows;
  }

  // ----- the order planned rows are listed in -----

  function MostFirst(): Planned -> int {
    (p: Planned) => -(p.additional as int)
  }

  /** Most additional bundles first, then by name and configuration. */
  ghost predicate InPlanOrder(planned: seq<Planned>, fold: Folding) {
    forall i, j :: 0 <= i < j < |planned| ==>
      || planned[i].additional > planned[j].additional
      || (planned[i].additional == planned[j].additional && NameOrder(planned[i].entry, planned[j].entry, fold))
  }

  function PlanOf(objectives: seq<Objective>, target: nat): Entry -> seq<Planned> {
    (e: Entry) => [Planned(e, Additional(e.stats, objectives, target))]
  }

  lemma {:induction false} PlanRowsAreFlat(rows: seq<Entry>, objectives: seq<Objective>, target: nat)
    ensures PlanRows(rows, objectives, target) == Flat(rows, PlanOf(objectives, target))
    decreases |rows|
  {
    if rows != [] {
      var n := |rows| - 1;
      PlanRowsAreFlat(rows[..n], objectives, target);
      assert PlanRows(rows, objectives, target)
          == PlanRows(rows[..n], objectives, target)
           + [Planned(rows[n], Additional(rows[n].stats, objectives, target))];
    }
  }

  function ReadyOf(): Planned -> real {
    (p: Planned) => if p.additional == 0 then 1.0 else 0.0
  }

  function AdditionalOf(): Planned -> real {
    (p: Planned) => p.additional as real
  }

  lemma {:induction false} CountsAreSums(planned: seq<Planned>)
    ensures ReadyCount(planned) as real == SumBy(planned, ReadyOf())
    ensures AdditionalTotal(planned) as real == SumBy(planned, AdditionalOf())
    decreases |planned|
  {
    if planned != [] { CountsAreSums(planned[..|planned| - 1]); }
  }

  /** The counts of a plan do not depend on the order of its rows. */
  lemma CountsPermute(a: seq<Planned>, b: seq<Planned>)
    requires multiset(a) == multiset(b)
    ensures |a| == |b| && ReadyCount(a) == ReadyCount(b) && AdditionalTotal(a) == AdditionalTotal(b)
  {
    SameSize(a, b);
    CountsAreSums(a);
    CountsAreSums(b);
    SumByPermutation(a, b, ReadyOf());
    SumByPermutation(a, b, AdditionalOf());
  }

  /** Planning the sorted rows and listing the result loses nothing and sorts by both keys. */
  lemma PlanIsListed(rows: seq<Entry>, objectives: seq<Objective>, target: nat, fold: Folding)
    ensures
      var plain, planned := PlanRows(rows, objectives, target), PlanRows(ByName(rows, fold), objectives, target);
      var list := SortBy(planned, MostFirst());
      && multiset(list) == multiset(plain) && InPlanOrder(list, fold)
      && ReadyCount(planned) == ReadyCount(plain) && AdditionalTotal(planned) == AdditionalTotal(plain)
  {
    var plain, planned := PlanRows(rows, objectives, target), PlanRows(ByName(rows, fold), objectives, target);
    ByNameSorts(rows, fold);
    PlanRowsAreFlat(rows, objectives, target);
    PlanRowsAreFlat(ByName(rows, fold), objectives, target);
    FlatPermutation(ByName(rows, fold), rows, PlanOf(objectives, target));
    CountsPermute(planned, plain);
    ListSorts(planned, fold);
  }

  lemma ListSorts(planned: seq<Planned>, fold: Folding)
    requires forall i, j :: 0 <= i < j < |planned| ==> NameOrder(planned[i].entry, planned[j].entry, fold)
    ensures InPlanOrder(SortBy(planned, MostFirst()), fold)
  {
    var byName: (Planned, Planned) -> bool := (x: Planned, y: Planned) => NameOrder(x.entry, y.entry, fold);
    StableSort(planned, MostFirst(), byName);
    var list := SortBy(planned, MostFirst());
    forall i, j | 0 <= i < j < |list|
      ensures || list[i].additional > list[j].additional
              || (list[i].additional == list[j].additional && NameOrder(list[i].entry, list[j].entry, fold))
    {
      assert ThenBy(MostFirst(), byName)(list[i], list[j]);
    }
  }

  /** None is a refused target; otherwise the plan for the query's pack. */
  method BuildPlan(rows: seq<Entry>, q: Query, target: nat,
                   fold: Folding) returns (plan: Option<Plan>, selected: Option<Id>)
    ensures plan.None? <==> !(MINIMUM_BUNDLES <= target <= MAXIMUM_TARGET)
    ensures plan.Some? && selected.None? ==>
      && (forall pack :: !Selects(rows, q, pack))
      && plan.value.status == (if q.pack.None? && |Packs(OfRound(rows, q.round))| > 1 then PackNeeded
                               else NoObservations)
      && plan.value.planned == []
    ensures plan.Some? && selected.Some? ==>
      && Selects(rows, q, selected.value)
      && var mine := MatchingRows(OfPack(OfRound(rows, q.round), selected.value), q.constraints);
      && var planned := PlanRows(mine, q.objectives, target);
      && multiset(plan.value.planned) == multiset(planned) && InPlanOrder(plan.value.planned, fold)
      && plan.value.ready == ReadyCount(planned)
      && plan.value.additional == AdditionalTotal(planned)
      && plan.value.status == (if mine == [] then NothingMatches
                               else if plan.value.ready == |mine| then TargetMet else CollectionNeeded)
  {
    selected := None;
    if !(MINIMUM_BUNDLES <= target <= MAXIMUM_TARGET) {
      return None, None;
    }
    var query;
    query, selected := Recommend(rows, q.(floor := None), fold);
    assert forall pack :: Selects(rows, q, pack) <==> Selects(rows, q.(floor := None), pack);
    if selected.None? {
      plan := Some(Plan(if query.status.PackRequired? then PackNeeded else NoObservations, [], 0, 0));
      return;
    }
    var mine := MatchingRows(OfPack(OfRound(rows, q.round), selected.value), q.constraints);
    var planned, ready, additional := PlanLoop(ByName(mine, fold), q.objectives, target);
    PlanIsListed(mine, q.objectives, target, fold);
    var status := if mine == [] then NothingMatches else if ready == |mine| then TargetMet else CollectionNeeded;
    plan := Some(Plan(status, SortBy(planned, MostFirst()), ready, additional));
  }

  // ----- planner and recommender agree -----

  lemma ReadyRowsPassTheGates(row: Entry, q: Query, target: nat)
    requires target >= MINIMUM_BUNDLES && Coherent(row.stats)
    requires Additional(row.stats, q.objectives, target) == 0
    ensures FateOf(row, q) != Insufficient && FateOf(row, q) != Missing
  {
    ReadyMeansNothingMissing(row.stats, q.objectives, target);
    forall o | o in q.objectives ensures ObjectiveValue(row.stats, o).Some? {
      CountsGateMetrics(row.stats, o);
    }
  }

  lemma {:induction false} NoneOfFate(rows: seq<Entry>, q: Query, fate: Fate)
    requires forall x :: x in rows ==> FateOf(x, q) != fate
    ensures CountFate(rows, q, fate) == 0
    decreases |rows|
  {
    if rows != [] {
      var init, last := rows[..|rows| - 1], rows[|rows| - 1];
      assert rows == init + [last] && last in rows;
      NoneOfFate(init, q, fate);
    }
  }

  /** A met target means the shortlist excludes no row for want of bundles or of an objective. */
  lemma TargetMetUnlocksTheShortlist(mine: seq<Entry>, q: Query, target: nat)
    requires target >= MINIMUM_BUNDLES && forall x :: x in mine ==> Coherent(x.stats)
    requires ReadyCount(PlanRows(MatchingRows(mine, q.constraints), q.objectives, target))
          == |MatchingRows(mine, q.constraints)|
    ensures CountFate(mine, q, Insufficient) == 0 && CountFate(mine, q, Missing) == 0
  {
    var matching := MatchingRows(mine, q.constraints);
    var planned := PlanRows(matching, q.objectives, target);
    AllReady(planned);
    forall x | x in mine ensures FateOf(x, q) != Insufficient && FateOf(x, q) != Missing {
      if MatchesConstraints(x, q.constraints) {
        var i :| 0 <= i < |matching| && matching[i] == x;
        assert planned[i] in planned;
        ReadyRowsPassTheGates(x, q, target);
      }
    }
    NoneOfFate(mine, q, Insufficient);
    NoneOfFate(mine, q, Missing);
  }

  /** Planning and then asking for the shortlist with the same query, on aggregated rows. */
  method PlanThenRecommend(rows: seq<Entry>, q: Query, target: nat,
                           fold: Folding) returns (plan: Option<Plan>, shortlist: Shortlist)
    requires forall x :: x in rows ==> Coherent(x.stats)
    ensures plan.Some? && plan.value.status == TargetMet ==>
      && shortlist.matched == |plan.value.planned| > 0
      && shortlist.excluded.insufficient == 0 && shortlist.excluded.missing == 0
      && |shortlist.candidates| + shortlist.excluded.dominated + shortlist.excluded.floor == shortlist.matched
  {
    var planned, selected;
    plan, planned := BuildPlan(rows, q, target, fold);
    shortlist, selected := Recommend(rows, q, fold);
    if plan.Some? && plan.value.status == TargetMet {
      assert planned.Some? && Selects(rows, q, planned.value);
      assert selected == planned;
      var mine := OfPack(OfRound(rows, q.round), selected.value);
      AllMatchedAreReady(mine, q, target, plan.value.planned);
    }
  }

  lemma AllMatchedAreReady(mine: seq<Entry>, q: Query, target: nat, planned: seq<Planned>)
    requires target >= MINIMUM_BUNDLES && forall x :: x in mine ==> Coherent(x.stats)
    requires multiset(planned) == multiset(PlanRows(MatchingRows(mine, q.constraints), q.objectives, target))
    requires ReadyCount(PlanRows(MatchingRows(mine, q.constraints), q.objectives, target))
          == |MatchingRows(mine, q.constraints)|
    ensures CountFate(mine, q, Insufficient) == 0 && CountFate(mine, q, Missing) == 0
    ensures |planned| + CountFate(mine, q, Unmatched) == |mine|
  {
    TargetMetUnlocksTheShortlist(mine, q, target);
    MatchingCount(mine, q);
    SameSize(planned, PlanRows(MatchingRows(mine, q.constraints), q.objectives, target));
  }

  lemma {:induction false} MatchingCount(rows: seq<Entry>, q: Query)
    ensures |MatchingRows(rows, q.constraints)| + CountFate(rows, q, Unmatched) == |rows|
    decreases |rows|
  {
    if rows != [] { MatchingCount(rows[..|rows| - 1], q); }
  }

  /** At the least target the planner's readiness is exactly passing those two gates. */
  lemma LeastTargetIsTheGate(row: Entry, q: Query)
    requires Coherent(row.stats) && MatchesConstraints(row, q.constraints)
    ensures Additional(row.stats, q.objectives, MINIMUM_BUNDLES) == 0
       <==> FateOf(row, q) != Insufficient && FateOf(row, q) != Missing
  {
    ReadyMeansNothingMissing(row.stats, q.objectives, MINIMUM_BUNDLES);
    forall o | o in q.objectives
      ensures ObjectiveValue(row.stats, o).Some? <==> ObjectiveCount(row.stats, o) >= MINIMUM_BUNDLES
    {
      CountsGateMetrics(row.stats, o);
    }
  }

  // ----- collecting the stated number is enough, and no fewer is -----

  function Reports(c: Cell, o: Objective): bool {
    match o
    case Accuracy => c.accuracy.Some?
    case Completion => c.completion.Some?
    case Latency => c.latency.Some?
    case Throughput => c.throughput.Some?
  }

  /** A bundle that reports accuracy and every selected objective. */
  ghost predicate CompleteBundle(c: Cell, objectives: seq<Objective>) {
    Reports(c, Accuracy) && forall o :: o in objectives ==> Reports(c, o)
  }

  function StatsFrom(cells: seq<Cell>, wilson: Wilson): Stats {
    StatsOf(GroupOf(cells), wilson)
  }

  /** How many of the bundles report an objective. */
  function ReportCount(cells: seq<Cell>, o: Objective): nat {
    if cells == [] then 0
    else ReportCount(cells[..|cells| - 1], o) + (if Reports(cells[|cells| - 1], o) then 1 else 0)
  }

  function Collected(g: Group, o: Objective): nat {
    match o
    case Accuracy => |g.accuracies|
    case Completion => |g.completions|
    case Latency => |g.latencies|
    case Throughput => |g.throughputs|
  }

  lemma {:induction false} GroupCounts(cells: seq<Cell>, o: Objective)
    ensures Collected(GroupOf(cells), o) == ReportCount(cells, o)
    decreases |cells|
  {
    if cells != [] { GroupCounts(cells[..|cells| - 1], o); }
  }

  lemma StatsCounts(g: Group, wilson: Wilson, o: Objective)
    ensures ObjectiveCount(StatsOf(g, wilson), o) == Collected(g, o)
  {
  }

  lemma CountsReports(cells: seq<Cell>, wilson: Wilson, o: Objective)
    ensures ObjectiveCount(StatsFrom(cells, wilson), o) == ReportCount(cells, o)
  {
    StatsCounts(GroupOf(cells), wilson, o);
    GroupCounts(cells, o);
  }

  /** New bundles add at most one each to a count, and exactly one each where they report it. */
  lemma {:induction false} MoreReports(cells: seq<Cell>, extra: seq<Cell>, o: Objective)
    ensures ReportCount(cells + extra, o) <= ReportCount(cells, o) + |extra|
    ensures (forall c :: c in extra ==> Reports(c, o)) ==>
      ReportCount(cells + extra, o) == ReportCount(cells, o) + |extra|
    decreases |extra|
  {
    if extra == [] {
      assert cells + extra == cells;
    } else {
      var init := extra[..|extra| - 1];
      MoreReports(cells, init, o);
      assert (cells + extra)[..|cells + extra| - 1] == cells + init;
    }
  }

  lemma MoreBundles(cells: seq<Cell>, extra: seq<Cell>, wilson: Wilson, o: Objective)
    ensures ObjectiveCount(StatsFrom(cells + extra, wilson), o) <= ObjectiveCount(StatsFrom(cells, wilson), o) + |extra|
    ensures (forall c :: c in extra ==> Reports(c, o)) ==>
      ObjectiveCount(StatsFrom(cells + extra, wilson), o) == ObjectiveCount(StatsFrom(cells, wilson), o) + |extra|
  {
    CountsReports(cells, wilson, o);
    CountsReports(cells + extra, wilson, o);
    MoreReports(cells, extra, o);
  }

  /** No collection of fewer bundles than stated, complete or not, makes a row ready. */
  lemma FewerIsNotEnough(cells: seq<Cell>, extra: seq<Cell>, objectives: seq<Objective>, target: nat, wilson: Wilson)
    requires |extra| < Additional(StatsFrom(cells, wilson), objectives, target)
    ensures Additional(StatsFrom(cells + extra, wilson), objectives, target) > 0
  {
    var before, after := StatsFrom(cells, wilson), StatsFrom(cells + extra, wilson);
    ReadyMeansNothingMissing(after, objectives, target);
    LargestDeficitBound(before, objectives, target, |extra|);
    MoreBundles(cells, extra, wilson, Accuracy);
    forall o | o in objectives ensures ObjectiveCount(after, o) <= ObjectiveCount(before, o) + |extra| {
      MoreBundles(cells, extra, wilson, o);
    }
  }

  /** Complete bundles make a row ready exactly from the stated number on. */
  lemma StatedNumberIsExact(cells: seq<Cell>, extra: seq<Cell>, objectives: seq<Objective>, target: nat, wilson: Wilson)
    requires forall i :: 0 <= i < |extra| ==> CompleteBundle(extra[i], objectives)
    ensures Additional(StatsFrom(cells + extra, wilson), objectives, target) == 0
       <==> |extra| >= Additional(StatsFrom(cells, wilson), objectives, target)
  {
    var before, after := StatsFrom(cells, wilson), StatsFrom(cells + extra, wilson);
    if |extra| < Additional(before, objectives, target) {
      FewerIsNotEnough(cells, extra, objectives, target, wilson);
    } else {
      ReadyMeansNothingMissing(after, objectives, target);
      LargestDeficitBound(before, objectives, target, |extra|);
      MoreBundles(cells, extra, wilson, Accuracy);
      forall o | o in objectives ensures ObjectiveCount(after, o) == ObjectiveCount(before, o) + |extra| {
        MoreBundles(cells, extra, wilson, o);
      }
    }
  }

  // ----- the whole plan -----

  /** A plan over rows with these bundles: each planned row states what its own bundles leave open. */
  ghost predicate States(planned: seq<Planned>, cells: seq<seq<Cell>>, objectives: seq<Objective>, target: nat,
                         wilson: Wilson) {
    |planned| == |cells| && forall i :: 0 <= i < |planned| ==>
      planned[i].additional == Additional(StatsFrom(cells[i], wilson), objectives, target)
  }

  /** What the planner states for aggregated rows. */
  lemma PlannerStates(rows: seq<Entry>, cells: seq<seq<Cell>>, objectives: seq<Objective>, target: nat, wilson: Wilson)
    requires |rows| == |cells| && forall i :: 0 <= i < |rows| ==> rows[i].stats == StatsFrom(cells[i], wilson)
    ensures States(PlanRows(rows, objectives, target), cells, objectives, target, wilson)
  {
  }

  function Extended(cells: seq<seq<Cell>>, extra: seq<seq<Cell>>): (r: seq<seq<Cell>>)
    requires |cells| == |extra|
    ensures |r| == |cells| && forall i :: 0 <= i < |r| ==> r[i] == cells[i] + extra[i]
  {
    seq(|cells|, i requires 0 <= i < |cells| => cells[i] + extra[i])
  }

  function Size(extra: seq<seq<Cell>>): nat {
    if extra == [] then 0 else Size(extra[..|extra| - 1]) + |extra[|extra| - 1]|
  }

  /** TARGET_MET, unless no row matches at all. */
  ghost predicate Met(planned: seq<Planned>) {
    ReadyCount(planned) == |planned|
  }

  lemma MetMeans(planned: seq<Planned>)
    ensures Met(planned) <==> forall i :: 0 <= i < |planned| ==> planned[i].additional == 0
  {
    AllReady(planned);
    if Met(planned) {
      forall i | 0 <= i < |planned| ensures planned[i].additional == 0 {
        assert planned[i] in planned;
      }
    }
  }

  /** Complete bundles turn the whole plan to TARGET_MET exactly when every row gets its stated number. */
  lemma WholePlanExactly(planned: seq<Planned>, after: seq<Planned>, cells: seq<seq<Cell>>, extra: seq<seq<Cell>>,
                         objectives: seq<Objective>, target: nat, wilson: Wilson)
    requires |cells| == |extra|
    requires States(planned, cells, objectives, target, wilson)
    requires States(after, Extended(cells, extra), objectives, target, wilson)
    requires forall i :: 0 <= i < |extra| ==> forall k :: 0 <= k < |extra[i]| ==>
      CompleteBundle(extra[i][k], objectives)
    ensures Met(after) <==> forall i :: 0 <= i < |extra| ==> |extra[i]| >= planned[i].additional
  {
    MetMeans(after);
    forall i | 0 <= i < |extra| ensures after[i].additional == 0 <==> |extra[i]| >= planned[i].additional {
      RowOfPlan(planned, after, cells, extra, objectives, target, wilson, i);
    }
  }

  lemma RowOfPlan(planned: seq<Planned>, after: seq<Planned>, cells: seq<seq<Cell>>, extra: seq<seq<Cell>>,
                  objectives: seq<Objective>, target: nat, wilson: Wilson, i: nat)
    requires |cells| == |extra| && i < |extra|
    requires States(planned, cells, objectives, target, wilson)
    requires States(after, Extended(cells, extra), objectives, target, wilson)
    requires forall k :: 0 <= k < |extra[i]| ==> CompleteBundle(extra[i][k], objectives)
    ensures after[i].additional == 0 <==> |extra[i]| >= planned[i].additional
  {
    StatedNumberIsExact(cells[i], extra[i], objectives, target, wilson);
    assert Extended(cells, extra)[i] == cells[i] + extra[i];
  }

  lemma {:induction false} TotalAtMostSize(planned: seq<Planned>, extra: seq<seq<Cell>>)
    requires |planned| == |extra| && forall i :: 0 <= i < |extra| ==> planned[i].additional <= |extra[i]|
    ensures AdditionalTotal(planned) <= Size(extra)
    decreases |planned|
  {
    if planned != [] { TotalAtMostSize(planned[..|planned| - 1], extra[..|extra| - 1]); }
  }

  /** No collection smaller than the stated total does, complete or not, however it is spread over the rows. */
  lemma StatedTotalIsNeeded(planned: seq<Planned>, after: seq<Planned>, cells: seq<seq<Cell>>, extra: seq<seq<Cell>>,
                            objectives: seq<Objective>, target: nat, wilson: Wilson)
    requires |cells| == |extra|
    requires States(planned, cells, objectives, target, wilson)
    requires States(after, Extended(cells, extra), objectives, target, wilson)
    requires Met(after)
    ensures AdditionalTotal(planned) <= Size(extra)
  {
    MetMeans(after);
    forall i | 0 <= i < |extra| ensures planned[i].additional <= |extra[i]| {
      RowNeeds(cells[i], extra[i], objectives, target, wilson);
    }
    TotalAtMostSize(planned, extra);
  }

  lemma RowNeeds(cells: seq<Cell>, extra: seq<Cell>, objectives: seq<Objective>, target: nat, wilson: Wilson)
    requires Additional(StatsFrom(cells + extra, wilson), objectives, target) == 0
    ensures Additional(StatsFrom(cells, wilson), objectives, target) <= |extra|
  {
    if |extra| < Additional(StatsFrom(cells, wilson), objectives, target) {
      FewerIsNotEnough(cells, extra, objectives, target, wilson);
    }
  }
}
