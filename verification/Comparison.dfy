/**
  The inferential half of a paired comparison
  (src/llm_hardtest/paired_comparison.py:171-194, 380-473): intervals, tests, Holm
  correction, per-objective verdicts and the overall status.
 */
module Comparison {
  import opened Numbers
  import opened ObjectiveRows
  import opened SignFlip
  import opened Resolution
  import TinyEffects
  import opened Holm
  import opened Percentiles

  /** Constants of the source, with the relations the results rely on. */
  datatype Settings = Settings(alpha: real, tolerance: real, exactLimit: nat, minimumPairs: nat, maximumFamily: nat) {
    ghost predicate Valid() {
      0.0 < alpha <= 2.0 * POINTWISE_TAIL && tolerance >= 0.0 && minimumPairs >= 1
    }
  }

  const POINTWISE_TAIL := 0.025

  /**
    One objective as it reaches inference: its paired effects, its practical floor, and
    what the deterministic samplers would draw for it.
   */
  datatype Question = Question(objective: int, effects: seq<real>, minimumEffect: real, draws: seq<real>,
                               masks: seq<nat>)

  // ----- intervals -----

  /** The draws at a lower and at the opposite upper rank, rounded to six places. */
  function TailInterval(draws: seq<real>, tail: real): Interval
    requires draws != []
  {
    Interval(Round6(Percentile(draws, tail)), Round6(Percentile(draws, 1.0 - tail)))
  }

  function PairedIntervals(draws: seq<real>, family: nat, alpha: real): (r: (Interval, Interval))
    requires draws != [] && family > 0
  {
    (TailInterval(draws, POINTWISE_TAIL), TailInterval(draws, alpha / (2 * family) as real))
  }

  /** Whatever was drawn, the simultaneous interval contains the pointwise one. */
  lemma SimultaneousContainsPointwise(draws: seq<real>, family: nat, alpha: real)
    requires draws != [] && family > 0 && 0.0 < alpha <= 2.0 * POINTWISE_TAIL
    ensures
      var (pointwise, simultaneous) := PairedIntervals(draws, family, alpha);
      simultaneous.low <= pointwise.low <= pointwise.high <= simultaneous.high
  {
    var tail := alpha / (2 * family) as real;
    TailShrinks(alpha, family);
    WiderTail(draws, tail, POINTWISE_TAIL);
  }

  lemma WiderTail(draws: seq<real>, outer: real, inner: real)
    requires draws != [] && outer <= inner <= 0.5
    ensures TailInterval(draws, outer).low <= TailInterval(draws, inner).low
    ensures TailInterval(draws, inner).low <= TailInterval(draws, inner).high
    ensures TailInterval(draws, inner).high <= TailInterval(draws, outer).high
  {
    RoundedMonotone(draws, outer, inner);
    RoundedMonotone(draws, inner, 1.0 - inner);
    RoundedMonotone(draws, 1.0 - inner, 1.0 - outer);
  }

  lemma RoundedMonotone(draws: seq<real>, p: real, q: real)
    requires draws != [] && p <= q
    ensures Round6(Percentile(draws, p)) <= Round6(Percentile(draws, q))
  {
    PercentileMonotone(draws, p, q);
    Round6Monotone(Percentile(draws, p), Percentile(draws, q));
  }

  lemma TailShrinks(alpha: real, family: nat)
    requires family > 0 && 0.0 < alpha <= 2.0 * POINTWISE_TAIL
    ensures alpha / (2 * family) as real <= POINTWISE_TAIL
  {
    var tail, whole := alpha / (2 * family) as real, (2 * family) as real;
    assert tail * whole == alpha;
  }

  // ----- verdicts -----

  function Judge(row: Row, alpha: real): Row
    requires row.verdict != Insufficient ==> row.pHolm.Some? && row.interval95.Some? && row.simultaneous.Some?
  {
    if row.verdict == Insufficient then row
    else
      var point, wide, floor := row.interval95.value, row.simultaneous.value, row.minimumEffect;
      var leftMet := if floor == 0.0 then point.low > 0.0 else wide.low > floor;
      var rightMet := if floor == 0.0 then point.high < 0.0 else wide.high < -floor;
      var significant := row.pHolm.value < alpha;
      if significant && leftMet then row.(thresholdMet := Some(true), verdict := LeftBetter)
      else if significant && rightMet then row.(thresholdMet := Some(true), verdict := RightBetter)
      else if significant && point.low > 0.0 then row.(thresholdMet := Some(false), verdict := LeftSmallEffect)
      else if significant && point.high < 0.0 then row.(thresholdMet := Some(false), verdict := RightSmallEffect)
      else row.(thresholdMet := Some(false), verdict := Inconclusive)
  }

  /** Every row that is not insufficient carries what the verdict reads. */
  ghost predicate Complete(rows: seq<Row>) {
    forall i :: 0 <= i < |rows| && rows[i].verdict != Insufficient ==>
      rows[i].pHolm.Some? && rows[i].interval95.Some? && rows[i].simultaneous.Some?
  }

  function JudgeAll(rows: seq<Row>, alpha: real): (r: seq<Row>)
    requires Complete(rows)
    ensures |r| == |rows| && forall i :: 0 <= i < |r| ==> r[i] == Judge(rows[i], alpha)
  {
    seq(|rows|, i requires 0 <= i < |rows| => Judge(rows[i], alpha))
  }

  method JudgeLoop(rows: array<Row>, alpha: real)
    requires Complete(rows[..])
    modifies rows
    ensures rows[..] == JudgeAll(old(rows[..]), alpha)
  {
    ghost var was := rows[..];
    for i := 0 to rows.Length
      invariant forall k :: i <= k < rows.Length ==> rows[k] == was[k]
      invariant forall k :: 0 <= k < i ==> rows[k] == JudgeAll(was, alpha)[k]
    {
      rows[i] := Judge(rows[i], alpha);
    }
  }

  datatype Side = Left | Right | Neither

  function SideOf(verdict: Verdict): Side {
    match verdict
    case LeftBetter | LeftSmallEffect => Left
    case RightBetter | RightSmallEffect => Right
    case _ => Neither
  }

  ghost predicate Judgeable(row: Row) {
    && row.verdict != Insufficient && row.pHolm.Some? && row.interval95.Some? && row.simultaneous.Some?
    && row.minimumEffect >= 0.0
    && row.simultaneous.value.low <= row.interval95.value.low
    && row.interval95.value.low <= row.interval95.value.high
    && row.interval95.value.high <= row.simultaneous.value.high
  }

  /**
    The practical floor decides only how strong a direction is called: the side is that of
    the pointwise interval for every floor, and a decisive verdict survives any lower floor.
   */
  lemma FloorOnlyDemotes(row: Row, floor: real, alpha: real)
    requires Judgeable(row) && floor >= row.minimumEffect
    ensures
      var lower, higher := Judge(row, alpha).verdict, Judge(row.(minimumEffect := floor), alpha).verdict;
      && SideOf(higher) == SideOf(lower)
      && (higher == LeftBetter ==> lower == LeftBetter)
      && (higher == RightBetter ==> lower == RightBetter)
      && (higher == lower || (lower == LeftBetter && higher == LeftSmallEffect)
                          || (lower == RightBetter && higher == RightSmallEffect))
  {
  }

  /** The side of a verdict, without reference to the floor. */
  lemma SideFromPointwise(row: Row, alpha: real)
    requires Judgeable(row)
    ensures SideOf(Judge(row, alpha).verdict) == Left <==>
      row.pHolm.value < alpha && row.interval95.value.low > 0.0
    ensures SideOf(Judge(row, alpha).verdict) == Right <==>
      row.pHolm.value < alpha && row.interval95.value.high < 0.0
  {
  }

  /** A larger adjusted p-value can only withdraw a verdict. */
  lemma LargerPWithdraws(row: Row, p: real, alpha: real)
    requires Judgeable(row) && row.pHolm.value <= p
    ensures
      var before, after := Judge(row, alpha).verdict, Judge(row.(pHolm := Some(p)), alpha).verdict;
      after == before || after == Inconclusive
  {
  }

  // ----- the whole comparison -----

  datatype Status =
    | InsufficientEvidence
    | LeftDirectional
    | RightDirectional
    | MixedDirectional
    | StatisticalOnly
    | ResolutionLimited
    | NothingDecisive

  predicate Tested(q: Question, s: Settings) {
    |q.effects| >= s.minimumPairs
  }

  /** Tested questions among the first n. */
  function TestedCount(questions: seq<Question>, n: nat, s: Settings): nat
    requires n <= |questions|
  {
    if n == 0 then 0 else TestedCount(questions, n - 1, s) + (if Tested(questions[n - 1], s) then 1 else 0)
  }

  /** A question whose samplers produced at least one draw. */
  ghost predicate Drawn(questions: seq<Question>) {
    forall i :: 0 <= i < |questions| ==> questions[i].draws != [] && questions[i].minimumEffect >= 0.0
  }

  predicate Limited(effects: seq<real>, family: nat, s: Settings) {
    !Sufficient(Beyond(effects, Cut(|effects|, s.tolerance)), family, s.alpha)
  }

  function Prepare(q: Question, family: nat, s: Settings): Row
    requires q.draws != [] && s.minimumPairs >= 1 && (Tested(q, s) ==> family > 0)
  {
    var blank := Row(q.objective, q.minimumEffect, None, None, None, None, None, None, Insufficient);
    if !Tested(q, s) then blank
    else
      var intervals := PairedIntervals(q.draws, family, s.alpha);
      blank.(
        interval95 := Some(intervals.0), simultaneous := Some(intervals.1),
        limited := Some(Limited(q.effects, family, s)),
        pRaw := Some(PValue(q.effects, s.exactLimit, s.tolerance, q.masks)),
        verdict := Pending)
  }

  lemma {:induction false} TestedMember(questions: seq<Question>, i: nat, n: nat, s: Settings)
    requires i < n <= |questions| && Tested(questions[i], s)
    ensures TestedCount(questions, n, s) > 0
    decreases n
  {
    if i < n - 1 { TestedMember(questions, i, n - 1, s); }
  }

  /** The family is large enough for the questions that are tested. */
  ghost predicate Askable(questions: seq<Question>, family: nat, s: Settings) {
    && s.Valid() && Drawn(questions) && DistinctQuestions(questions)
    && TestedCount(questions, |questions|, s) <= family
  }

  function PrepareAll(questions: seq<Question>, family: nat, s: Settings): (r: seq<Row>)
    requires Askable(questions, family, s)
    ensures |r| == |questions|
    ensures forall i :: 0 <= i < |r| ==>
      (Tested(questions[i], s) ==> family > 0) && r[i] == Prepare(questions[i], family, s)
  {
    assert forall i :: 0 <= i < |questions| && Tested(questions[i], s) ==> family > 0 by {
      forall i | 0 <= i < |questions| && Tested(questions[i], s) ensures family > 0 {
        TestedMember(questions, i, |questions|, s);
      }
    }
    seq(|questions|, i requires 0 <= i < |questions| => Prepare(questions[i], family, s))
  }

  lemma PreparedRows(questions: seq<Question>, family: nat, s: Settings)
    requires Askable(questions, family, s)
    ensures
      var rows := PrepareAll(questions, family, s);
      && DistinctObjectives(rows) && ValidPValues(rows)
      && |Order(rows)| == TestedCount(questions, |questions|, s)
  {
    var rows := PrepareAll(questions, family, s);
    forall i | 0 <= i < |rows| && rows[i].pRaw.Some? ensures 0.0 <= rows[i].pRaw.value <= 1.0 {
      var q := questions[i];
      PValueRange(q.effects, s.exactLimit, s.tolerance, q.masks);
    }
    OrderCounts(questions, rows, |rows|, s);
  }

  lemma {:induction false} OrderCounts(questions: seq<Question>, rows: seq<Row>, n: nat, s: Settings)
    requires n <= |rows| == |questions|
    requires forall i :: 0 <= i < |rows| ==> (rows[i].pRaw.Some? <==> Tested(questions[i], s))
    ensures |Entries(rows, n)| == TestedCount(questions, n, s)
  {
    if n > 0 {
      OrderCounts(questions, rows, n - 1, s);
    }
  }

  function Conclude(questions: seq<Question>, family: nat, s: Settings): (r: seq<Row>)
    requires Askable(questions, family, s)
    ensures |r| == |questions|
  {
    JudgeAll(WithHolm(PrepareAll(questions, family, s), family), s.alpha)
  }

  function CountLimited(rows: seq<Row>, n: nat): nat
    requires n <= |rows|
  {
    if n == 0 then 0 else CountLimited(rows, n - 1) + (if rows[n - 1].limited == Some(true) then 1 else 0)
  }

  predicate Has(rows: seq<Row>, verdict: Verdict) {
    exists i :: 0 <= i < |rows| && rows[i].verdict == verdict
  }

  function StatusOf(rows: seq<Row>, tested: nat): Status {
    var left, right := Has(rows, LeftBetter), Has(rows, RightBetter);
    if tested == 0 then InsufficientEvidence
    else if left && !right then LeftDirectional
    else if right && !left then RightDirectional
    else if left && right then MixedDirectional
    else if Has(rows, LeftSmallEffect) || Has(rows, RightSmallEffect) then StatisticalOnly
    else if CountLimited(rows, |rows|) == tested then ResolutionLimited
    else NothingDecisive
  }

  predicate DistinctQuestions(questions: seq<Question>) {
    forall i, j :: 0 <= i < j < |questions| ==> questions[i].objective != questions[j].objective
  }

  /** A declared family is used as given; otherwise the family is what is tested. */
  function FamilyOf(questions: seq<Question>, declared: Option<nat>, s: Settings): nat {
    if declared.Some? then declared.value else TestedCount(questions, |questions|, s)
  }

  predicate Accepted(questions: seq<Question>, declared: Option<nat>, s: Settings) {
    && DistinctQuestions(questions)
    && (declared.Some? ==> |questions| <= declared.value <= s.maximumFamily)
  }

  lemma {:induction false} TestedAtMost(questions: seq<Question>, n: nat, s: Settings)
    requires n <= |questions|
    ensures TestedCount(questions, n, s) <= n
  {
    if n > 0 { TestedAtMost(questions, n - 1, s); }
  }

  datatype Report = Report(rows: seq<Row>, family: nat, tested: nat, limited: nat, status: Status)

  method Compare(questions: seq<Question>, declared: Option<nat>, s: Settings) returns (report: Option<Report>)
    requires s.Valid() && Drawn(questions)
    ensures report.Some? <==> Accepted(questions, declared, s)
    ensures report.Some? ==>
      var family := FamilyOf(questions, declared, s);
      && Askable(questions, family, s)
      && var rows := Conclude(questions, family, s);
      && var tested := TestedCount(questions, |questions|, s);
      report.value == Report(rows, family, tested, CountLimited(rows, |rows|), StatusOf(rows, tested))
  {
    if !DistinctQuestions(questions)
       || (declared.Some? && !(|questions| <= declared.value <= s.maximumFamily)) {
      return None;
    }
    TestedAtMost(questions, |questions|, s);
    var tested := TestedCount(questions, |questions|, s);
    var family := FamilyOf(questions, declared, s);
    var rows := PrepareLoop(questions, family, s);
    PreparedRows(questions, family, s);
    var corrected := HolmAdjust(rows, family);
    assert corrected;
    JudgeLoop(rows, s.alpha);
    report := Some(Report(rows[..], family, tested, CountLimited(rows[..], rows.Length), StatusOf(rows[..], tested)));
  }

  lemma Preparable(questions: seq<Question>, family: nat, s: Settings, i: nat)
    requires Askable(questions, family, s) && i < |questions|
    ensures s.Valid() && questions[i].draws != [] && (Tested(questions[i], s) ==> family > 0)
    ensures PrepareAll(questions, family, s)[i] == Prepare(questions[i], family, s)
  {
    if Tested(questions[i], s) { TestedMember(questions, i, |questions|, s); }
  }

  method PrepareLoop(questions: seq<Question>, family: nat, s: Settings) returns (rows: array<Row>)
    requires Askable(questions, family, s)
    ensures fresh(rows) && rows[..] == PrepareAll(questions, family, s)
  {
    rows := new Row[|questions|](_ => Row(0, 0.0, None, None, None, None, None, None, Insufficient));
    for i := 0 to |questions|
      invariant forall k :: 0 <= k < i ==> rows[k] == PrepareAll(questions, family, s)[k]
    {
      Preparable(questions, family, s, i);
      rows[i] := PrepareRow(questions[i], family, s);
    }
    assert rows[..] == PrepareAll(questions, family, s);
  }

  method PrepareRow(q: Question, family: nat, s: Settings) returns (row: Row)
    requires s.Valid() && q.draws != [] && (Tested(q, s) ==> family > 0)
    ensures row == Prepare(q, family, s)
  {
    row := Row(q.objective, q.minimumEffect, None, None, None, None, None, None, Insufficient);
    if |q.effects| >= s.minimumPairs {
      var intervals := PairedIntervals(q.draws, family, s.alpha);
      var audit := InferenceResolution(q.effects, family, s.tolerance, s.alpha);
      var test := SignFlipTest(q.effects, s.exactLimit, s.tolerance, q.masks);
      row := row.(interval95 := Some(intervals.0), simultaneous := Some(intervals.1),
                  limited := Some(audit.limited), pRaw := Some(test.pValue), verdict := Pending);
    }
  }

  // ----- what a concluded row is -----

  /** A tested row of the result, spelled out. */
  lemma ConcludedRow(questions: seq<Question>, family: nat, s: Settings, i: nat)
    requires Askable(questions, family, s) && i < |questions|
    ensures !Tested(questions[i], s) ==> Conclude(questions, family, s)[i].verdict == Insufficient
    ensures Tested(questions[i], s) ==>
      && family > 0
      && var rows := PrepareAll(questions, family, s);
      && var before := rows[i].(pHolm := Some(HolmOf(rows, family, i)));
      Judgeable(before) && Conclude(questions, family, s)[i] == Judge(before, s.alpha)
  {
    if Tested(questions[i], s) {
      assert PrepareAll(questions, family, s)[i] == Prepare(questions[i], family, s);
      SimultaneousContainsPointwise(questions[i].draws, family, s.alpha);
    }
  }

  // ----- subset queries -----

  /**
    Asking a subset of the objectives under the same declared family never produces a
    claim that the full query does not make.
   */
  lemma SubsetQueryMakesNoNewClaim(part: seq<Question>, whole: seq<Question>, family: nat, s: Settings, i: nat, j: nat)
    requires Askable(part, family, s) && Askable(whole, family, s)
    requires forall a :: 0 <= a < |part| ==> part[a] in whole
    requires i < |part| && j < |whole| && part[i] == whole[j]
    ensures
      var few, many := Conclude(part, family, s)[i].verdict, Conclude(whole, family, s)[j].verdict;
      few == many || few == Inconclusive
  {
    ConcludedRow(part, family, s, i);
    ConcludedRow(whole, family, s, j);
    if Tested(part[i], s) {
      var few, many := PrepareAll(part, family, s), PrepareAll(whole, family, s);
      PreparedRows(part, family, s);
      PreparedRows(whole, family, s);
      forall a | 0 <= a < |few| && few[a].pRaw.Some? ensures Answered(many, few[a]) {
        var b :| 0 <= b < |whole| && whole[b] == part[a];
        assert many[b] == few[a];
      }
      SubsetSafe(few, many, family, i, j);
      LargerPWithdraws(many[j].(pHolm := Some(HolmOf(many, family, j))), HolmOf(few, family, i), s.alpha);
    }
  }

  // ----- practical floors -----

  ghost predicate SameButFloors(lower: seq<Question>, higher: seq<Question>) {
    && |lower| == |higher|
    && (forall i :: 0 <= i < |lower| ==>
          && lower[i].minimumEffect <= higher[i].minimumEffect
          && higher[i] == lower[i].(minimumEffect := higher[i].minimumEffect))
  }

  ghost predicate SameKeys(a: seq<Row>, b: seq<Row>) {
    |a| == |b| && forall i :: 0 <= i < |a| ==> a[i].objective == b[i].objective && a[i].pRaw == b[i].pRaw
  }

  lemma {:induction false} SameEntries(a: seq<Row>, b: seq<Row>, n: nat)
    requires n <= |a| && SameKeys(a, b)
    ensures Entries(a, n) == Entries(b, n)
  {
    if n > 0 {
      SameEntries(a, b, n - 1);
    }
  }

  lemma SameHolm(a: seq<Row>, b: seq<Row>, family: int, i: nat)
    requires SameKeys(a, b) && i < |a| && a[i].pRaw.Some?
    ensures HolmOf(a, family, i) == HolmOf(b, family, i)
  {
    SameEntries(a, b, |a|);
  }

  /** Raising practical floors anywhere in a query keeps every side and only demotes. */
  lemma RaisingFloorsOnlyDemotes(lower: seq<Question>, higher: seq<Question>, family: nat, s: Settings, i: nat)
    requires Askable(lower, family, s) && Askable(higher, family, s) && SameButFloors(lower, higher) && i < |lower|
    ensures
      var low, high := Conclude(lower, family, s)[i].verdict, Conclude(higher, family, s)[i].verdict;
      && SideOf(high) == SideOf(low)
      && (high == low || (low == LeftBetter && high == LeftSmallEffect)
                      || (low == RightBetter && high == RightSmallEffect))
  {
    ConcludedRow(lower, family, s, i);
    ConcludedRow(higher, family, s, i);
    if Tested(lower[i], s) {
      var a, b := PrepareAll(lower, family, s), PrepareAll(higher, family, s);
      SameHolm(a, b, family, i);
      FloorOnlyDemotes(a[i].(pHolm := Some(HolmOf(a, family, i))), higher[i].minimumEffect, s.alpha);
    }
  }

  // ----- the resolution limit -----

  /** The exact branch is taken and the effects the audit ignores leave its floor valid. */
  ghost predicate Resolvable(q: Question, s: Settings) {
    Pow2(|q.effects|) <= s.exactLimit && TinyEffects.FloorSafe(q.effects, Cut(|q.effects|, s.tolerance))
  }

  ghost predicate AllLimited(questions: seq<Question>, family: nat, s: Settings) {
    forall i :: 0 <= i < |questions| && Tested(questions[i], s) ==>
      Resolvable(questions[i], s) && Limited(questions[i].effects, family, s)
  }

  /** Even the strictest multiplier leaves this p-value at or above alpha. */
  predicate Misses(p: real, family: int, alpha: real) {
    p * family as real >= alpha
  }

  lemma LimitedMissesAlpha(q: Question, family: nat, s: Settings)
    requires s.Valid() && family > 0 && Resolvable(q, s) && Limited(q.effects, family, s)
    ensures Misses(PValue(q.effects, s.exactLimit, s.tolerance, q.masks), family, s.alpha)
  {
    TinyEffects.SafeFloor(q.effects, s.tolerance);
    var pairs := Beyond(q.effects, Cut(|q.effects|, s.tolerance));
    var p := PValue(q.effects, s.exactLimit, s.tolerance, q.masks);
    assert p == Published(Share(q.effects, s.tolerance));
    FloorMisses(p, pairs, family, s.alpha);
  }

  lemma FloorMisses(p: real, pairs: nat, family: nat, alpha: real)
    requires p >= RawFloor(pairs) && !Sufficient(pairs, family, alpha)
    ensures Misses(p, family, alpha)
  {
    ProductOrder(RawFloor(pairs), p, family as real);
  }

  lemma FirstRankMisses(keys: seq<Key>, family: int, alpha: real, rank: nat)
    requires rank < |keys| && alpha <= 1.0 && Misses(keys[0].p, family, alpha)
    ensures Adjusted(keys, family, rank) >= alpha
  {
    assert Scaled(keys, family, 0) >= alpha;
    assert Adjusted(keys, family, 0) >= alpha;
    AdjustedNondecreasing(keys, family, 0, rank);
  }

  ghost predicate AllMiss(rows: seq<Row>, family: int, alpha: real) {
    forall k :: 0 <= k < |rows| && rows[k].pRaw.Some? ==> Misses(rows[k].pRaw.value, family, alpha)
  }

  /** When every tested p-value misses alpha at the strictest multiplier, Holm rejects nothing. */
  lemma NothingRejected(rows: seq<Row>, family: int, alpha: real, i: nat)
    requires alpha <= 1.0 && AllMiss(rows, family, alpha)
    requires i < |rows| && rows[i].pRaw.Some?
    ensures HolmOf(rows, family, i) >= alpha
  {
    var order, rank := Order(rows), RankOf(rows, i);
    EntriesAreRows(rows, |rows|);
    assert order[0] in order;
    FirstRankMisses(Keys(order), family, alpha, rank);
  }

  lemma AllPreparedMiss(questions: seq<Question>, family: nat, s: Settings)
    requires Askable(questions, family, s) && AllLimited(questions, family, s)
    ensures AllMiss(PrepareAll(questions, family, s), family, s.alpha)
  {
    var prepared := PrepareAll(questions, family, s);
    forall k | 0 <= k < |prepared| && prepared[k].pRaw.Some?
      ensures Misses(prepared[k].pRaw.value, family, s.alpha)
    {
      assert prepared[k] == Prepare(questions[k], family, s);
      LimitedMissesAlpha(questions[k], family, s);
    }
  }

  lemma {:induction false} LimitedCount(questions: seq<Question>, rows: seq<Row>, n: nat, s: Settings)
    requires n <= |rows| == |questions|
    requires forall i :: 0 <= i < |rows| ==> (rows[i].limited == Some(true) <==> Tested(questions[i], s))
    ensures CountLimited(rows, n) == TestedCount(questions, n, s)
  {
    if n > 0 { LimitedCount(questions, rows, n - 1, s); }
  }

  /**
    If every tested objective is at the discrete limit, Holm rejects nothing, every tested
    row is inconclusive and the whole comparison is reported as resolution-limited.
   */
  lemma LimitIsReported(questions: seq<Question>, family: nat, s: Settings)
    requires Askable(questions, family, s) && AllLimited(questions, family, s)
    requires TestedCount(questions, |questions|, s) > 0
    ensures
      var rows := Conclude(questions, family, s);
      && (forall i :: 0 <= i < |rows| ==> LimitedVerdict(rows[i], questions[i], s))
      && StatusOf(rows, TestedCount(questions, |questions|, s)) == ResolutionLimited
  {
    var rows := Conclude(questions, family, s);
    forall i | 0 <= i < |rows| ensures LimitedVerdict(rows[i], questions[i], s) {
      LimitedRow(questions, family, s, i);
    }
    StatusWhenLimited(questions, rows, s);
  }

  /** What a row looks like when nothing could have been rejected. */
  ghost predicate LimitedVerdict(row: Row, q: Question, s: Settings) {
    && row.verdict == (if Tested(q, s) then Inconclusive else Insufficient)
    && (Tested(q, s) ==> row.pHolm.Some? && row.pHolm.value >= s.alpha)
    && (row.limited == Some(true) <==> Tested(q, s))
  }

  lemma StatusWhenLimited(questions: seq<Question>, rows: seq<Row>, s: Settings)
    requires |rows| == |questions| && TestedCount(questions, |questions|, s) > 0
    requires forall i :: 0 <= i < |rows| ==> LimitedVerdict(rows[i], questions[i], s)
    ensures StatusOf(rows, TestedCount(questions, |questions|, s)) == ResolutionLimited
  {
    LimitedCount(questions, rows, |rows|, s);
  }

  lemma LimitedRow(questions: seq<Question>, family: nat, s: Settings, i: nat)
    requires Askable(questions, family, s) && AllLimited(questions, family, s) && i < |questions|
    ensures LimitedVerdict(Conclude(questions, family, s)[i], questions[i], s)
  {
    ConcludedRow(questions, family, s, i);
    assert PrepareAll(questions, family, s)[i] == Prepare(questions[i], family, s);
    if Tested(questions[i], s) {
      AllPreparedMiss(questions, family, s);
      NothingRejected(PrepareAll(questions, family, s), family, s.alpha, i);
    }
  }
}
