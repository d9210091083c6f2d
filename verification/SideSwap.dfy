/**
  Exchanging the two sides of a paired comparison. Both orders seed the sampler alike
  (src/llm_hardtest/paired_comparison.py:396-402), so effects and draws only change their signs. The promise is
  that p-values stay, intervals are negated and verdicts change sides (docs/PUBLIC_RESULTS.md:240-242).
 */
module SideSwap {
  import opened Numbers
  import opened Percentiles
  import opened ObjectiveRows
  import opened SignFlip
  import opened SampledMasks
  import opened Resolution
  import opened Holm
  import opened Comparison
  import opened Verdicts
  import opened OppositeDraws

  /** The same objective asked from the other side. */
  function Swapped(q: Question): Question {
    q.(effects := Negated(q.effects), draws := Negated(q.draws))
  }

  function SwappedAll(questions: seq<Question>): (r: seq<Question>)
    ensures |r| == |questions| && forall i :: 0 <= i < |r| ==> r[i] == Swapped(questions[i])
  {
    seq(|questions|, i requires 0 <= i < |questions| => Swapped(questions[i]))
  }

  function MirrorOf(x: Interval): Interval {
    Interval(-x.high, -x.low)
  }

  function MirrorVerdict(verdict: Verdict): Verdict {
    match verdict
    case LeftBetter => RightBetter
    case RightBetter => LeftBetter
    case LeftSmallEffect => RightSmallEffect
    case RightSmallEffect => LeftSmallEffect
    case _ => verdict
  }

  function MirrorStatus(status: Status): Status {
    match status
    case LeftDirectional => RightDirectional
    case RightDirectional => LeftDirectional
    case _ => status
  }

  /** A tested row read from the other side. */
  function MirrorRow(row: Row): Row {
    row.(interval95 := if row.interval95.Some? then Some(MirrorOf(row.interval95.value)) else None,
         simultaneous := if row.simultaneous.Some? then Some(MirrorOf(row.simultaneous.value)) else None,
         verdict := MirrorVerdict(row.verdict))
  }

  // ----- tests do not see the side -----

  lemma {:induction false} BeyondNegated(effects: seq<real>, cut: real)
    ensures Beyond(Negated(effects), cut) == Beyond(effects, cut)
    decreases |effects|
  {
    if effects != [] {
      BeyondNegated(effects[1..], cut);
      assert Negated(effects)[1..] == Negated(effects[1..]);
    }
  }

  lemma DrawHitsNegated(effects: seq<real>, bar: real, masks: seq<nat>)
    ensures DrawHits(Negated(effects), bar, masks) == DrawHits(effects, bar, masks)
  {
    DrawHitsAreExtremes(effects, bar, masks);
    DrawHitsAreExtremes(Negated(effects), bar, masks);
    forall i | 0 <= i < |masks|
      ensures Abs(Signed(Negated(effects), masks[i])) == Abs(Signed(effects, masks[i]))
    {
      SignedNegated(effects, masks[i]);
    }
    assert ExtremeDraws(Negated(effects), bar, masks) == ExtremeDraws(effects, bar, masks);
  }

  lemma BarNegated(effects: seq<real>, tolerance: real)
    ensures Bar(Negated(effects), tolerance) == Bar(effects, tolerance)
  {
    SumNegated(effects);
  }

  lemma PValueNegated(effects: seq<real>, limit: nat, tolerance: real, masks: seq<nat>)
    ensures PValue(Negated(effects), limit, tolerance, masks) == PValue(effects, limit, tolerance, masks)
  {
    BarNegated(effects, tolerance);
    AssignmentsNegated(effects, 0.0, Bar(effects, tolerance));
    DrawHitsNegated(effects, Bar(effects, tolerance), masks);
  }

  lemma TestsKeep(q: Question, family: nat, s: Settings)
    ensures Tested(Swapped(q), s) == Tested(q, s)
    ensures Limited(Negated(q.effects), family, s) == Limited(q.effects, family, s)
    ensures PValue(Negated(q.effects), s.exactLimit, s.tolerance, q.masks)
         == PValue(q.effects, s.exactLimit, s.tolerance, q.masks)
  {
    BeyondNegated(q.effects, Cut(|q.effects|, s.tolerance));
    PValueNegated(q.effects, s.exactLimit, s.tolerance, q.masks);
  }

  lemma {:induction false} SwappedCount(questions: seq<Question>, n: nat, s: Settings)
    requires n <= |questions|
    ensures TestedCount(SwappedAll(questions), n, s) == TestedCount(questions, n, s)
  {
    if n > 0 { SwappedCount(questions, n - 1, s); }
  }

  lemma SwappedAskable(questions: seq<Question>, family: nat, s: Settings)
    requires Askable(questions, family, s)
    ensures Askable(SwappedAll(questions), family, s)
    ensures TestedCount(SwappedAll(questions), |questions|, s) == TestedCount(questions, |questions|, s)
  {
    SwappedCount(questions, |questions|, s);
    forall i | 0 <= i < |questions| ensures SwappedAll(questions)[i].draws != [] {
      NegatedIsOpposite(questions[i].draws);
    }
  }

  /** The rows before judging, which differ in their intervals only. */
  lemma PreparedAlike(questions: seq<Question>, family: nat, s: Settings, i: nat)
    requires Askable(questions, family, s) && Askable(SwappedAll(questions), family, s) && i < |questions|
    ensures
      var here, there := PrepareAll(questions, family, s)[i], PrepareAll(SwappedAll(questions), family, s)[i];
      there == here.(interval95 := there.interval95, simultaneous := there.simultaneous)
  {
    TestsKeep(questions[i], family, s);
    assert PrepareAll(questions, family, s)[i] == Prepare(questions[i], family, s);
    assert PrepareAll(SwappedAll(questions), family, s)[i] == Prepare(Swapped(questions[i]), family, s);
  }

  lemma HolmAlike(questions: seq<Question>, family: nat, s: Settings, i: nat)
    requires Askable(questions, family, s) && Askable(SwappedAll(questions), family, s) && i < |questions|
    requires Tested(questions[i], s)
    ensures
      var here, there := PrepareAll(questions, family, s), PrepareAll(SwappedAll(questions), family, s);
      && here[i].pRaw.Some? && there[i].pRaw.Some?
      && HolmOf(there, family, i) == HolmOf(here, family, i)
  {
    var here, there := PrepareAll(questions, family, s), PrepareAll(SwappedAll(questions), family, s);
    forall k | 0 <= k < |questions| ensures here[k].objective == there[k].objective && here[k].pRaw == there[k].pRaw {
      PreparedAlike(questions, family, s, k);
    }
    assert here[i] == Prepare(questions[i], family, s);
    PreparedAlike(questions, family, s, i);
    SameHolm(here, there, family, i);
  }

  /** What a row says besides its intervals and its verdict. */
  ghost predicate SameTests(a: Row, b: Row) {
    && a.objective == b.objective && a.minimumEffect == b.minimumEffect
    && a.pRaw == b.pRaw && a.pHolm == b.pHolm && a.limited == b.limited
  }

  lemma JudgingKeepsTests(row: Row, alpha: real)
    requires Judgeable(row)
    ensures SameTests(Judge(row, alpha), row)
  {
  }

  /** Raw and adjusted p-values, discrete limits and floors of the whole query are those of the other side. */
  lemma SwapKeepsPValues(questions: seq<Question>, family: nat, s: Settings, i: nat)
    requires Askable(questions, family, s) && i < |questions|
    ensures Askable(SwappedAll(questions), family, s)
    ensures SameTests(Conclude(SwappedAll(questions), family, s)[i], Conclude(questions, family, s)[i])
  {
    SwappedAskable(questions, family, s);
    PreparedAlike(questions, family, s, i);
    if Tested(questions[i], s) {
      TestedKeeps(questions, family, s, i);
    }
  }

  lemma TestedKeeps(questions: seq<Question>, family: nat, s: Settings, i: nat)
    requires Askable(questions, family, s) && Askable(SwappedAll(questions), family, s) && i < |questions|
    requires Tested(questions[i], s)
    ensures SameTests(Conclude(SwappedAll(questions), family, s)[i], Conclude(questions, family, s)[i])
  {
    var here, there := PrepareAll(questions, family, s), PrepareAll(SwappedAll(questions), family, s);
    TestsKeep(questions[i], family, s);
    ConcludedRow(questions, family, s, i);
    ConcludedRow(SwappedAll(questions), family, s, i);
    PreparedAlike(questions, family, s, i);
    HolmAlike(questions, family, s, i);
    JudgingKeepsTests(here[i].(pHolm := Some(HolmOf(here, family, i))), s.alpha);
    JudgingKeepsTests(there[i].(pHolm := Some(HolmOf(there, family, i))), s.alpha);
  }

  // ----- intervals -----

  lemma RoundHalfEvenOdd(x: real)
    ensures RoundHalfEven(-x) == -RoundHalfEven(x)
  {
    var r, t := RoundHalfEven(x), RoundHalfEven(-x);
    TiesGoToEven(x);
    TiesGoToEven(-x);
    assert Abs((r + t) as real) <= 1.0;
  }

  lemma Round6Odd(x: real)
    ensures Round6(-x) == -Round6(x)
  {
    RoundHalfEvenOdd(x * 1000000.0);
    assert -x * 1000000.0 == -(x * 1000000.0);
  }

  /** One end of an interval and the opposite end after the swap, which is never above its negation. */
  lemma OppositeEnds(draws: seq<real>, p: real, q: real, v: real, w: real)
    requires q == 1.0 - p && NearestRank(draws, q, v) && NearestRank(Negated(draws), p, w)
    ensures Round6(w) <= -Round6(v) && Round6(w) == -Round6(-w)
    ensures Steady(draws, q) <==> Round6(v) == Round6(-w)
  {
    NegatesExactly(draws, p, q, v, w);
    NegatedIsNext(draws, p, q, w);
    Round6Monotone(w, -v);
    Round6Odd(v);
    Round6Odd(w);
    SteadyIs(draws, q, v, -w);
  }

  /** After the swap an interval has moved down from its mirror image, or stayed. */
  predicate MovedDown(mirror: Interval, x: Interval) {
    x.low <= mirror.low && x.high <= mirror.high
  }

  /** The draw at this rank and the one after it agree to six places. */
  ghost predicate Steady(draws: seq<real>, p: real) {
    forall v, w :: NearestRank(draws, p, v) && NextRank(draws, p, w) ==> Round6(v) == Round6(w)
  }

  lemma SteadyIs(draws: seq<real>, p: real, v: real, w: real)
    requires NearestRank(draws, p, v) && NextRank(draws, p, w)
    ensures Steady(draws, p) <==> Round6(v) == Round6(w)
  {
    if Round6(v) == Round6(w) {
      forall x, y | NearestRank(draws, p, x) && NextRank(draws, p, y) ensures Round6(x) == Round6(y) {
        NearestOnce(draws, p, x, v);
        NextOnce(draws, p, y, w);
      }
    }
  }

  /** An interval, and the one that takes its place after the swap. */
  ghost predicate MovesTo(here: Interval, there: Interval, steady: bool) {
    MovedDown(MirrorOf(here), there) && (steady <==> there == MirrorOf(here))
  }

  lemma SwappedEnds(draws: seq<real>, tail: real, rest: real, here: Interval, there: Interval)
    requires rest == 1.0 - tail && EndsAt(here, draws, tail, rest) && EndsAt(there, Negated(draws), tail, rest)
    ensures MovesTo(here, there, Steady(draws, tail) && Steady(draws, rest))
  {
    var low, high :| NearestRank(draws, tail, low) && NearestRank(draws, rest, high)
                     && here == Interval(Round6(low), Round6(high));
    var low', high' :| NearestRank(Negated(draws), tail, low') && NearestRank(Negated(draws), rest, high')
                       && there == Interval(Round6(low'), Round6(high'));
    OppositeEnds(draws, tail, rest, high, low');
    OppositeEnds(draws, rest, tail, low, high');
    EndsMove(here, there, Round6(-high'), Round6(-low'), Steady(draws, tail), Steady(draws, rest));
  }

  lemma EndsMove(here: Interval, there: Interval, afterLow: real, afterHigh: real, low: bool, high: bool)
    requires there.low <= -here.high && there.low == -afterHigh && (high <==> here.high == afterHigh)
    requires there.high <= -here.low && there.high == -afterLow && (low <==> here.low == afterLow)
    ensures MovesTo(here, there, low && high)
  {
  }

  /** At all four ranks that end an interval the next draw is the same to six places. */
  ghost predicate AllSteady(draws: seq<real>, tail: real) {
    Steady(draws, 0.025) && Steady(draws, 0.975) && Steady(draws, tail) && Steady(draws, 1.0 - tail)
  }

  // ----- verdicts -----

  lemma JudgeMirrors(row: Row, alpha: real)
    requires Judgeable(row)
    ensures Judgeable(MirrorRow(row)) && Judge(MirrorRow(row), alpha) == MirrorRow(Judge(row, alpha))
  {
  }

  /** The swapped row has the same tests, and intervals at or below the mirror images. */
  ghost predicate Shifted(here: Row, there: Row) {
    && Judgeable(here) && Judgeable(there) && SameTests(here, there)
    && MovedDown(MirrorOf(here.interval95.value), there.interval95.value)
    && MovedDown(MirrorOf(here.simultaneous.value), there.simultaneous.value)
  }

  /** A verdict for the left is kept as one for the right, and a verdict for the left after the swap was one for
      the right before. */
  ghost predicate LeftKept(before: Verdict, after: Verdict) {
    && (SideOf(before) == Left ==> SideOf(after) == Right)
    && (before == LeftBetter ==> after == RightBetter)
    && (SideOf(after) == Left ==> SideOf(before) == Right)
    && (after == LeftBetter ==> before == RightBetter)
  }

  lemma JudgeShifted(here: Row, there: Row, alpha: real)
    requires Shifted(here, there)
    ensures LeftKept(Judge(here, alpha).verdict, Judge(there, alpha).verdict)
  {
    SideFromPointwise(here, alpha);
    SideFromPointwise(there, alpha);
    VerdictMeans(here, alpha);
    VerdictMeans(there, alpha);
  }

  /** The rows as they are judged, before and after the swap. */
  lemma JudgedRows(questions: seq<Question>, family: nat, s: Settings, i: nat, tail: real)
    returns (here: Row, there: Row)
    requires Askable(questions, family, s) && Askable(SwappedAll(questions), family, s) && i < |questions|
    requires Tested(questions[i], s) && family > 0 && tail == WideTail(family, s.alpha)
    ensures Shifted(here, there) && (AllSteady(questions[i].draws, tail) <==> there == MirrorRow(here))
    ensures here.verdict == there.verdict == Pending && here.thresholdMet == there.thresholdMet
    ensures Conclude(questions, family, s)[i] == Judge(here, s.alpha)
    ensures Conclude(SwappedAll(questions), family, s)[i] == Judge(there, s.alpha)
  {
    SwapKeepsPValues(questions, family, s, i);
    TestsKeep(questions[i], family, s);
    here := JudgedAs(questions, family, s, i, tail);
    there := JudgedAs(SwappedAll(questions), family, s, i, tail);
    JudgingKeepsTests(here, s.alpha);
    JudgingKeepsTests(there, s.alpha);
    RowsShift(questions[i], family, s, tail, here, there);
  }

  lemma RowsShift(q: Question, family: nat, s: Settings, tail: real, here: Row, there: Row)
    requires PendingRow(here, q, family, s, tail) && PendingRow(there, Swapped(q), family, s, tail)
    requires SameTests(here, there)
    ensures Shifted(here, there) && (AllSteady(q.draws, tail) <==> there == MirrorRow(here))
  {
    SwappedEnds(q.draws, 0.025, 0.975, here.interval95.value, there.interval95.value);
    SwappedEnds(q.draws, tail, 1.0 - tail, here.simultaneous.value, there.simultaneous.value);
  }

  /** Whatever was drawn: the swap keeps every claim for the left, on the right. */
  lemma LeftClaimsSurviveTheSwap(questions: seq<Question>, family: nat, s: Settings, i: nat)
    requires Askable(questions, family, s) && i < |questions|
    ensures Askable(SwappedAll(questions), family, s)
    ensures LeftKept(Conclude(questions, family, s)[i].verdict, Conclude(SwappedAll(questions), family, s)[i].verdict)
  {
    SwappedAskable(questions, family, s);
    if Tested(questions[i], s) {
      WidePositive(questions, family, s, i);
      var here, there := JudgedRows(questions, family, s, i, WideTail(family, s.alpha));
      JudgeShifted(here, there, s.alpha);
    } else {
      TestsKeep(questions[i], family, s);
      ConcludedRow(questions, family, s, i);
      ConcludedRow(SwappedAll(questions), family, s, i);
    }
  }

  // ----- the whole comparison -----

  ghost predicate EveryTestedSteady(questions: seq<Question>, s: Settings, tail: real) {
    forall i :: 0 <= i < |questions| && Tested(questions[i], s) ==> AllSteady(questions[i].draws, tail)
  }

  ghost predicate Mirrored(rows: seq<Row>, swapped: seq<Row>) {
    |swapped| == |rows| && forall i :: 0 <= i < |rows| ==> swapped[i] == MirrorRow(rows[i])
  }

  lemma MirroredRow(questions: seq<Question>, family: nat, s: Settings, i: nat, tail: real)
    requires Askable(questions, family, s) && Askable(SwappedAll(questions), family, s) && i < |questions|
    requires Tested(questions[i], s) ==> family > 0 && tail == WideTail(family, s.alpha)
    ensures (Tested(questions[i], s) ==> AllSteady(questions[i].draws, tail))
       <==> Conclude(SwappedAll(questions), family, s)[i] == MirrorRow(Conclude(questions, family, s)[i])
  {
    if Tested(questions[i], s) {
      var here, there := JudgedRows(questions, family, s, i, tail);
      JudgeMirrors(here, s.alpha);
      JudgingMirrored(here, there, s.alpha);
    } else {
      TestsKeep(questions[i], family, s);
      assert PrepareAll(questions, family, s)[i] == Prepare(questions[i], family, s);
      assert PrepareAll(SwappedAll(questions), family, s)[i] == Prepare(Swapped(questions[i]), family, s);
    }
  }

  /** Judging keeps the intervals, so mirrored results come from mirrored rows. */
  lemma JudgingMirrored(here: Row, there: Row, alpha: real)
    requires Shifted(here, there) && here.verdict == there.verdict == Pending && here.thresholdMet == there.thresholdMet
    ensures Judge(there, alpha) == MirrorRow(Judge(here, alpha)) <==> there == MirrorRow(here)
  {
    JudgeMirrors(here, alpha);
    VerdictMeans(here, alpha);
    VerdictMeans(there, alpha);
  }

  lemma HasMirrored(rows: seq<Row>, swapped: seq<Row>, verdict: Verdict)
    requires Mirrored(rows, swapped)
    ensures Has(swapped, MirrorVerdict(verdict)) <==> Has(rows, verdict)
  {
    if Has(rows, verdict) {
      var i :| 0 <= i < |rows| && rows[i].verdict == verdict;
      assert swapped[i].verdict == MirrorVerdict(verdict);
    }
    if Has(swapped, MirrorVerdict(verdict)) {
      var i :| 0 <= i < |rows| && swapped[i].verdict == MirrorVerdict(verdict);
      assert rows[i].verdict == verdict;
    }
  }

  lemma {:induction false} SameLimits(rows: seq<Row>, swapped: seq<Row>, n: nat)
    requires Mirrored(rows, swapped) && n <= |rows|
    ensures CountLimited(swapped, n) == CountLimited(rows, n)
  {
    if n > 0 { SameLimits(rows, swapped, n - 1); }
  }

  lemma StatusMirrors(rows: seq<Row>, swapped: seq<Row>, tested: nat)
    requires Mirrored(rows, swapped)
    ensures StatusOf(swapped, tested) == MirrorStatus(StatusOf(rows, tested))
  {
    HasMirrored(rows, swapped, LeftBetter);
    HasMirrored(rows, swapped, RightBetter);
    HasMirrored(rows, swapped, LeftSmallEffect);
    HasMirrored(rows, swapped, RightSmallEffect);
    SameLimits(rows, swapped, |rows|);
  }

  /** The swap negates every interval and moves every verdict to the other side if and only if, at the ends of
      all intervals, the next draw is the same to six places; and then the status changes sides too. */
  lemma SwapMirrorsExactly(questions: seq<Question>, family: nat, s: Settings, tail: real)
    requires Askable(questions, family, s) && (family > 0 ==> tail == WideTail(family, s.alpha))
    ensures Askable(SwappedAll(questions), family, s)
    ensures
      var rows, swapped := Conclude(questions, family, s), Conclude(SwappedAll(questions), family, s);
      var tested := TestedCount(questions, |questions|, s);
      && (Mirrored(rows, swapped) <==> EveryTestedSteady(questions, s, tail))
      && TestedCount(SwappedAll(questions), |questions|, s) == tested
      && (Mirrored(rows, swapped) ==> StatusOf(swapped, tested) == MirrorStatus(StatusOf(rows, tested)))
  {
    SwappedAskable(questions, family, s);
    var rows, swapped := Conclude(questions, family, s), Conclude(SwappedAll(questions), family, s);
    forall i | 0 <= i < |questions|
      ensures (Tested(questions[i], s) ==> AllSteady(questions[i].draws, tail)) <==> swapped[i] == MirrorRow(rows[i])
    {
      if Tested(questions[i], s) { WidePositive(questions, family, s, i); }
      MirroredRow(questions, family, s, i, tail);
    }
    if Mirrored(rows, swapped) {
      StatusMirrors(rows, swapped, TestedCount(questions, |questions|, s));
    }
  }
}
