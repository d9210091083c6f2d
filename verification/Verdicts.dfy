/**
  What the reported intervals, verdicts and status of a paired comparison mean
  (src/llm_hardtest/paired_comparison.py:171-194, 415-473).
 */
module Verdicts {
  import opened Numbers
  import opened Percentiles
  import opened ObjectiveRows
  import opened SignFlip
  import opened Holm
  import opened Comparison

  // ----- intervals -----

  lemma TailsAreShares(alpha: real, family: nat)
    requires family > 0 && 0.0 < alpha <= 2.0 * POINTWISE_TAIL
    ensures 0.0 < alpha / (2 * family) as real < 1.0
  {
    TailShrinks(alpha, family);
  }

  /** The share of draws below a simultaneous interval: alpha over both sides of every objective. */
  function WideTail(family: nat, alpha: real): real
    requires family > 0
  {
    alpha / (2 * family) as real
  }

  /** An interval whose ends are draws at these ranks, rounded to six places. */
  ghost predicate EndsAt(shown: Interval, draws: seq<real>, low: real, high: real) {
    exists x, y :: NearestRank(draws, low, x) && NearestRank(draws, high, y) && shown == Interval(Round6(x), Round6(y))
  }

  lemma TailEnds(draws: seq<real>, tail: real)
    requires draws != [] && 0.0 < tail < 1.0
    ensures EndsAt(TailInterval(draws, tail), draws, tail, 1.0 - tail)
  {
    PercentileIsNearestRank(draws, tail, Percentile(draws, tail));
    PercentileIsNearestRank(draws, 1.0 - tail, Percentile(draws, 1.0 - tail));
  }

  ghost predicate ShowsEnds(row: Row, draws: seq<real>, tail: real) {
    && row.interval95.Some? && EndsAt(row.interval95.value, draws, 0.025, 0.975)
    && row.simultaneous.Some? && EndsAt(row.simultaneous.value, draws, tail, 1.0 - tail)
  }

  lemma PreparedEnds(q: Question, family: nat, s: Settings, tail: real)
    requires s.Valid() && q.draws != [] && Tested(q, s) && family > 0 && tail == WideTail(family, s.alpha)
    ensures ShowsEnds(Prepare(q, family, s), q.draws, tail)
  {
    TailsAreShares(s.alpha, family);
    TailEnds(q.draws, 0.025);
    TailEnds(q.draws, tail);
  }

  lemma JudgingKeepsEnds(row: Row, alpha: real, draws: seq<real>, tail: real)
    requires Judgeable(row) && ShowsEnds(row, draws, tail)
    ensures ShowsEnds(Judge(row, alpha), draws, tail)
  {
    assert Judge(row, alpha).interval95 == row.interval95 && Judge(row, alpha).simultaneous == row.simultaneous;
  }

  /** The ends of both intervals of a tested objective are draws of nearest rank: at the pointwise tails, and at
      the tails that share alpha among the two sides of the whole family. */
  lemma ReportedIntervals(questions: seq<Question>, family: nat, s: Settings, i: nat, tail: real)
    requires Askable(questions, family, s) && i < |questions| && Tested(questions[i], s)
    requires tail * (2 * family) as real == s.alpha
    ensures ShowsEnds(Conclude(questions, family, s)[i], questions[i].draws, tail)
  {
    WidePositive(questions, family, s, i);
    TailIs(family, s.alpha, tail);
    var row := JudgedAs(questions, family, s, i, tail);
    JudgingKeepsEnds(row, s.alpha, questions[i].draws, tail);
  }

  lemma WidePositive(questions: seq<Question>, family: nat, s: Settings, i: nat)
    requires Askable(questions, family, s) && i < |questions| && Tested(questions[i], s)
    ensures family > 0
  {
    ConcludedRow(questions, family, s, i);
  }

  lemma TailIs(family: nat, alpha: real, tail: real)
    requires family > 0 && tail * (2 * family) as real == alpha
    ensures tail == WideTail(family, alpha)
  {
    DivideProduct((2 * family) as real, tail, alpha);
  }

  lemma SameEnds(a: Row, b: Row, draws: seq<real>, tail: real)
    requires ShowsEnds(a, draws, tail) && a.interval95 == b.interval95 && a.simultaneous == b.simultaneous
    ensures ShowsEnds(b, draws, tail)
  {
  }

  /** A tested row as it is judged. */
  ghost predicate PendingRow(row: Row, q: Question, family: nat, s: Settings, tail: real) {
    && Judgeable(row) && ShowsEnds(row, q.draws, tail)
    && row.objective == q.objective && row.minimumEffect == q.minimumEffect
    && row.limited == Some(Limited(q.effects, family, s))
    && row.pRaw == Some(PValue(q.effects, s.exactLimit, s.tolerance, q.masks))
    && row.thresholdMet == None && row.verdict == Pending
  }

  lemma JudgedAs(questions: seq<Question>, family: nat, s: Settings, i: nat, tail: real) returns (row: Row)
    requires Askable(questions, family, s) && i < |questions| && Tested(questions[i], s)
    requires family > 0 && tail == WideTail(family, s.alpha)
    ensures PendingRow(row, questions[i], family, s, tail)
    ensures Conclude(questions, family, s)[i] == Judge(row, s.alpha)
  {
    ConcludedRow(questions, family, s, i);
    var rows := PrepareAll(questions, family, s);
    assert rows[i] == Prepare(questions[i], family, s);
    row := rows[i].(pHolm := Some(HolmOf(rows, family, i)));
    PreparedEnds(questions[i], family, s, tail);
    SameEnds(rows[i], row, questions[i].draws, tail);
  }

  // ----- verdicts -----

  /** Each verdict, in terms of the adjusted p-value, the two intervals and the practical floor. */
  lemma VerdictMeans(row: Row, alpha: real)
    requires Judgeable(row)
    ensures
      var judged, point, wide := Judge(row, alpha), row.interval95.value, row.simultaneous.value;
      var rejected, floor := row.pHolm.value < alpha, row.minimumEffect;
      && (judged.verdict == LeftBetter <==> rejected && point.low > 0.0 && (floor == 0.0 || wide.low > floor))
      && (judged.verdict == RightBetter <==> rejected && point.high < 0.0 && (floor == 0.0 || -wide.high > floor))
      && (judged.verdict == LeftSmallEffect <==> rejected && point.low > 0.0 && 0.0 < floor && wide.low <= floor)
      && (judged.verdict == RightSmallEffect <==> rejected && point.high < 0.0 && 0.0 < floor && -wide.high <= floor)
      && (judged.verdict == Inconclusive <==> !rejected || point.low <= 0.0 <= point.high)
      && judged.thresholdMet == Some(judged.verdict == LeftBetter || judged.verdict == RightBetter)
      && judged == row.(verdict := judged.verdict, thresholdMet := judged.thresholdMet)
  {
  }

  // ----- the status -----

  /** Some row claims this verdict. */
  ghost predicate Claimed(rows: seq<Row>, verdict: Verdict) {
    exists row :: row in rows && row.verdict == verdict
  }

  lemma ClaimedIsHas(rows: seq<Row>, verdict: Verdict)
    ensures Claimed(rows, verdict) <==> Has(rows, verdict)
  {
    if Has(rows, verdict) {
      var i :| 0 <= i < |rows| && rows[i].verdict == verdict;
      assert rows[i] in rows;
    }
  }

  ghost predicate AnyTested(questions: seq<Question>, s: Settings) {
    exists i :: 0 <= i < |questions| && |questions[i].effects| >= s.minimumPairs
  }

  ghost predicate EveryTestedLimited(questions: seq<Question>, family: nat, s: Settings) {
    forall i :: 0 <= i < |questions| && |questions[i].effects| >= s.minimumPairs ==>
      Limited(questions[i].effects, family, s)
  }

  lemma {:induction false} NoneTestedMeans(questions: seq<Question>, n: nat, s: Settings)
    requires n <= |questions|
    ensures TestedCount(questions, n, s) == 0 <==> forall i :: 0 <= i < n ==> !Tested(questions[i], s)
  {
    if n > 0 { NoneTestedMeans(questions, n - 1, s); }
  }

  /** A row is counted as limited exactly when its objective is tested and at the limit. */
  ghost predicate Audited(rows: seq<Row>, questions: seq<Question>, family: nat, s: Settings) {
    && |rows| == |questions|
    && forall i :: 0 <= i < |rows| ==>
         (rows[i].limited == Some(true) <==> Tested(questions[i], s) && Limited(questions[i].effects, family, s))
  }

  lemma {:induction false} LimitedAtMost(rows: seq<Row>, questions: seq<Question>, family: nat, n: nat, s: Settings)
    requires Audited(rows, questions, family, s) && n <= |rows|
    ensures CountLimited(rows, n) <= TestedCount(questions, n, s)
    ensures CountLimited(rows, n) == TestedCount(questions, n, s)
       <==> forall i :: 0 <= i < n && Tested(questions[i], s) ==> Limited(questions[i].effects, family, s)
  {
    if n > 0 { LimitedAtMost(rows, questions, family, n - 1, s); }
  }

  lemma AuditedRow(questions: seq<Question>, family: nat, s: Settings, i: nat)
    requires Askable(questions, family, s) && i < |questions|
    ensures Conclude(questions, family, s)[i].limited == Some(true)
       <==> Tested(questions[i], s) && Limited(questions[i].effects, family, s)
  {
    if Tested(questions[i], s) {
      WidePositive(questions, family, s, i);
      var row := JudgedAs(questions, family, s, i, WideTail(family, s.alpha));
      VerdictMeans(row, s.alpha);
    } else {
      assert PrepareAll(questions, family, s)[i] == Prepare(questions[i], family, s);
    }
  }

  lemma ConcludedAudit(questions: seq<Question>, family: nat, s: Settings)
    requires Askable(questions, family, s)
    ensures Audited(Conclude(questions, family, s), questions, family, s)
  {
    forall i | 0 <= i < |questions|
      ensures Conclude(questions, family, s)[i].limited == Some(true)
         <==> Tested(questions[i], s) && Limited(questions[i].effects, family, s)
    {
      AuditedRow(questions, family, s, i);
    }
  }

  lemma ClaimsAreTested(questions: seq<Question>, family: nat, s: Settings, verdict: Verdict)
    requires Askable(questions, family, s) && Claimed(Conclude(questions, family, s), verdict)
    requires verdict != Insufficient
    ensures TestedCount(questions, |questions|, s) > 0
  {
    var rows := Conclude(questions, family, s);
    var i :| 0 <= i < |rows| && rows[i].verdict == verdict;
    ConcludedRow(questions, family, s, i);
    NoneTestedMeans(questions, |questions|, s);
  }

  /** A row is INSUFFICIENT exactly when its objective has too few pairs. */
  lemma InsufficientMeans(questions: seq<Question>, family: nat, s: Settings, i: nat)
    requires Askable(questions, family, s) && i < |questions|
    ensures Conclude(questions, family, s)[i].verdict == Insufficient <==> |questions[i].effects| < s.minimumPairs
  {
    ConcludedRow(questions, family, s, i);
  }

  /** Each status, in terms of the verdicts of the rows and the discrete limits of the tested objectives. */
  lemma StatusMeans(questions: seq<Question>, family: nat, s: Settings)
    requires Askable(questions, family, s)
    ensures
      var rows := Conclude(questions, family, s);
      var status := StatusOf(rows, TestedCount(questions, |questions|, s));
      var left, right := Claimed(rows, LeftBetter), Claimed(rows, RightBetter);
      var small := Claimed(rows, LeftSmallEffect) || Claimed(rows, RightSmallEffect);
      var limited := EveryTestedLimited(questions, family, s);
      && (status == InsufficientEvidence <==> !AnyTested(questions, s))
      && (status == LeftDirectional <==> left && !right)
      && (status == RightDirectional <==> right && !left)
      && (status == MixedDirectional <==> left && right)
      && (status == StatisticalOnly <==> small && !left && !right)
      && (status == ResolutionLimited <==> !left && !right && !small && AnyTested(questions, s) && limited)
      && (status == NothingDecisive <==> !left && !right && !small && AnyTested(questions, s) && !limited)
  {
    var rows := Conclude(questions, family, s);
    NoneTestedMeans(questions, |questions|, s);
    ConcludedAudit(questions, family, s);
    LimitedAtMost(rows, questions, family, |rows|, s);
    ClaimMeans(questions, family, s, LeftBetter);
    ClaimMeans(questions, family, s, RightBetter);
    ClaimMeans(questions, family, s, LeftSmallEffect);
    ClaimMeans(questions, family, s, RightSmallEffect);
  }

  lemma ClaimMeans(questions: seq<Question>, family: nat, s: Settings, verdict: Verdict)
    requires Askable(questions, family, s) && verdict != Insufficient
    ensures Claimed(Conclude(questions, family, s), verdict) <==> Has(Conclude(questions, family, s), verdict)
    ensures Claimed(Conclude(questions, family, s), verdict) ==> TestedCount(questions, |questions|, s) > 0
  {
    ClaimedIsHas(Conclude(questions, family, s), verdict);
    if Claimed(Conclude(questions, family, s), verdict) {
      ClaimsAreTested(questions, family, s, verdict);
    }
  }
}
