/**
  One comparison whose verdict depends on the order of its sides. The budget of draws puts a whole number of them
  in every tail (src/llm_hardtest/paired_comparison.py:123-131), so an interval may end between two draws that
  differ, and then it is not negated by the swap.
 */
module SwapExample {
  import opened Numbers
  import opened Percentiles
  import opened ObjectiveRows
  import opened SignFlip
  import opened Comparison
  import opened FamilyChoice
  import opened Verdicts
  import opened OppositeDraws
  import opened SideSwap

  // ----- the budget -----

  const EXPECTED_TAIL_DRAWS := 100
  const LEAST_DRAWS := 2000

  /** At least two thousand draws, and enough for a hundred in each simultaneous tail. */
  function Budget(family: nat, alpha: real): nat
    requires family > 0 && alpha > 0.0
  {
    var enough := Ceil((2 * family * EXPECTED_TAIL_DRAWS) as real / alpha);
    if enough > LEAST_DRAWS then enough else LEAST_DRAWS
  }

  lemma BudgetIs(family: nat)
    requires family > 0
    ensures Budget(family, 0.05) == 4000 * family
  {
    var parts := (2 * family * EXPECTED_TAIL_DRAWS) as real;
    assert parts / 0.05 == (4000 * family) as real;
  }

  /** For every family size the draws in both tails are whole numbers, so for neither interval does the swap
      negate both ends whatever is drawn. */
  lemma BudgetMeetsTheEnds(family: nat, tail: real)
    requires family > 0 && tail * (2 * family) as real == 0.05
    ensures !NegatesOn(Budget(family, 0.05), 0.025, 0.975)
    ensures !NegatesOn(Budget(family, 0.05), tail, 1.0 - tail)
  {
    BudgetIs(family);
    var n := 4000 * family;
    assert 0.025 * n as real == (100 * family) as real;
    AlwaysNegatesExactly(n, 0.025, (100 * family) as real);
    TailOfBudget(family as real, tail);
    AlwaysNegatesExactly(n, tail, 100.0);
  }

  lemma TailOfBudget(family: real, tail: real)
    requires family >= 1.0 && tail * (2.0 * family) == 0.05
    ensures 0.0 < tail < 1.0 && tail * (4000.0 * family) == 100.0
  {
    assert tail * (4000.0 * family) == 2000.0 * (tail * (2.0 * family));
    if tail <= 0.0 { NotPositive(tail, 2.0 * family); }
    if tail >= 1.0 { AtLeast(tail, 2.0 * family); }
  }

  lemma NotPositive(x: real, y: real)
    requires x <= 0.0 && y > 0.0
    ensures x * y <= 0.0
  {
  }

  lemma AtLeast(x: real, y: real)
    requires x >= 1.0 && y > 0.0
    ensures x * y >= y
  {
  }

  // ----- the draws -----

  /** A hundred resamples that picked the dissenting bundle nine times, and others that never did. */
  function DissentDraws(): seq<real> {
    Copies(-1.0, 100) + Copies(1.0, 3900)
  }

  function Picked(effects: seq<real>, picks: seq<nat>): seq<real>
    requires forall i :: 0 <= i < |picks| ==> picks[i] < |effects|
  {
    if picks == [] then [] else [effects[picks[0]]] + Picked(effects, picks[1..])
  }

  /** The mean of as many picks from the effects as there are effects. */
  ghost predicate Resample(effects: seq<real>, x: real) {
    exists picks: seq<nat> ::
      && |picks| == |effects| && (forall i :: 0 <= i < |picks| ==> picks[i] < |effects|)
      && Picked(effects, picks) != [] && Mean(Picked(effects, picks)) == x
  }

  lemma {:induction false} PickedAlike(effects: seq<real>, picks: seq<nat>, k: nat)
    requires k < |effects| && forall i :: 0 <= i < |picks| ==> picks[i] == k
    ensures |Picked(effects, picks)| == |picks|
    ensures forall x :: x in Picked(effects, picks) ==> x == effects[k]
  {
    if picks != [] { PickedAlike(effects, picks[1..], k); }
  }

  lemma OnePickRepeated(effects: seq<real>, k: nat)
    requires k < |effects|
    ensures Resample(effects, effects[k])
  {
    var picks: seq<nat> := seq(|effects|, _ => k);
    PickedAlike(effects, picks, k);
    MeanOfEqual(Picked(effects, picks), effects[k]);
  }

  lemma DrawsAreResamples()
    ensures |DissentDraws()| == Budget(1, 0.05) && forall x :: x in DissentDraws() ==> Resample(NINE, x)
  {
    BudgetIs(1);
    OnePickRepeated(NINE, 0);
    OnePickRepeated(NINE, 1);
  }

  // ----- the two orders -----

  lemma ShownEnds(x: Interval, draws: seq<real>, low: real, high: real, p: real, q: real)
    requires EndsAt(x, draws, p, q) && NearestRank(draws, p, low) && NearestRank(draws, q, high)
    ensures x == Interval(Round6(low), Round6(high))
  {
    var y, z :| NearestRank(draws, p, y) && NearestRank(draws, q, z) && x == Interval(Round6(y), Round6(z));
    NearestOnce(draws, p, y, low);
    NearestOnce(draws, q, z, high);
  }

  lemma EndsHere()
    ensures NearestRank(DissentDraws(), 0.025, -1.0) && NearestRank(DissentDraws(), 0.975, 1.0)
  {
    LevelPlaces(-1.0, 1.0, 100, 4000);
    assert DissentDraws()[0] == -1.0 && DissentDraws()[100] == 1.0;
  }

  lemma EndsThere()
    ensures NearestRank(Negated(DissentDraws()), 0.025, -1.0) && NearestRank(Negated(DissentDraws()), 0.975, -1.0)
  {
    LevelPlaces(-1.0, 1.0, 100, 4000);
    NegatedIsOpposite(DissentDraws());
    OppositeEnd(DissentDraws(), Negated(DissentDraws()));
  }

  lemma OppositeEnd(draws: seq<real>, t: seq<real>)
    requires Opposite(draws, t) && |draws| == 4000 && draws[100] == 1.0
    requires |Below(draws, 1.0)| == 100 && |UpTo(draws, 1.0)| == 4000
    ensures NearestRank(t, 0.025, -1.0) && NearestRank(t, 0.975, -1.0)
  {
    OppositePlaces(draws, t, 1.0);
    assert t[100] == -1.0;
  }

  lemma DissentIsRejected(tolerance: real, draws: seq<real>)
    requires 0.0 <= tolerance < 0.2 && draws != []
    ensures
      var s, questions := Standard(tolerance), [Second(draws)];
      Askable(questions, 1, s) && Tested(questions[0], s) && Conclude(questions, 1, s)[0].pHolm == Some(0.0390625)
  {
    var s, questions := Standard(tolerance), [Second(draws)];
    BothAskable(tolerance, draws, draws, draws);
    NineButOne(tolerance);
    ConcludedRow(questions, 1, s, 0);
    assert PrepareAll(questions, 1, s)[0] == Prepare(questions[0], 1, s);
    HolmOfOne(PrepareAll(questions, 1, s));
  }

  lemma StraddlesZero(row: Row, alpha: real)
    requires Judgeable(row) && row.interval95.value == Interval(Round6(-1.0), Round6(1.0))
    ensures Judge(row, alpha).verdict == Inconclusive
  {
    RoundedOnes();
  }

  lemma BelowZero(row: Row, alpha: real)
    requires Judgeable(row) && row.interval95.value == Interval(Round6(-1.0), Round6(-1.0))
    requires row.minimumEffect == 0.0 && row.pHolm.value < alpha
    ensures Judge(row, alpha).verdict == RightBetter
  {
    RoundedOnes();
  }

  lemma RoundedOnes()
    ensures Round6(-1.0) == -1.0 && Round6(1.0) == 1.0
  {
  }

  /** Nine bundles of which one dissents: inconclusive in this order, better on the right in the other. */
  lemma SwapChangesTheVerdict(tolerance: real)
    requires 0.0 <= tolerance < 0.2
    ensures |DissentDraws()| == Budget(1, 0.05) && forall x :: x in DissentDraws() ==> Resample(NINE, x)
    ensures
      var s, questions := Standard(tolerance), [Second(DissentDraws())];
      && Askable(questions, 1, s) && Conclude(questions, 1, s)[0].verdict == Inconclusive
      && Askable(SwappedAll(questions), 1, s) && Conclude(SwappedAll(questions), 1, s)[0].verdict == RightBetter
  {
    var s, questions := Standard(tolerance), [Second(DissentDraws())];
    DrawsAreResamples();
    DissentIsRejected(tolerance, DissentDraws());
    SwapKeepsPValues(questions, 1, s, 0);
    TestsKeep(questions[0], 1, s);
    EndsHere();
    InconclusiveAt(questions, s);
    EndsThere();
    RightAt(SwappedAll(questions), s);
  }

  lemma InconclusiveAt(asked: seq<Question>, s: Settings)
    requires Askable(asked, 1, s) && |asked| == 1 && Tested(asked[0], s) && s.alpha == 0.05
    requires NearestRank(asked[0].draws, 0.025, -1.0) && NearestRank(asked[0].draws, 0.975, 1.0)
    ensures Conclude(asked, 1, s)[0].verdict == Inconclusive
  {
    var row := JudgedAs(asked, 1, s, 0, 0.025);
    ShownEnds(row.interval95.value, asked[0].draws, -1.0, 1.0, 0.025, 0.975);
    StraddlesZero(row, s.alpha);
  }

  lemma RightAt(asked: seq<Question>, s: Settings)
    requires Askable(asked, 1, s) && |asked| == 1 && Tested(asked[0], s) && s.alpha == 0.05
    requires asked[0].minimumEffect == 0.0 && Conclude(asked, 1, s)[0].pHolm == Some(0.0390625)
    requires NearestRank(asked[0].draws, 0.025, -1.0) && NearestRank(asked[0].draws, 0.975, -1.0)
    ensures Conclude(asked, 1, s)[0].verdict == RightBetter
  {
    var row := JudgedAs(asked, 1, s, 0, 0.025);
    JudgingKeepsTests(row, s.alpha);
    ShownEnds(row.interval95.value, asked[0].draws, -1.0, -1.0, 0.025, 0.975);
    BelowZero(row, s.alpha);
  }
}
