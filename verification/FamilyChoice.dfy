/**
  Why a family should be declared: with the default family, narrowing a comparison to one
  objective can turn an inconclusive verdict into a claim
  (src/llm_hardtest/paired_comparison.py:384-385).
 */
module FamilyChoice {
  import opened Numbers
  import opened ObjectiveRows
  import opened SignFlip
  import opened SignTest
  import opened Holm
  import opened Comparison

  /** The constants of the source, with any tolerance that one sign can overcome. */
  function Standard(tolerance: real): Settings {
    Settings(0.05, tolerance, 65536, 5, 4)
  }

  const SIX := [1.0, 1.0, 1.0, 1.0, 1.0, 1.0]
  const NINE := [-1.0, 1.0, 1.0, 1.0, 1.0, 1.0, 1.0, 1.0, 1.0]

  /** Six bundles that agree. */
  function First(draws: seq<real>): Question {
    Question(0, SIX, 0.0, draws, [])
  }

  /** Nine bundles of which one disagrees. */
  function Second(draws: seq<real>): Question {
    Question(1, NINE, 0.0, draws, [])
  }

  lemma {:induction false} WinsOfOnes(effects: seq<real>)
    requires forall i :: 0 <= i < |effects| ==> effects[i] == 1.0
    ensures Wins(effects) == |effects|
  {
    if effects != [] { WinsOfOnes(effects[1..]); }
  }

  lemma PublishedShare(effects: seq<real>, tolerance: real, p: real)
    requires effects != [] && OneSize(effects, 1.0) && 0.0 <= tolerance && tolerance * |effects| as real < 2.0
    requires Pow2(|effects|) <= 65536
    requires Wins(effects) <= |effects| && ExactSignPValue(Wins(effects), |effects| - Wins(effects)) == Some(p)
    ensures PValue(effects, 65536, tolerance, []) == Published(p)
  {
    SignFlipIsSignTest(effects, 1.0, tolerance);
  }

  lemma SixAgree(tolerance: real)
    requires 0.0 <= tolerance < 0.2
    ensures PValue(SIX, 65536, tolerance, []) == 0.03125
  {
    WinsOfOnes(SIX);
    assert Tail(6, 0) == 1 && Pow2(6) == 64;
    assert ExactSignPValue(6, 0) == Some(2.0 / 64.0);
    PublishedShare(SIX, tolerance, 2.0 / 64.0);
    assert 0.03125 * GRID == 3125000.0;
  }

  lemma NineButOne(tolerance: real)
    requires 0.0 <= tolerance < 0.2
    ensures PValue(NINE, 65536, tolerance, []) == 0.0390625
  {
    WinsOfOnes(NINE[1..]);
    assert Wins(NINE) == 8;
    assert Tail(9, 0) == 1 && Choose(9, 1) == 9 && Tail(9, 1) == 10 && Pow2(9) == 512;
    assert ExactSignPValue(8, 1) == Some(20.0 / 512.0);
    PublishedShare(NINE, tolerance, 20.0 / 512.0);
    assert 0.0390625 * GRID == 3906250.0;
  }

  lemma HolmOfTwo(rows: seq<Row>)
    requires |rows| == 2 && rows[0].pRaw == Some(0.03125) && rows[1].pRaw == Some(0.0390625)
    ensures HolmOf(rows, 2, 1) == 0.0625
  {
    var a, b := Entry(KeyOf(rows[0]), 0), Entry(KeyOf(rows[1]), 1);
    assert Entries(rows, 1) == [a];
    assert [a][1..] == [];
    assert InsertEntry([a], b) == [a, b];
    assert Order(rows) == [a, b];
    assert RankOf(rows, 1) == 1;
    var keys := Keys(Order(rows));
    assert Adjusted(keys, 2, 0) == 0.0625;
  }

  lemma HolmOfOne(rows: seq<Row>)
    requires |rows| == 1 && rows[0].pRaw == Some(0.0390625)
    ensures HolmOf(rows, 1, 0) == 0.0390625
  {
    var a := Entry(KeyOf(rows[0]), 0);
    assert Entries(rows, 0) == [] && InsertEntry([], a) == [a];
    assert Order(rows) == [a];
  }

  lemma BothAskable(tolerance: real, a: seq<real>, wide: seq<real>, b: seq<real>)
    requires 0.0 <= tolerance < 0.2 && a != [] && wide != [] && b != []
    ensures
      var s := Standard(tolerance);
      && FamilyOf([First(a), Second(wide)], None, s) == 2 && Askable([First(a), Second(wide)], 2, s)
      && FamilyOf([Second(b)], None, s) == 1 && Askable([Second(b)], 1, s)
  {
    var s, both := Standard(tolerance), [First(a), Second(wide)];
    AllTested(both, 2, s);
    AllTested([Second(b)], 1, s);
  }

  lemma {:induction false} AllTested(questions: seq<Question>, n: nat, s: Settings)
    requires n <= |questions| && forall i :: 0 <= i < |questions| ==> Tested(questions[i], s)
    ensures TestedCount(questions, n, s) == n
  {
    if n > 0 { AllTested(questions, n - 1, s); }
  }

  /** Whatever is drawn for the wide query: the second objective is inconclusive beside the first. Asked alone,
      with draws of its own whose pointwise interval is positive, it is better on the left. */
  lemma NarrowingMakesANewClaim(tolerance: real, a: seq<real>, wide: seq<real>, b: seq<real>)
    requires 0.0 <= tolerance < 0.2 && a != [] && wide != [] && b != [] && PairedIntervals(b, 1, 0.05).0.low > 0.0
    ensures
      var s := Standard(tolerance);
      var both, alone := [First(a), Second(wide)], [Second(b)];
      && FamilyOf(both, None, s) == 2 && Askable(both, 2, s) && Conclude(both, 2, s)[1].verdict == Inconclusive
      && FamilyOf(alone, None, s) == 1 && Askable(alone, 1, s) && Conclude(alone, 1, s)[0].verdict == LeftBetter
  {
    var s := Standard(tolerance);
    var both, alone := [First(a), Second(wide)], [Second(b)];
    BothAskable(tolerance, a, wide, b);
    SixAgree(tolerance);
    NineButOne(tolerance);
    HolmOfTwo(PrepareAll(both, 2, s));
    HolmOfOne(PrepareAll(alone, 1, s));
    ConcludedRow(both, 2, s, 1);
    ConcludedRow(alone, 1, s, 0);
  }
}
