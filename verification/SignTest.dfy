/**
  The binomial-tail sign test (src/llm_hardtest/calibration.py:1241-1246) and its
  agreement with the sign-flip enumeration when all effects have one size.
 */
module SignTest {
  import opened Numbers
  import opened SignFlip

  function Choose(n: nat, k: nat): nat {
    if k == 0 then 1
    else if n == 0 then 0
    else Choose(n - 1, k - 1) + Choose(n - 1, k)
  }

  /** The number of outcomes with at most m successes in n trials. */
  function Tail(n: nat, m: int): nat
    decreases if m < 0 then 0 else m + 1
  {
    if m < 0 then 0 else Tail(n, m - 1) + Choose(n, m)
  }

  function ExactSignPValue(wins: nat, losses: nat): Option<real> {
    var trials := wins + losses;
    if trials == 0 then None
    else
      var tail := Tail(trials, if wins <= losses then wins else losses);
      Some(Min(1.0, (2 * tail) as real / Pow2(trials) as real))
  }

  lemma {:induction false} TailPascal(n: nat, m: int)
    requires n > 0
    ensures Tail(n, m) == Tail(n - 1, m) + Tail(n - 1, m - 1)
    decreases if m < 0 then 0 else m + 1
  {
    if m >= 0 {
      TailPascal(n, m - 1);
    }
  }

  lemma {:induction false} TailOfNone(m: int)
    ensures Tail(0, m) == if m < 0 then 0 else 1
    decreases if m < 0 then 0 else m + 1
  {
    if m > 0 {
      TailOfNone(m - 1);
    }
  }

  /** At most m successes, or at most n-1-m failures: every outcome falls on one side. */
  lemma {:induction false} TailComplement(n: nat, m: int)
    ensures Tail(n, m) + Tail(n, n - 1 - m) == Pow2(n)
    decreases n
  {
    if n == 0 {
      TailOfNone(m);
      TailOfNone(-1 - m);
    } else {
      TailPascal(n, m);
      TailPascal(n, n - 1 - m);
      TailComplement(n - 1, m);
      TailComplement(n - 1, m - 1);
    }
  }

  lemma {:induction false} TailMonotone(n: nat, a: int, b: int)
    requires a <= b
    ensures Tail(n, a) <= Tail(n, b)
    decreases b - a
  {
    if a < b {
      TailMonotone(n, a, b - 1);
    }
  }

  // ----- effects of one size -----

  ghost predicate OneSize(effects: seq<real>, size: real) {
    forall i :: 0 <= i < |effects| ==> effects[i] == size || effects[i] == -size
  }

  function Wins(effects: seq<real>): nat {
    if effects == [] then 0 else (if effects[0] > 0.0 then 1 else 0) + Wins(effects[1..])
  }

  /** k times the common size, by repeated addition. */
  function Steps(k: int, size: real): real
    decreases if k < 0 then -k else k
  {
    if k == 0 then 0.0 else if k > 0 then Steps(k - 1, size) + size else Steps(k + 1, size) - size
  }

  lemma StepsNext(k: int, size: real)
    ensures Steps(k + 1, size) == Steps(k, size) + size
  {
  }

  lemma {:induction false} StepsOrder(a: int, b: int, size: real)
    requires size > 0.0
    ensures a <= b ==> Steps(a, size) <= Steps(b, size)
    ensures a < b ==> Steps(a, size) < Steps(b, size)
    decreases b - a
  {
    if a < b {
      StepsOrder(a, b - 1, size);
      StepsNext(b - 1, size);
    }
  }

  lemma {:induction false} StepsSize(k: int, size: real)
    requires size > 0.0
    ensures Abs(Steps(k, size)) == Steps(if k < 0 then -k else k, size)
    decreases if k < 0 then -k else k
  {
    if k > 0 {
      StepsSize(k - 1, size);
      StepsOrder(0, k, size);
    } else if k < 0 {
      StepsSize(k + 1, size);
      StepsOrder(k, 0, size);
      StepsOrder(k + 1, 0, size);
      StepsNext(-(k + 1), size);
      assert -(k + 1) + 1 == -k;
    }
  }

  lemma {:induction false} WinsDetermineSum(effects: seq<real>, size: real)
    requires size > 0.0 && OneSize(effects, size)
    ensures Wins(effects) <= |effects|
    ensures Sum(effects) == Steps(2 * Wins(effects) - |effects|, size)
  {
    if effects != [] {
      var rest := effects[1..];
      WinsDetermineSum(rest, size);
      StepsNext(2 * Wins(rest) - |rest|, size);
      StepsNext(2 * Wins(rest) - |rest| - 1, size);
    }
  }

  /**
    Counting in steps of the common size: from `at` steps, the assignments that end at
    least `level` steps away from zero are two binomial tails, one per side.
   */
  lemma {:induction false} StepCount(effects: seq<real>, size: real, at: int, level: nat, bar: real,
                                     high: int, low: int)
    requires size > 0.0 && OneSize(effects, size)
    requires level >= 1
    requires 2 * high == |effects| + at - level && 2 * low == |effects| - at - level
    requires Steps(level - 2, size) < bar <= Steps(level, size)
    ensures Assignments(effects, Steps(at, size), bar) == Tail(|effects|, high) + Tail(|effects|, low)
    decreases |effects|
  {
    if effects == [] {
      StepBase(size, at, level, bar);
      TailOfNone(high);
      TailOfNone(low);
    } else {
      var rest, e := effects[1..], effects[0];
      StepCount(rest, size, at + 1, level, bar, high, low - 1);
      StepCount(rest, size, at - 1, level, bar, high - 1, low);
      TailPascal(|effects|, high);
      TailPascal(|effects|, low);
      StepsNext(at, size);
      StepsNext(at - 1, size);
    }
  }

  lemma StepBase(size: real, at: int, level: nat, bar: real)
    requires size > 0.0 && level >= 1 && (at - level) % 2 == 0
    requires Steps(level - 2, size) < bar <= Steps(level, size)
    ensures Abs(Steps(at, size)) >= bar <==> at >= level || -at >= level
  {
    StepsSize(at, size);
    var away := if at < 0 then -at else at;
    if away >= level {
      StepsOrder(level, away, size);
    } else {
      StepsOrder(away, level - 2, size);
    }
  }

  lemma BarInSteps(effects: seq<real>, size: real, tolerance: real)
    requires size > 0.0 && OneSize(effects, size)
    requires 0.0 <= tolerance && tolerance * |effects| as real < 2.0 * size
    ensures
      var gap := 2 * Wins(effects) - |effects|;
      var level := if gap < 0 then -gap else gap;
      Steps(level - 2, size) < Bar(effects, tolerance) <= Steps(level, size)
  {
    WinsDetermineSum(effects, size);
    var gap := 2 * Wins(effects) - |effects|;
    var level := if gap < 0 then -gap else gap;
    StepsSize(gap, size);
    StepsNext(level - 1, size);
    StepsNext(level - 2, size);
    assert tolerance * |effects| as real >= 0.0;
  }

  /**
    On effects that are all plus or minus one size, the share of extreme masks is the
    binomial sign-test p-value, ties included, for every tolerance below one grid step.
   */
  lemma SignFlipIsSignTest(effects: seq<real>, size: real, tolerance: real)
    requires effects != [] && size > 0.0 && OneSize(effects, size)
    requires 0.0 <= tolerance && tolerance * |effects| as real < 2.0 * size
    ensures Wins(effects) <= |effects|
    ensures ExactSignPValue(Wins(effects), |effects| - Wins(effects)) ==
      Some(Assignments(effects, 0.0, Bar(effects, tolerance)) as real / Pow2(|effects|) as real)
  {
    WinsDetermineSum(effects, size);
    var n, wins, bar := |effects|, Wins(effects), Bar(effects, tolerance);
    var least := if wins <= n - wins then wins else n - wins;
    BarInSteps(effects, size, tolerance);
    if n == 2 * least {
      AssignmentsTotal(effects, 0.0, bar);
    } else {
      StepCount(effects, size, 0, n - 2 * least, bar, least, least);
    }
    ClampedTail(n, least);
  }

  /** Doubling the smaller tail overshoots only for a tie, where the clamp applies. */
  lemma ClampedTail(n: nat, least: nat)
    requires 2 * least <= n
    ensures Min(1.0, (2 * Tail(n, least)) as real / Pow2(n) as real)
         == (if 2 * least == n then Pow2(n) else 2 * Tail(n, least)) as real / Pow2(n) as real
  {
    TailComplement(n, least);
    if n == 2 * least {
      TailMonotone(n, n - 1 - least, least);
      FractionOrder(Pow2(n), 2 * Tail(n, least), Pow2(n));
    } else {
      TailMonotone(n, least, n - 1 - least);
      FractionOrder(2 * Tail(n, least), Pow2(n), Pow2(n));
    }
  }

  lemma FractionOrder(a: nat, b: nat, whole: nat)
    requires a <= b && whole > 0
    ensures a as real / whole as real <= b as real / whole as real
    ensures whole as real / whole as real == 1.0
  {
  }
}
