/**
  The paired sign-flip test (src/llm_hardtest/paired_comparison.py:90-120) and the
  resolution it can reach. A mask assigns a sign to every effect; the test counts the
  masks whose absolute mean is, up to a tolerance, at least the observed one.
 */
module SignFlip {
  import opened Numbers
  import opened Sequences

  // ----- the enumeration, mask by mask -----

  predicate Bit(mask: nat, index: nat) {
    if index == 0 then mask % 2 == 1 else Bit(mask / 2, index - 1)
  }

  /** The signed total that a mask selects, low bit first. */
  function Signed(effects: seq<real>, mask: nat): real {
    if effects == [] then 0.0
    else (if mask % 2 == 1 then effects[0] else -effects[0]) + Signed(effects[1..], mask / 2)
  }

  /** Whether a signed total counts as at least as extreme as the observed one. */
  predicate Extreme(total: real, count: nat, tolerance: real, observed: real)
    requires count > 0
  {
    Abs(total / count as real) + tolerance >= observed
  }

  function Hit(effects: seq<real>, start: real, bar: real, mask: nat): nat {
    if Abs(start + Signed(effects, mask)) >= bar then 1 else 0
  }

  /** Masks below `limit` whose signed total, added to `start`, reaches `bar` in size. */
  function HitsBelow(effects: seq<real>, start: real, bar: real, limit: nat): nat {
    if limit == 0 then 0
    else HitsBelow(effects, start, bar, limit - 1) + Hit(effects, start, bar, limit - 1)
  }

  /** The bar on totals that corresponds to the code's comparison of means. */
  function Bar(effects: seq<real>, tolerance: real): real {
    Abs(Sum(effects)) - tolerance * |effects| as real
  }

  lemma ExtremeIsBar(effects: seq<real>, tolerance: real, total: real)
    requires effects != []
    ensures Extreme(total, |effects|, tolerance, Abs(Mean(effects)))
       <==> Abs(total) >= Bar(effects, tolerance)
  {
    ExtremeInTotals(total, Sum(effects), tolerance, |effects| as real);
  }

  lemma ExtremeInTotals(total: real, observed: real, tolerance: real, n: real)
    requires n > 0.0
    ensures Abs(total / n) + tolerance >= Abs(observed / n) <==> Abs(total) >= Abs(observed) - tolerance * n
  {
    DivideBack(total, n);
    DivideBack(observed, n);
    ScaledGap(Abs(total / n), Abs(observed / n), tolerance, n);
  }

  lemma DivideBack(x: real, n: real)
    requires n > 0.0
    ensures Abs(x / n) * n == Abs(x)
  {
    assert x / n * n == x;
    if x < 0.0 {
      assert x / n < 0.0;
    }
  }

  lemma ScaledGap(a: real, b: real, gap: real, n: real)
    requires n > 0.0
    ensures a + gap >= b <==> a * n >= b * n - gap * n
  {
    assert (a + gap - b) * n == a * n + gap * n - b * n;
    if a + gap < b { assert (a + gap - b) * n < 0.0; }
  }

  // ----- the same count, effect by effect -----

  /** Sign assignments whose total, added to `start`, reaches `bar` in size. */
  function Assignments(effects: seq<real>, start: real, bar: real): nat {
    if effects == [] then
      if Abs(start) >= bar then 1 else 0
    else
      Assignments(effects[1..], start + effects[0], bar) + Assignments(effects[1..], start - effects[0], bar)
  }

  lemma {:induction false} HitsSplit(effects: seq<real>, start: real, bar: real, half: nat)
    requires effects != []
    ensures HitsBelow(effects, start, bar, 2 * half)
         == HitsBelow(effects[1..], start + effects[0], bar, half)
          + HitsBelow(effects[1..], start - effects[0], bar, half)
  {
    if half != 0 {
      HitsSplit(effects, start, bar, half - 1);
      var m := half - 1;
      assert (2 * m) / 2 == m && (2 * m) % 2 == 0;
      assert (2 * m + 1) / 2 == m && (2 * m + 1) % 2 == 1;
      assert start + Signed(effects, 2 * m) == start - effects[0] + Signed(effects[1..], m);
      assert start + Signed(effects, 2 * m + 1) == start + effects[0] + Signed(effects[1..], m);
      assert HitsBelow(effects, start, bar, 2 * half)
          == HitsBelow(effects, start, bar, 2 * m) + Hit(effects, start, bar, 2 * m)
           + Hit(effects, start, bar, 2 * m + 1);
    }
  }

  /** Enumerating all masks counts every sign assignment once. */
  lemma {:induction false} MasksAreAssignments(effects: seq<real>, start: real, bar: real)
    ensures HitsBelow(effects, start, bar, Pow2(|effects|)) == Assignments(effects, start, bar)
    decreases |effects|
  {
    if effects == [] {
      assert HitsBelow(effects, start, bar, 1) == Hit(effects, start, bar, 0);
    } else {
      HitsSplit(effects, start, bar, Pow2(|effects| - 1));
      MasksAreAssignments(effects[1..], start + effects[0], bar);
      MasksAreAssignments(effects[1..], start - effects[0], bar);
    }
  }

  // ----- the test itself -----

  /** The sampled masks whose total reaches `bar`. */
  function Reaching(effects: seq<real>, bar: real): nat -> bool {
    (mask: nat) => Abs(Signed(effects, mask)) >= bar
  }

  function DrawHits(effects: seq<real>, bar: real, draws: seq<nat>): nat {
    Count(draws, Reaching(effects, bar))
  }

  /** The places in the stream whose mask reaches it. */
  ghost function ExtremeDraws(effects: seq<real>, bar: real, draws: seq<nat>): set<int> {
    set i | 0 <= i < |draws| && Abs(Signed(effects, draws[i])) >= bar
  }

  lemma DrawHitsAreExtremes(effects: seq<real>, bar: real, draws: seq<nat>)
    ensures DrawHits(effects, bar, draws) == |ExtremeDraws(effects, bar, draws)|
  {
    CountMeans(draws, Reaching(effects, bar));
    assert ExtremeDraws(effects, bar, draws) == Where(draws, Reaching(effects, bar));
  }

  datatype Branch = Exact | MonteCarlo

  datatype Test = Test(pValue: real, branch: Branch, assignments: nat, evaluated: nat, extreme: nat)

  const GRID := 100000000.0

  /** The published p-value: rounded up to eight decimals and capped at one. */
  function Published(p: real): real {
    Min(1.0, Ceil(p * GRID) as real / GRID)
  }

  lemma RoundedUp(p: real, scaled: real, up: real)
    requires scaled == p * GRID && scaled <= up < scaled + 1.0
    ensures p <= up / GRID < p + 1.0 / GRID
    ensures 0.0 < p ==> 0.0 < up / GRID
  {
  }

  lemma PublishedBounds(p: real)
    ensures Published(p) >= Min(1.0, p)
    ensures Published(p) <= 1.0 && Published(p) < p + 1.0 / GRID
    ensures 0.0 < p ==> 0.0 < Published(p)
  {
    RoundedUp(p, p * GRID, Ceil(p * GRID) as real);
  }

  /** It is a number of eight decimals. */
  lemma PublishedIsOnGrid(p: real) returns (k: int)
    ensures Published(p) == k as real / GRID
  {
    k := if Ceil(p * GRID) as real / GRID >= 1.0 then 100000000 else Ceil(p * GRID);
  }

  /** The p-value the test publishes, on either branch. */
  function PValue(effects: seq<real>, limit: nat, tolerance: real, draws: seq<nat>): real {
    var bar := Bar(effects, tolerance);
    if Pow2(|effects|) <= limit then
      Published(Assignments(effects, 0.0, bar) as real / Pow2(|effects|) as real)
    else
      Published((DrawHits(effects, bar, draws) as real + 1.0) / (|draws| as real + 1.0))
  }

  /** One mask of the enumeration, read off bit by bit as the generator expression does. */
  method MaskTotal(effects: seq<real>, mask: nat) returns (total: real)
    ensures total == Signed(effects, mask)
  {
    total := 0.0;
    var rest := mask;
    for index := 0 to |effects|
      invariant forall j: nat :: Bit(rest, j) == Bit(mask, index + j)
      invariant total + Signed(effects[index..], rest) == Signed(effects, mask)
    {
      assert Bit(mask, index + 0) == Bit(rest, 0);
      assert effects[index..][1..] == effects[index + 1..];
      total := total + (if Bit(mask, index) then effects[index] else -effects[index]);
      forall j: nat ensures Bit(rest / 2, j) == Bit(mask, index + 1 + j) {
        assert Bit(rest, j + 1) == Bit(mask, index + (j + 1));
      }
      rest := rest / 2;
    }
  }

  /**
    The whole test. `limit` is the largest number of assignments still enumerated;
    `draws` are the masks the sampler would produce beyond it.
   */
  method SignFlipTest(effects: seq<real>, limit: nat, tolerance: real, draws: seq<nat>) returns (test: Test)
    requires effects != []
    ensures test.assignments == Pow2(|effects|)
    ensures test.branch == (if test.assignments <= limit then Exact else MonteCarlo)
    ensures test.branch.Exact? ==>
      && test.evaluated == Pow2(|effects|)
      && test.extreme == Assignments(effects, 0.0, Bar(effects, tolerance))
      && test.pValue == Published(test.extreme as real / test.evaluated as real)
    ensures test.branch.MonteCarlo? ==>
      && test.evaluated == |draws|
      && test.extreme == |ExtremeDraws(effects, Bar(effects, tolerance), draws)|
      && test.pValue == Published((test.extreme as real + 1.0) / (|draws| as real + 1.0))
    ensures test.pValue == PValue(effects, limit, tolerance, draws)
    ensures test.extreme <= test.evaluated
    ensures 0.0 <= test.pValue <= 1.0
  {
    var assignments := Pow2(|effects|);
    if assignments <= limit {
      var extreme := CountMasks(effects, tolerance, assignments);
      MasksAreAssignments(effects, 0.0, Bar(effects, tolerance));
      var p := extreme as real / assignments as real;
      SharePublishes(extreme as real, assignments as real);
      test := Test(Published(p), Exact, assignments, assignments, extreme);
    } else {
      var extreme := CountDraws(effects, tolerance, draws);
      var p := (extreme as real + 1.0) / (|draws| as real + 1.0);
      SharePublishes(extreme as real + 1.0, |draws| as real + 1.0);
      DrawHitsAreExtremes(effects, Bar(effects, tolerance), draws);
      test := Test(Published(p), MonteCarlo, assignments, |draws|, extreme);
    }
  }

  /** The exact loop. */
  method CountMasks(effects: seq<real>, tolerance: real, assignments: nat) returns (extreme: nat)
    requires effects != []
    ensures extreme == HitsBelow(effects, 0.0, Bar(effects, tolerance), assignments)
    ensures extreme <= assignments
  {
    var observed := Abs(Mean(effects));
    extreme := 0;
    for mask := 0 to assignments
      invariant extreme == HitsBelow(effects, 0.0, Bar(effects, tolerance), mask)
      invariant extreme <= mask
    {
      var total := MaskTotal(effects, mask);
      ExtremeIsBar(effects, tolerance, total);
      extreme := extreme + (if Extreme(total, |effects|, tolerance, observed) then 1 else 0);
    }
  }

  /** The sampled loop. */
  method CountDraws(effects: seq<real>, tolerance: real, draws: seq<nat>) returns (extreme: nat)
    requires effects != []
    ensures extreme == DrawHits(effects, Bar(effects, tolerance), draws)
    ensures extreme <= |draws|
  {
    var observed := Abs(Mean(effects));
    extreme := 0;
    for i := 0 to |draws|
      invariant extreme == DrawHits(effects, Bar(effects, tolerance), draws[..i])
      invariant extreme <= i
    {
      var total := MaskTotal(effects, draws[i]);
      ExtremeIsBar(effects, tolerance, total);
      assert draws[..i + 1][..i] == draws[..i];
      extreme := extreme + (if Extreme(total, |effects|, tolerance, observed) then 1 else 0);
    }
    assert draws[..|draws|] == draws;
  }

  lemma SharePublishes(hits: real, whole: real)
    requires hits >= 0.0 && whole > 0.0
    ensures 0.0 <= Published(hits / whole) <= 1.0
  {
    assert hits / whole >= 0.0;
    PublishedBounds(hits / whole);
  }

  lemma PValueRange(effects: seq<real>, limit: nat, tolerance: real, draws: seq<nat>)
    ensures 0.0 <= PValue(effects, limit, tolerance, draws) <= 1.0
  {
    var bar := Bar(effects, tolerance);
    PublishedBounds(Assignments(effects, 0.0, bar) as real / Pow2(|effects|) as real);
    var p := (DrawHits(effects, bar, draws) as real + 1.0) / (|draws| as real + 1.0);
    assert p > 0.0;
    PublishedBounds(p);
  }

  // ----- symmetries of the count -----

  function Negated(effects: seq<real>): (r: seq<real>)
    ensures |r| == |effects|
  {
    if effects == [] then [] else [-effects[0]] + Negated(effects[1..])
  }

  lemma {:induction false} AssignmentsMirror(effects: seq<real>, start: real, bar: real)
    ensures Assignments(effects, -start, bar) == Assignments(effects, start, bar)
    decreases |effects|
  {
    if effects != [] {
      AssignmentsMirror(effects[1..], start + effects[0], bar);
      AssignmentsMirror(effects[1..], start - effects[0], bar);
      assert -(start + effects[0]) == -start - effects[0];
      assert -(start - effects[0]) == -start + effects[0];
    }
  }

  lemma {:induction false} AssignmentsNegated(effects: seq<real>, start: real, bar: real)
    ensures Assignments(Negated(effects), start, bar) == Assignments(effects, start, bar)
    decreases |effects|
  {
    if effects != [] {
      var n := Negated(effects);
      assert n[1..] == Negated(effects[1..]) && n[0] == -effects[0];
      AssignmentsNegated(effects[1..], start + effects[0], bar);
      AssignmentsNegated(effects[1..], start - effects[0], bar);
      assert start + n[0] == start - effects[0] && start - n[0] == start + effects[0];
    }
  }

  lemma {:induction false} SumNegated(effects: seq<real>)
    ensures Sum(Negated(effects)) == -Sum(effects)
    ensures AbsSum(Negated(effects)) == AbsSum(effects)
    ensures Zeros(Negated(effects)) == Zeros(effects)
    ensures forall i :: 0 <= i < |effects| ==> Negated(effects)[i] == -effects[i]
    decreases |effects|
  {
    if effects != [] {
      SumNegated(effects[1..]);
      assert Negated(effects)[1..] == Negated(effects[1..]);
    }
  }

  lemma {:induction false} AssignmentsTotal(effects: seq<real>, start: real, bar: real)
    ensures Assignments(effects, start, bar) <= Pow2(|effects|)
    ensures bar <= 0.0 ==> Assignments(effects, start, bar) == Pow2(|effects|)
    decreases |effects|
  {
    if effects != [] {
      AssignmentsTotal(effects[1..], start + effects[0], bar);
      AssignmentsTotal(effects[1..], start - effects[0], bar);
    }
  }

  // ----- how few masks can be extreme -----

  function Zeros(effects: seq<real>): nat {
    if effects == [] then 0 else (if effects[0] == 0.0 then 1 else 0) + Zeros(effects[1..])
  }

  function AbsSum(effects: seq<real>): real {
    if effects == [] then 0.0 else Abs(effects[0]) + AbsSum(effects[1..])
  }

  lemma {:induction false} ZerosBound(effects: seq<real>)
    ensures Zeros(effects) <= |effects|
    ensures Zeros(effects) == |effects| ==> Sum(effects) == 0.0
  {
    if effects != [] {
      ZerosBound(effects[1..]);
    }
  }

  /** Every way of flipping zeros leaves a total that already reaches the bar. */
  lemma {:induction false} KeepAll(effects: seq<real>, start: real, bar: real)
    requires Abs(start + Sum(effects)) >= bar
    ensures Assignments(effects, start, bar) >= Pow2(Zeros(effects))
    decreases |effects|
  {
    if effects != [] {
      KeepAll(effects[1..], start + effects[0], bar);
    }
  }

  lemma {:induction false} FlipAll(effects: seq<real>, start: real, bar: real)
    requires Abs(start - Sum(effects)) >= bar
    ensures Assignments(effects, start, bar) >= Pow2(Zeros(effects))
    decreases |effects|
  {
    if effects != [] {
      FlipAll(effects[1..], start - effects[0], bar);
    }
  }

  lemma {:induction false} AlignAll(effects: seq<real>, start: real, bar: real)
    requires Abs(start + AbsSum(effects)) >= bar
    ensures Assignments(effects, start, bar) >= Pow2(Zeros(effects))
    decreases |effects|
  {
    if effects != [] {
      AlignAll(effects[1..], start + Abs(effects[0]), bar);
    }
  }

  /** With k >= 1 non-zero effects at least 2^(n-k+1) assignments are extreme. */
  lemma {:induction false} ExtremeFloor(effects: seq<real>, bar: real)
    requires bar <= Abs(Sum(effects))
    requires Zeros(effects) < |effects|
    ensures Assignments(effects, 0.0, bar) >= 2 * Pow2(Zeros(effects))
    decreases |effects|
  {
    var rest := effects[1..];
    if effects[0] == 0.0 {
      ExtremeFloor(rest, bar);
    } else {
      KeepAll(rest, effects[0], bar);
      FlipAll(rest, -effects[0], bar);
    }
  }

  // ----- when the floor is reached -----

  ghost predicate SameSign(effects: seq<real>) {
    || (forall e :: e in effects ==> e >= 0.0)
    || (forall e :: e in effects ==> e <= 0.0)
  }

  lemma {:induction false} OutOfReach(effects: seq<real>, start: real, bar: real)
    requires Abs(start) + AbsSum(effects) < bar
    ensures Assignments(effects, start, bar) == 0
    decreases |effects|
  {
    if effects != [] {
      OutOfReach(effects[1..], start + effects[0], bar);
      OutOfReach(effects[1..], start - effects[0], bar);
    }
  }

  /** From a positive start, non-negative effects reach the top only unflipped. */
  lemma {:induction false} OnlyAligned(effects: seq<real>, start: real)
    requires start > 0.0
    requires forall e :: e in effects ==> e >= 0.0
    ensures Assignments(effects, start, start + Sum(effects)) == Pow2(Zeros(effects))
    ensures AbsSum(effects) == Sum(effects) >= 0.0
    decreases |effects|
  {
    if effects != [] {
      var rest, e := effects[1..], effects[0];
      assert e in effects && forall x :: x in rest ==> x in effects;
      OnlyAligned(rest, start + e);
      assert start + Sum(effects) == start + e + Sum(rest);
      if e > 0.0 {
        OutOfReach(rest, start - e, start + Sum(effects));
      }
    }
  }

  lemma {:induction false} AlignedCount(effects: seq<real>)
    requires forall e :: e in effects ==> e >= 0.0
    requires Zeros(effects) < |effects|
    ensures Sum(effects) >= 0.0
    ensures Assignments(effects, 0.0, Sum(effects)) == 2 * Pow2(Zeros(effects))
    decreases |effects|
  {
    var rest, e := effects[1..], effects[0];
    assert e in effects && forall x :: x in rest ==> x in effects;
    if e == 0.0 {
      AlignedCount(rest);
    } else {
      OnlyAligned(rest, e);
      AssignmentsMirror(rest, e, Sum(effects));
      assert 0.0 - e == -e;
    }
  }

  /** Mixed signs add the fully aligned assignment, which is at least as extreme. */
  lemma {:induction false} MixedExtra(effects: seq<real>, start: real, bar: real)
    requires Abs(start + Sum(effects)) >= bar && Abs(start + AbsSum(effects)) >= bar
    requires exists e :: e in effects && e < 0.0
    ensures Assignments(effects, start, bar) >= 2 * Pow2(Zeros(effects))
    decreases |effects|
  {
    var rest, e := effects[1..], effects[0];
    if e < 0.0 {
      KeepAll(rest, start + e, bar);
      AlignAll(rest, start - e, bar);
    } else {
      assert exists x :: x in rest && x < 0.0 by {
        var x :| x in effects && x < 0.0;
        assert x in rest;
      }
      MixedExtra(rest, start + e, bar);
    }
  }

  lemma {:induction false} AbsSumDominates(effects: seq<real>)
    ensures Abs(Sum(effects)) <= AbsSum(effects)
    decreases |effects|
  {
    if effects != [] { AbsSumDominates(effects[1..]); }
  }

  lemma {:induction false} MixedCount(effects: seq<real>, bar: real)
    requires exists e :: e in effects && e < 0.0
    requires exists e :: e in effects && e > 0.0
    requires bar <= Abs(Sum(effects))
    ensures Assignments(effects, 0.0, bar) > 2 * Pow2(Zeros(effects))
    decreases |effects|, if |effects| > 0 && effects[0] < 0.0 then 1 else 0
  {
    var rest, e := effects[1..], effects[0];
    if e == 0.0 {
      forall x | x in effects && x != 0.0 ensures x in rest { }
      MixedCount(rest, bar);
    } else if e < 0.0 {
      SumNegated(effects);
      AssignmentsNegated(effects, 0.0, bar);
      var lo :| lo in effects && lo < 0.0;
      var hi :| hi in effects && hi > 0.0;
      var i :| 0 <= i < |effects| && effects[i] == lo;
      var j :| 0 <= j < |effects| && effects[j] == hi;
      assert Negated(effects)[i] in Negated(effects) && Negated(effects)[j] in Negated(effects);
      MixedCount(Negated(effects), bar);
    } else {
      forall x | x in effects && x < 0.0 ensures x in rest { }
      AbsSumDominates(effects);
      MixedExtra(rest, e, bar);
      FlipAll(rest, -e, bar);
    }
  }

  lemma NegativeCount(effects: seq<real>)
    requires Zeros(effects) < |effects| && forall e :: e in effects ==> e <= 0.0
    ensures Assignments(effects, 0.0, Abs(Sum(effects))) == 2 * Pow2(Zeros(effects))
  {
    SumNegated(effects);
    forall x | x in Negated(effects) ensures x >= 0.0 {
      var i :| 0 <= i < |effects| && Negated(effects)[i] == x;
      assert effects[i] in effects;
    }
    AlignedCount(Negated(effects));
    AssignmentsNegated(effects, 0.0, Sum(Negated(effects)));
  }

  /** At zero tolerance the floor is met exactly when all non-zero effects agree in sign. */
  lemma FloorReached(effects: seq<real>)
    requires Zeros(effects) < |effects|
    ensures Assignments(effects, 0.0, Bar(effects, 0.0)) == 2 * Pow2(Zeros(effects)) <==> SameSign(effects)
  {
    if forall e :: e in effects ==> e >= 0.0 {
      AlignedCount(effects);
    } else if forall e :: e in effects ==> e <= 0.0 {
      NegativeCount(effects);
    } else {
      MixedCount(effects, Bar(effects, 0.0));
    }
  }
}
