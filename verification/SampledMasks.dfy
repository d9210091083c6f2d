/**
  The sampled branch of the sign-flip test (src/llm_hardtest/paired_comparison.py:104-115): what
  the draws are worth when they list every mask, and what one-sided effects give on either branch.
 */
module SampledMasks {
  import opened Numbers
  import opened Sequences
  import opened SignFlip
  import opened Resolution
  import opened Holm

  // ----- draws that list every mask -----

  /** Every mask below the limit, in order. */
  function Masks(limit: nat): (r: seq<nat>)
    ensures |r| == limit && forall i :: 0 <= i < limit ==> r[i] == i
  {
    seq(limit, i => i)
  }

  lemma {:induction false} HitsAreCounted(effects: seq<real>, bar: real, limit: nat)
    ensures HitsBelow(effects, 0.0, bar, limit) == DrawHits(effects, bar, Masks(limit))
  {
    if limit > 0 {
      HitsAreCounted(effects, bar, limit - 1);
      assert Masks(limit)[..limit - 1] == Masks(limit - 1);
      assert 0.0 + Signed(effects, limit - 1) == Signed(effects, limit - 1);
    }
  }

  /** Draws that name every mask once find what the enumeration finds. */
  lemma EveryMaskDrawn(effects: seq<real>, bar: real, draws: seq<nat>)
    requires NoDuplicates(draws) && forall mask: nat :: mask in draws <==> mask < Pow2(|effects|)
    ensures |ExtremeDraws(effects, bar, draws)| == Assignments(effects, 0.0, bar)
  {
    var masks := Masks(Pow2(|effects|));
    forall mask: nat ensures mask in draws <==> mask in masks {
      if mask < Pow2(|effects|) { assert masks[mask] == mask; }
    }
    SameElements(draws, masks);
    CountPermutation(draws, masks, Reaching(effects, bar));
    HitsAreCounted(effects, bar, Pow2(|effects|));
    MasksAreAssignments(effects, 0.0, bar);
    DrawHitsAreExtremes(effects, bar, draws);
  }

  // ----- one-sided effects -----

  /** The mask keeps, or flips, every effect that is not zero. */
  ghost predicate KeepsAll(effects: seq<real>, mask: nat) {
    forall i: nat :: i < |effects| && effects[i] != 0.0 ==> Bit(mask, i)
  }

  ghost predicate FlipsAll(effects: seq<real>, mask: nat) {
    forall i: nat :: i < |effects| && effects[i] != 0.0 ==> !Bit(mask, i)
  }

  /** The effects a mask keeps, added up, and those it flips. */
  function KeptSum(effects: seq<real>, mask: nat): real {
    if effects == [] then 0.0 else (if mask % 2 == 1 then effects[0] else 0.0) + KeptSum(effects[1..], mask / 2)
  }

  function FlippedSum(effects: seq<real>, mask: nat): real {
    if effects == [] then 0.0 else (if mask % 2 == 1 then 0.0 else effects[0]) + FlippedSum(effects[1..], mask / 2)
  }

  lemma {:induction false} SignedSplits(effects: seq<real>, mask: nat)
    ensures Signed(effects, mask) == KeptSum(effects, mask) - FlippedSum(effects, mask)
    ensures Sum(effects) == KeptSum(effects, mask) + FlippedSum(effects, mask)
    decreases |effects|
  {
    if effects != [] { SignedSplits(effects[1..], mask / 2); }
  }

  /** Zero or larger than the cut. */
  ghost predicate Upward(effects: seq<real>, cut: real) {
    forall i :: 0 <= i < |effects| ==> effects[i] == 0.0 || effects[i] > cut
  }

  ghost predicate ZeroOrAbove(x: real, cut: real) {
    x == 0.0 || x > cut
  }

  lemma {:induction false} KeptIsZeroOrAbove(effects: seq<real>, cut: real, mask: nat)
    requires cut >= 0.0 && Upward(effects, cut)
    ensures ZeroOrAbove(KeptSum(effects, mask), cut) && KeptSum(effects, mask) >= 0.0
    ensures KeptSum(effects, mask) == 0.0 <==> FlipsAll(effects, mask)
    decreases |effects|
  {
    if effects != [] {
      KeptIsZeroOrAbove(effects[1..], cut, mask / 2);
      AllAfterFirst(effects, mask);
    }
  }

  lemma {:induction false} FlippedIsZeroOrAbove(effects: seq<real>, cut: real, mask: nat)
    requires cut >= 0.0 && Upward(effects, cut)
    ensures ZeroOrAbove(FlippedSum(effects, mask), cut) && FlippedSum(effects, mask) >= 0.0
    ensures FlippedSum(effects, mask) == 0.0 <==> KeepsAll(effects, mask)
    decreases |effects|
  {
    if effects != [] {
      FlippedIsZeroOrAbove(effects[1..], cut, mask / 2);
      AllAfterFirst(effects, mask);
    }
  }

  lemma AllAfterFirst(effects: seq<real>, mask: nat)
    requires effects != []
    ensures KeepsAll(effects, mask) <==>
      (effects[0] != 0.0 ==> mask % 2 == 1) && KeepsAll(effects[1..], mask / 2)
    ensures FlipsAll(effects, mask) <==>
      (effects[0] != 0.0 ==> mask % 2 == 0) && FlipsAll(effects[1..], mask / 2)
  {
    assert Bit(mask, 0) <==> mask % 2 == 1;
    forall i: nat | i < |effects| - 1
      ensures effects[i + 1] == effects[1..][i] && Bit(mask, i + 1) == Bit(mask / 2, i)
    {
    }
    if KeepsAll(effects[1..], mask / 2) && (effects[0] != 0.0 ==> mask % 2 == 1) {
      forall i: nat | i < |effects| && effects[i] != 0.0 ensures Bit(mask, i) {
        if i > 0 { assert effects[1..][i - 1] == effects[i]; }
      }
    }
    if FlipsAll(effects[1..], mask / 2) && (effects[0] != 0.0 ==> mask % 2 == 0) {
      forall i: nat | i < |effects| && effects[i] != 0.0 ensures !Bit(mask, i) {
        if i > 0 { assert effects[1..][i - 1] == effects[i]; }
      }
    }
  }

  lemma OneMustVanish(kept: real, flipped: real, cut: real, bar: real)
    requires kept >= 0.0 && flipped >= 0.0 && cut >= 0.0 && ZeroOrAbove(kept, cut) && ZeroOrAbove(flipped, cut)
    requires bar == Abs(kept + flipped) - 2.0 * cut
    ensures Abs(kept - flipped) >= bar <==> kept == 0.0 || flipped == 0.0
  {
  }

  lemma UpwardDraw(effects: seq<real>, cut: real, bar: real, mask: nat)
    requires cut >= 0.0 && Upward(effects, cut) && bar == Abs(Sum(effects)) - 2.0 * cut
    ensures Abs(Signed(effects, mask)) >= bar <==> KeepsAll(effects, mask) || FlipsAll(effects, mask)
  {
    SignedSplits(effects, mask);
    KeptIsZeroOrAbove(effects, cut, mask);
    FlippedIsZeroOrAbove(effects, cut, mask);
    OneMustVanish(KeptSum(effects, mask), FlippedSum(effects, mask), cut, bar);
  }

  lemma {:induction false} SignedNegated(effects: seq<real>, mask: nat)
    ensures Signed(Negated(effects), mask) == -Signed(effects, mask)
    decreases |effects|
  {
    if effects != [] {
      SignedNegated(effects[1..], mask / 2);
      assert Negated(effects)[1..] == Negated(effects[1..]);
    }
  }

  /** Effects of one sign, each zero or beyond the audit's cut: a mask is extreme exactly when it keeps or
      flips all the non-zero ones. */
  lemma OneSidedDraw(effects: seq<real>, tolerance: real, mask: nat)
    requires tolerance >= 0.0 && SameSign(effects) && ZeroOrBeyond(effects, Cut(|effects|, tolerance))
    ensures Abs(Signed(effects, mask)) >= Bar(effects, tolerance)
       <==> KeepsAll(effects, mask) || FlipsAll(effects, mask)
  {
    var cut := Cut(|effects|, tolerance);
    CutIsHalf(|effects| as real, tolerance);
    if forall e :: e in effects ==> e >= 0.0 {
      NoneBelow(effects, cut);
      UpwardDraw(effects, cut, Bar(effects, tolerance), mask);
    } else {
      DownwardDraw(effects, cut, Bar(effects, tolerance), mask);
    }
  }

  lemma NoneBelow(effects: seq<real>, cut: real)
    requires cut >= 0.0 && ZeroOrBeyond(effects, cut) && forall e :: e in effects ==> e >= 0.0
    ensures Upward(effects, cut)
  {
    forall i | 0 <= i < |effects| ensures effects[i] == 0.0 || effects[i] > cut {
      assert effects[i] in effects;
    }
  }

  lemma DownwardDraw(effects: seq<real>, cut: real, bar: real, mask: nat)
    requires cut >= 0.0 && ZeroOrBeyond(effects, cut) && bar == Abs(Sum(effects)) - 2.0 * cut
    requires forall e :: e in effects ==> e <= 0.0
    ensures Abs(Signed(effects, mask)) >= bar <==> KeepsAll(effects, mask) || FlipsAll(effects, mask)
  {
    var up := Negated(effects);
    SumNegated(effects);
    SignedNegated(effects, mask);
    forall i | 0 <= i < |effects| ensures up[i] == 0.0 || up[i] > cut {
      assert effects[i] in effects;
    }
    UpwardDraw(up, cut, bar, mask);
    SameZeros(effects, up, mask);
  }

  lemma SameZeros(a: seq<real>, b: seq<real>, mask: nat)
    requires |a| == |b| && forall i: nat :: i < |a| ==> (a[i] == 0.0 <==> b[i] == 0.0)
    ensures KeepsAll(a, mask) == KeepsAll(b, mask) && FlipsAll(a, mask) == FlipsAll(b, mask)
  {
  }

  lemma CutIsHalf(n: real, tolerance: real)
    requires tolerance >= 0.0 && n >= 0.0
    ensures tolerance * n / 2.0 >= 0.0 && 2.0 * (tolerance * n / 2.0) == tolerance * n
  {
  }

  /** So under any draws that each flip some but not all of them, the sampled branch publishes the least
      value it can: one over the number of draws plus one. */
  lemma OneSidedPublishes(effects: seq<real>, limit: nat, tolerance: real, draws: seq<nat>)
    requires tolerance >= 0.0 && SameSign(effects) && ZeroOrBeyond(effects, Cut(|effects|, tolerance))
    requires limit < Pow2(|effects|)
    requires forall mask :: mask in draws ==> !KeepsAll(effects, mask) && !FlipsAll(effects, mask)
    ensures PValue(effects, limit, tolerance, draws) == Published(1.0 / (|draws| as real + 1.0))
  {
    var bar := Bar(effects, tolerance);
    forall i | 0 <= i < |draws| ensures Abs(Signed(effects, draws[i])) < bar {
      assert draws[i] in draws;
      OneSidedDraw(effects, tolerance, draws[i]);
    }
    assert ExtremeDraws(effects, bar, draws) == {};
    DrawHitsAreExtremes(effects, bar, draws);
  }

  // ----- one-sided effects, enumerated -----

  /** From a start beyond the cut, only keeping every non-zero effect comes within two cuts of the top. */
  lemma {:induction false} OnlyKept(effects: seq<real>, start: real, cut: real, bar: real)
    requires start > cut >= 0.0 && Upward(effects, cut) && bar == start + Sum(effects) - 2.0 * cut
    ensures Assignments(effects, start, bar) == Pow2(Zeros(effects))
    ensures AbsSum(effects) == Sum(effects) >= 0.0
    decreases |effects|
  {
    if effects != [] {
      var rest, e := effects[1..], effects[0];
      OnlyKept(rest, start + e, cut, bar);
      if e > 0.0 { OutOfReach(rest, start - e, bar); }
    }
  }

  lemma {:induction false} UpwardCount(effects: seq<real>, cut: real, bar: real)
    requires cut >= 0.0 && Upward(effects, cut) && Zeros(effects) < |effects| && bar == Sum(effects) - 2.0 * cut
    ensures Sum(effects) >= 0.0 && Assignments(effects, 0.0, bar) == 2 * Pow2(Zeros(effects))
    decreases |effects|
  {
    var rest, e := effects[1..], effects[0];
    if e == 0.0 {
      UpwardCount(rest, cut, bar);
    } else {
      OnlyKept(rest, e, cut, bar);
      AssignmentsMirror(rest, e, bar);
      assert 0.0 - e == -e;
    }
  }

  lemma OneSidedCount(effects: seq<real>, tolerance: real)
    requires tolerance >= 0.0 && ZeroOrBeyond(effects, Cut(|effects|, tolerance)) && Zeros(effects) < |effects|
    ensures Assignments(effects, 0.0, Bar(effects, tolerance)) == 2 * Pow2(Zeros(effects)) <==> SameSign(effects)
  {
    CutIsHalf(|effects| as real, tolerance);
    CountAtBar(effects, Cut(|effects|, tolerance), Bar(effects, tolerance));
  }

  lemma CountAtBar(effects: seq<real>, cut: real, bar: real)
    requires cut >= 0.0 && ZeroOrBeyond(effects, cut) && Zeros(effects) < |effects|
    requires bar == Abs(Sum(effects)) - 2.0 * cut
    ensures Assignments(effects, 0.0, bar) == 2 * Pow2(Zeros(effects)) <==> SameSign(effects)
  {
    if forall e :: e in effects ==> e >= 0.0 {
      NoneBelow(effects, cut);
      UpwardCount(effects, cut, Sum(effects) - 2.0 * cut);
    } else if forall e :: e in effects ==> e <= 0.0 {
      DownwardCount(effects, cut, bar);
    } else {
      MixedCount(effects, bar);
    }
  }

  lemma DownwardCount(effects: seq<real>, cut: real, bar: real)
    requires cut >= 0.0 && ZeroOrBeyond(effects, cut) && Zeros(effects) < |effects|
    requires bar == Abs(Sum(effects)) - 2.0 * cut && forall e :: e in effects ==> e <= 0.0
    ensures Assignments(effects, 0.0, bar) == 2 * Pow2(Zeros(effects))
  {
    var up := Negated(effects);
    SumNegated(effects);
    forall i | 0 <= i < |effects| ensures up[i] == 0.0 || up[i] > cut {
      assert effects[i] in effects;
    }
    UpwardCount(up, cut, Sum(up) - 2.0 * cut);
    AssignmentsNegated(effects, 0.0, bar);
  }

  lemma ShareIsFloor(hits: nat, count: nat, pairs: nat)
    requires 0 < pairs <= count
    ensures hits as real / Pow2(count) as real == RawFloor(pairs) <==> hits == 2 * Pow2(count - pairs)
  {
    ShareFromCount(hits, count, pairs);
    if hits > 0 {
      ShareFromCount(hits - 1, count, pairs);
      LessOver((hits - 1) as real, hits as real, Pow2(count) as real);
    }
    ShareFromCount(hits + 1, count, pairs);
    if hits == 2 * Pow2(count - pairs) { AtTheFloor(hits, count, pairs); }
  }

  lemma LessOver(a: real, b: real, whole: real)
    requires a < b && whole > 0.0
    ensures a / whole < b / whole
  {
  }

  lemma AtTheFloor(hits: nat, count: nat, pairs: nat)
    requires 0 < pairs <= count && hits == 2 * Pow2(count - pairs)
    ensures hits as real / Pow2(count) as real == RawFloor(pairs)
  {
    Pow2Sum(pairs - 1, count - pairs + 1);
    FloorIsReciprocal(pairs);
    PartOfWhole(Pow2(count), Pow2(pairs - 1), hits);
  }

  lemma FloorIsReciprocal(pairs: nat)
    requires pairs > 0
    ensures RawFloor(pairs) == 1.0 / Pow2(pairs - 1) as real
  {
  }

  lemma PartOfWhole(whole: nat, part: nat, rest: nat)
    requires whole == part * rest && part > 0 && rest > 0
    ensures whole > 0 && rest as real / whole as real == 1.0 / part as real
  {
    AsReals(whole, part, rest);
    OverProduct(whole as real, part as real, rest as real);
  }

  lemma AsReals(whole: nat, part: nat, rest: nat)
    requires whole == part * rest
    ensures whole as real == part as real * rest as real
  {
  }

  lemma OverProduct(whole: real, part: real, rest: real)
    requires whole == part * rest && part > 0.0 && rest > 0.0
    ensures whole > 0.0 && rest / whole == 1.0 / part
  {
    assert 1.0 / part * whole == rest;
    DivideProduct(whole, 1.0 / part, rest);
  }

  /** Where no effect is ignored, the exact share is the audited floor exactly when all effects agree in sign. */
  lemma FloorIsAttainedExactly(effects: seq<real>, tolerance: real)
    requires tolerance >= 0.0 && ZeroOrBeyond(effects, Cut(|effects|, tolerance)) && Zeros(effects) < |effects|
    ensures Share(effects, tolerance) == RawFloor(Beyond(effects, Cut(|effects|, tolerance))) <==> SameSign(effects)
  {
    CutIsHalf(|effects| as real, tolerance);
    BeyondAreNonzero(effects, Cut(|effects|, tolerance));
    OneSidedCount(effects, tolerance);
    ShareIsFloor(Assignments(effects, 0.0, Bar(effects, tolerance)), |effects|,
                 Beyond(effects, Cut(|effects|, tolerance)));
  }

  /** For such effects the audit reports no limit exactly when the strictest Holm multiplier leaves their share
      below alpha, and its corrected floor is the adjusted value of that share at the first rank. */
  lemma AuditIsSharp(effects: seq<real>, tolerance: real, family: nat, alpha: real, objective: int)
    requires tolerance >= 0.0 && ZeroOrBeyond(effects, Cut(|effects|, tolerance)) && Zeros(effects) < |effects|
    requires SameSign(effects)
    ensures
      var pairs, share := Beyond(effects, Cut(|effects|, tolerance)), Share(effects, tolerance);
      && (Sufficient(pairs, family, alpha) <==> share * family as real < alpha)
      && HolmFloor(pairs, family) == Adjusted([Key(share, objective)], family, 0)
  {
    FloorIsAttainedExactly(effects, tolerance);
    FloorIsSharp(Beyond(effects, Cut(|effects|, tolerance)), Share(effects, tolerance), family, alpha, objective);
  }

  lemma FloorIsSharp(pairs: nat, share: real, family: nat, alpha: real, objective: int)
    requires share == RawFloor(pairs)
    ensures Sufficient(pairs, family, alpha) <==> share * family as real < alpha
    ensures HolmFloor(pairs, family) == Adjusted([Key(share, objective)], family, 0)
  {
    FirstRank(Key(share, objective), family);
  }

  lemma FirstRank(key: Key, family: nat)
    requires 0.0 <= key.p
    ensures Adjusted([key], family, 0) == Min(1.0, key.p * family as real)
  {
    assert key.p * family as real >= 0.0;
  }
}
