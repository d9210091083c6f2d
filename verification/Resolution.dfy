/**
  The discrete resolution audit (src/llm_hardtest/paired_comparison.py:134-168): the best
  p-value a sign-flip test can reach, and how many non-zero pairs Holm's strictest rank needs.
 */
module Resolution {
  import opened Numbers
  import opened SignFlip

  /** min(1, 2^(1 - pairs)). */
  function RawFloor(pairs: nat): (r: real)
    ensures 0.0 < r <= 1.0
  {
    if pairs <= 1 then 1.0 else 1.0 / Pow2(pairs - 1) as real
  }

  lemma RawFloorAntitone(a: nat, b: nat)
    requires a <= b
    ensures RawFloor(b) <= RawFloor(a)
  {
    if a > 1 {
      Pow2Monotone(a - 1, b - 1);
      ReciprocalOrder(Pow2(a - 1) as real, Pow2(b - 1) as real);
    }
  }

  lemma ReciprocalOrder(a: real, b: real)
    requires 0.0 < a <= b
    ensures 1.0 / b <= 1.0 / a
  {
  }

  // ----- the search for the least sufficient pair count -----

  predicate Sufficient(pairs: nat, family: int, alpha: real) {
    RawFloor(pairs) * family as real < alpha
  }

  ghost predicate LeastSufficient(pairs: nat, family: int, alpha: real) {
    Sufficient(pairs, family, alpha) && forall k: nat :: k < pairs ==> !Sufficient(k, family, alpha)
  }

  lemma {:induction false} Pow2Grows(n: nat)
    ensures Pow2(n) >= n + 1
  {
    if n > 0 { Pow2Grows(n - 1); }
  }

  /** A count that is not yet sufficient is bounded, so the search must end. */
  lemma InsufficientIsBounded(pairs: nat, family: int, alpha: real)
    requires alpha > 0.0 && family > 0 && !Sufficient(pairs, family, alpha)
    ensures pairs <= Ceil(family as real / alpha) + 1
  {
    var cap := family as real / alpha;
    assert cap * alpha == family as real;
    assert cap > 0.0;
    if pairs > 1 {
      var p := Pow2(pairs - 1) as real;
      Pow2Grows(pairs - 1);
      ShareBoundsCount(p, family as real, alpha, cap);
    }
  }

  lemma ShareBoundsCount(p: real, family: real, alpha: real, cap: real)
    requires p > 0.0 && alpha > 0.0 && (1.0 / p) * family >= alpha && cap * alpha == family
    ensures cap >= p
  {
    var share := 1.0 / p;
    assert share * p == 1.0;
    assert share * family * p == family;
    assert (share * family - alpha) * p >= 0.0;
    assert (cap - p) * alpha >= 0.0;
  }

  method MinimumNonzeroPairs(family: int, alpha: real) returns (pairs: nat)
    requires alpha > 0.0
    ensures family <= 0 ==> pairs == 0
    ensures family > 0 ==> LeastSufficient(pairs, family, alpha)
  {
    pairs := 0;
    if family <= 0 {
      return;
    }
    ghost var bound := Ceil(family as real / alpha) + 1;
    while !Sufficient(pairs, family, alpha)
      invariant forall k: nat :: k < pairs ==> !Sufficient(k, family, alpha)
      decreases bound - pairs
    {
      InsufficientIsBounded(pairs, family, alpha);
      pairs := pairs + 1;
    }
  }

  /** Fewer pairs than required means exactly that the floor misses alpha. */
  lemma BelowRequired(required: nat, pairs: nat, family: int, alpha: real)
    requires family > 0 && LeastSufficient(required, family, alpha)
    ensures pairs < required <==> !Sufficient(pairs, family, alpha)
  {
    if required <= pairs {
      RawFloorAntitone(required, pairs);
      ProductOrder(RawFloor(pairs), RawFloor(required), family as real);
    }
  }

  lemma ProductOrder(x: real, y: real, factor: real)
    requires x <= y && factor >= 0.0
    ensures x * factor <= y * factor
  {
    assert (y - x) * factor >= 0.0;
  }

  // ----- the audit of one objective -----

  function Beyond(effects: seq<real>, cut: real): nat {
    if effects == [] then 0 else (if Abs(effects[0]) > cut then 1 else 0) + Beyond(effects[1..], cut)
  }

  /** The size an effect must exceed to count as non-zero. */
  function Cut(count: nat, tolerance: real): real {
    tolerance * count as real / 2.0
  }

  /** The floor after the strictest Holm multiplier. */
  function HolmFloor(pairs: nat, family: int): real {
    Min(1.0, RawFloor(pairs) * family as real)
  }

  datatype Audit = Audit(
    limited: bool, cut: real, nonzero: nat, rawFloor: real, holmFloor: real, required: nat, additional: nat)

  method CountBeyond(effects: seq<real>, cut: real) returns (count: nat)
    ensures count == Beyond(effects, cut)
  {
    count := 0;
    for i := 0 to |effects|
      invariant count + Beyond(effects[i..], cut) == Beyond(effects, cut)
    {
      assert effects[i..][1..] == effects[i + 1..];
      count := count + (if Abs(effects[i]) > cut then 1 else 0);
    }
  }

  method InferenceResolution(effects: seq<real>, family: int, tolerance: real, alpha: real) returns (audit: Audit)
    requires alpha > 0.0 && family > 0
    ensures audit.cut == Cut(|effects|, tolerance) && audit.nonzero == Beyond(effects, audit.cut)
    ensures audit.rawFloor == RawFloor(audit.nonzero)
    ensures audit.holmFloor == HolmFloor(audit.nonzero, family)
    ensures LeastSufficient(audit.required, family, alpha)
    ensures audit.limited <==> !Sufficient(audit.nonzero, family, alpha)
    ensures audit.nonzero + audit.additional >= audit.required
    ensures audit.additional > 0 ==> audit.nonzero + audit.additional == audit.required
    ensures audit.limited <==> audit.additional > 0
  {
    var cut := Cut(|effects|, tolerance);
    var nonzero := CountBeyond(effects, cut);
    var floor := RawFloor(nonzero);
    var required := MinimumNonzeroPairs(family, alpha);
    BelowRequired(required, nonzero, family, alpha);
    var additional := if required > nonzero then required - nonzero else 0;
    audit := Audit(additional != 0, cut, nonzero, floor, HolmFloor(nonzero, family), required, additional);
  }

  // ----- the floor against the test it describes -----

  /** The share of sign assignments the exact test finds extreme. */
  function Share(effects: seq<real>, tolerance: real): real {
    Assignments(effects, 0.0, Bar(effects, tolerance)) as real / Pow2(|effects|) as real
  }

  ghost predicate ZeroOrBeyond(effects: seq<real>, cut: real) {
    forall i :: 0 <= i < |effects| ==> effects[i] == 0.0 || Abs(effects[i]) > cut
  }

  lemma {:induction false} BeyondAreNonzero(effects: seq<real>, cut: real)
    requires cut >= 0.0 && ZeroOrBeyond(effects, cut)
    ensures Beyond(effects, cut) + Zeros(effects) == |effects|
  {
    if effects != [] { BeyondAreNonzero(effects[1..], cut); }
  }

  lemma ShareFromCount(hits: nat, count: nat, pairs: nat)
    requires pairs <= count
    ensures pairs == 0 ==> (hits as real / Pow2(count) as real >= RawFloor(pairs) <==> hits >= Pow2(count))
    ensures pairs > 0 ==> (hits as real / Pow2(count) as real >= RawFloor(pairs) <==> hits >= 2 * Pow2(count - pairs))
  {
    var whole := Pow2(count);
    if pairs > 1 {
      var part := Pow2(pairs - 1);
      Pow2Sum(pairs - 1, count - pairs + 1);
      assert whole == part * (2 * Pow2(count - pairs));
      FractionAtLeast(hits, whole, 1, part);
      assert hits * part >= part * (2 * Pow2(count - pairs)) <==> hits >= 2 * Pow2(count - pairs) by {
        CancelFactor(part, hits, 2 * Pow2(count - pairs));
      }
    } else {
      FractionAtLeast(hits, whole, 1, 1);
    }
  }

  lemma CancelFactor(f: nat, a: nat, b: nat)
    requires f > 0
    ensures a * f >= f * b <==> a >= b
  {
    if a < b { assert f * (b - a) > 0; } else { assert f * (a - b) >= 0; }
  }

  lemma FractionAtLeast(a: nat, b: nat, c: nat, d: nat)
    requires b > 0 && d > 0
    ensures a as real / b as real >= c as real / d as real <==> a * d >= c * b
  {
    var x, y := a as real / b as real, c as real / d as real;
    assert x * b as real == a as real && y * d as real == c as real;
    var scale := b as real * d as real;
    assert scale > 0.0;
    assert x * scale == a as real * d as real && y * scale == c as real * b as real;
    assert (x - y) * scale == x * scale - y * scale;
    if x < y { assert (x - y) * scale < 0.0; }
    assert a as real * d as real == (a * d) as real && c as real * b as real == (c * b) as real;
  }

  /** The exact test never reports less than the audited floor when no effect is tiny. */
  lemma AuditedFloor(effects: seq<real>, tolerance: real)
    requires tolerance >= 0.0 && ZeroOrBeyond(effects, Cut(|effects|, tolerance))
    ensures Share(effects, tolerance) >= RawFloor(Beyond(effects, Cut(|effects|, tolerance)))
    ensures Published(Share(effects, tolerance)) >= RawFloor(Beyond(effects, Cut(|effects|, tolerance)))
  {
    var cut, bar := Cut(|effects|, tolerance), Bar(effects, tolerance);
    assert tolerance * |effects| as real >= 0.0;
    BeyondAreNonzero(effects, cut);
    ZerosBound(effects);
    var pairs := Beyond(effects, cut);
    ShareFromCount(Assignments(effects, 0.0, bar), |effects|, pairs);
    if pairs == 0 {
      AssignmentsTotal(effects, 0.0, bar);
    } else {
      ExtremeFloor(effects, bar);
    }
    PublishedBounds(Share(effects, tolerance));
  }
}
