/**
  Effects that are non-zero but at or below the audit's cut. The audit ignores them one by
  one (src/llm_hardtest/paired_comparison.py:147-151), yet the test sees them accumulate:
  the audited floor can be undercut, beside large effects and without any, and this module
  says exactly when it cannot.
 */
module TinyEffects {
  import opened Numbers
  import opened SignFlip
  import opened SignTest
  import opened Resolution
  import Holm

  function PositivePart(effects: seq<real>): real {
    if effects == [] then 0.0 else Max(0.0, effects[0]) + PositivePart(effects[1..])
  }

  function NegativePart(effects: seq<real>): real {
    if effects == [] then 0.0 else Max(0.0, -effects[0]) + NegativePart(effects[1..])
  }

  lemma {:induction false} PartsOfSum(effects: seq<real>)
    ensures Sum(effects) == PositivePart(effects) - NegativePart(effects)
    ensures AbsSum(effects) == PositivePart(effects) + NegativePart(effects)
    ensures PositivePart(effects) >= 0.0 && NegativePart(effects) >= 0.0
    ensures PositivePart(Negated(effects)) == NegativePart(effects)
    ensures NegativePart(Negated(effects)) == PositivePart(effects)
    decreases |effects|
  {
    if effects != [] {
      PartsOfSum(effects[1..]);
      assert Negated(effects)[1..] == Negated(effects[1..]);
    }
  }

  ghost predicate AllWithin(effects: seq<real>, cut: real) {
    forall i :: 0 <= i < |effects| ==> Abs(effects[i]) <= cut
  }

  ghost predicate AllBeyond(effects: seq<real>, cut: real) {
    forall i :: 0 <= i < |effects| ==> Abs(effects[i]) > cut
  }

  /** Neither the positive nor the negative tiny effects add up past the cut. */
  predicate Harmless(tiny: seq<real>, cut: real) {
    PositivePart(tiny) <= cut && NegativePart(tiny) <= cut
  }

  lemma {:induction false} BeyondOfConcat(large: seq<real>, tiny: seq<real>, cut: real)
    requires AllBeyond(large, cut) && AllWithin(tiny, cut)
    ensures Beyond(large + tiny, cut) == |large|
    decreases |large| + |tiny|
  {
    var all := large + tiny;
    if large != [] {
      assert all[1..] == large[1..] + tiny;
      BeyondOfConcat(large[1..], tiny, cut);
    } else if tiny != [] {
      assert all == tiny && tiny[1..] == large + tiny[1..];
      BeyondOfConcat(large, tiny[1..], cut);
    }
  }

  // ----- effects in any order: the ignored ones and the others -----

  /** The effects the audit does not count. */
  function Ignored(effects: seq<real>, cut: real): seq<real> {
    if effects == [] then []
    else if Abs(effects[0]) <= cut then [effects[0]] + Ignored(effects[1..], cut)
    else Ignored(effects[1..], cut)
  }

  function Counted(effects: seq<real>, cut: real): real {
    if effects == [] then 0.0 else (if Abs(effects[0]) <= cut then 0.0 else effects[0]) + Counted(effects[1..], cut)
  }

  lemma IgnoredCons(effects: seq<real>, cut: real)
    requires effects != [] && Abs(effects[0]) <= cut
    ensures AbsSum(Ignored(effects, cut)) == Abs(effects[0]) + AbsSum(Ignored(effects[1..], cut))
    ensures |Ignored(effects, cut)| == 1 + |Ignored(effects[1..], cut)|
  {
    assert Ignored(effects, cut)[1..] == Ignored(effects[1..], cut);
  }

  lemma {:induction false} IgnoredAndCounted(effects: seq<real>, cut: real)
    ensures Sum(effects) == Counted(effects, cut) + Sum(Ignored(effects, cut))
    ensures Beyond(effects, cut) + |Ignored(effects, cut)| == |effects|
  {
    if effects != [] {
      IgnoredAndCounted(effects[1..], cut);
      if Abs(effects[0]) <= cut {
        assert Ignored(effects, cut)[1..] == Ignored(effects[1..], cut);
      }
    }
  }

  lemma {:induction false} IgnoredOfConcat(large: seq<real>, tiny: seq<real>, cut: real)
    requires AllBeyond(large, cut) && AllWithin(tiny, cut)
    ensures Ignored(large + tiny, cut) == tiny
    decreases |large| + |tiny|
  {
    var all := large + tiny;
    if large != [] {
      assert all[1..] == large[1..] + tiny;
      IgnoredOfConcat(large[1..], tiny, cut);
    } else if tiny != [] {
      assert all == tiny && tiny[1..] == large + tiny[1..];
      IgnoredOfConcat(large, tiny[1..], cut);
    }
  }

  /** Even after the ignored effects move a total by this much it reaches the bar. */
  predicate Clears(total: real, slack: real, bar: real) {
    Abs(total) - slack >= bar
  }

  lemma ClearsEitherWay(total: real, e: real, slack: real, bar: real)
    requires Clears(total, Abs(e) + slack, bar)
    ensures Clears(total + e, slack, bar) && Clears(total - e, slack, bar)
  {
  }

  /** With the counted effects all kept or all flipped, every choice for the ignored ones reaches the bar. */
  lemma {:induction false} Spread(effects: seq<real>, cut: real, start: real, bar: real, keep: bool)
    requires
      var counted := Counted(effects, cut);
      Clears(if keep then start + counted else start - counted, AbsSum(Ignored(effects, cut)), bar)
    ensures Assignments(effects, start, bar) >= Pow2(|Ignored(effects, cut)|)
    decreases |effects|
  {
    if effects != [] {
      var e, rest := effects[0], effects[1..];
      if Abs(e) <= cut {
        IgnoredCons(effects, cut);
        var total := if keep then start + Counted(rest, cut) else start - Counted(rest, cut);
        ClearsEitherWay(total, e, AbsSum(Ignored(rest, cut)), bar);
        Spread(rest, cut, start + e, bar, keep);
        Spread(rest, cut, start - e, bar, keep);
      } else {
        Spread(rest, cut, if keep then start + e else start - e, bar, keep);
      }
    }
  }

  /** From this start the counted effects reach the bar kept as well as flipped, whatever the ignored ones do. */
  predicate ClearsBoth(effects: seq<real>, cut: real, start: real, bar: real) {
    && Clears(start + Counted(effects, cut), AbsSum(Ignored(effects, cut)), bar)
    && Clears(start - Counted(effects, cut), AbsSum(Ignored(effects, cut)), bar)
  }

  lemma IgnoredHead(effects: seq<real>, cut: real, start: real, bar: real)
    requires effects != [] && Abs(effects[0]) <= cut && ClearsBoth(effects, cut, start, bar)
    ensures ClearsBoth(effects[1..], cut, start + effects[0], bar)
    ensures ClearsBoth(effects[1..], cut, start - effects[0], bar)
  {
    var e, counted, slack := effects[0], Counted(effects[1..], cut), AbsSum(Ignored(effects[1..], cut));
    IgnoredCons(effects, cut);
    ClearsEitherWay(start + counted, e, slack, bar);
    ClearsEitherWay(start - counted, e, slack, bar);
    assert start + counted + e == start + e + counted && start + counted - e == start - e + counted;
    assert start - counted + e == start + e - counted && start - counted - e == start - e - counted;
  }

  lemma CountedHead(effects: seq<real>, cut: real, start: real, bar: real)
    requires effects != [] && Abs(effects[0]) > cut && ClearsBoth(effects, cut, start, bar)
    ensures Assignments(effects, start, bar) >= 2 * Pow2(|Ignored(effects, cut)|)
  {
    var e, rest := effects[0], effects[1..];
    assert start + Counted(effects, cut) == start + e + Counted(rest, cut);
    assert start - Counted(effects, cut) == start - e - Counted(rest, cut);
    Spread(rest, cut, start + e, bar, true);
    Spread(rest, cut, start - e, bar, false);
  }

  /** Keeping and flipping the counted effects are different choices, so both families count. */
  lemma {:induction false} SpreadBoth(effects: seq<real>, cut: real, start: real, bar: real)
    requires Beyond(effects, cut) > 0 && ClearsBoth(effects, cut, start, bar)
    ensures Assignments(effects, start, bar) >= 2 * Pow2(|Ignored(effects, cut)|)
    decreases |effects|
  {
    var e, rest := effects[0], effects[1..];
    if Abs(e) <= cut {
      IgnoredCons(effects, cut);
      IgnoredHead(effects, cut, start, bar);
      SpreadBoth(rest, cut, start + e, bar);
      SpreadBoth(rest, cut, start - e, bar);
    } else {
      CountedHead(effects, cut, start, bar);
    }
  }

  lemma HarmlessKeepsFloor(effects: seq<real>, cut: real, bar: real)
    requires Beyond(effects, cut) > 0 && Harmless(Ignored(effects, cut), cut)
    requires bar == Abs(Sum(effects)) - 2.0 * cut
    ensures Assignments(effects, 0.0, bar) >= 2 * Pow2(|Ignored(effects, cut)|)
  {
    IgnoredAndCounted(effects, cut);
    PartsOfSum(Ignored(effects, cut));
    SpreadBoth(effects, cut, 0.0, bar);
  }

  lemma BarOfConcat(large: seq<real>, tiny: seq<real>, tolerance: real)
    ensures Bar(large + tiny, tolerance) == Abs(Sum(large) + Sum(tiny)) - 2.0 * Cut(|large| + |tiny|, tolerance)
  {
    SumConcat(large, tiny);
    BarAsCut(large + tiny, |large| + |tiny|, tolerance);
  }

  lemma BarAsCut(effects: seq<real>, count: nat, tolerance: real)
    requires count == |effects|
    ensures Bar(effects, tolerance) == Abs(Sum(effects)) - 2.0 * Cut(count, tolerance)
  {
  }

  // ----- harmful tiny effects undercut it beside suitable large ones -----

  function Repeat(x: real, count: nat): (r: seq<real>)
    ensures |r| == count && forall i :: 0 <= i < count ==> r[i] == x
  {
    if count == 0 then [] else [x] + Repeat(x, count - 1)
  }

  lemma {:induction false} SumOfRepeat(x: real, count: nat)
    ensures Sum(Repeat(x, count)) == Steps(count, x)
    ensures x >= 0.0 ==> AbsSum(Repeat(x, count)) == Steps(count, x)
  {
    if count > 0 {
      SumOfRepeat(x, count - 1);
      assert Repeat(x, count)[1..] == Repeat(x, count - 1);
    }
  }

  lemma {:induction false} AbsSumConcat(a: seq<real>, b: seq<real>)
    ensures AbsSum(a + b) == AbsSum(a) + AbsSum(b)
  {
    if a == [] {
      assert a + b == b;
    } else {
      assert (a + b)[1..] == a[1..] + b;
      AbsSumConcat(a[1..], b);
    }
  }

  /** Flipping every effect downwards misses the bar, so not all assignments reach it. */
  lemma {:induction false} OneMisses(effects: seq<real>, start: real, bar: real)
    requires Abs(start - AbsSum(effects)) < bar
    ensures Assignments(effects, start, bar) < Pow2(|effects|)
    decreases |effects|
  {
    if effects != [] {
      OneMisses(effects[1..], start - Abs(effects[0]), bar);
      AssignmentsTotal(effects[1..], start + effects[0], bar);
      AssignmentsTotal(effects[1..], start - effects[0], bar);
    }
  }

  /** Beside `count` copies of one large effect, only full agreement among them counts. */
  lemma {:induction false} OnlyTogether(tiny: seq<real>, big: real, start: real, count: nat, bar: real)
    requires big > 0.0 && start >= big
    requires start + Steps(count, big) + AbsSum(tiny) - 2.0 * big < bar
    ensures Assignments(Repeat(big, count) + tiny, start, bar)
         == Assignments(tiny, start + Steps(count, big), bar)
    decreases count
  {
    var all := Repeat(big, count) + tiny;
    if count == 0 {
      assert all == tiny;
    } else {
      var rest := Repeat(big, count - 1) + tiny;
      assert all[1..] == rest && all[0] == big;
      OnlyTogether(tiny, big, start + big, count - 1, bar);
      AbsSumConcat(Repeat(big, count - 1), tiny);
      SumOfRepeat(big, count - 1);
      OutOfReach(rest, start - big, bar);
    }
  }

  lemma HarmfulUndercuts(tiny: seq<real>, pairs: nat, cut: real) returns (large: seq<real>)
    requires pairs > 0 && cut >= 0.0 && PositivePart(tiny) > cut
    ensures |large| == pairs && AllBeyond(large, cut)
    ensures Assignments(large + tiny, 0.0, Abs(Sum(large) + Sum(tiny)) - 2.0 * cut) < 2 * Pow2(|tiny|)
  {
    var big := AbsSum(tiny) + 2.0 * cut + 1.0;
    PartsOfSum(tiny);
    large := Repeat(big, pairs);
    var all, top := large + tiny, Steps(pairs, big);
    SumOfRepeat(big, pairs);
    StepsOrder(1, pairs, big);
    assert Steps(1, big) == Steps(0, big) + big;
    var bar := top + Sum(tiny) - 2.0 * cut;
    assert bar == Abs(Sum(large) + Sum(tiny)) - 2.0 * cut;
    var rest := Repeat(big, pairs - 1) + tiny;
    assert all[1..] == rest && all[0] == big;
    assert big + Steps(pairs - 1, big) == top;
    OnlyTogether(tiny, big, big, pairs - 1, bar);
    AssignmentsMirror(rest, big, bar);
    assert 0.0 - big == -big;
    OneMisses(tiny, top, bar);
  }

  // ----- when every effect is ignored -----

  /** The least size any sign assignment leaves. */
  function LeastTotal(effects: seq<real>, start: real): real {
    if effects == [] then Abs(start)
    else Min(LeastTotal(effects[1..], start + effects[0]), LeastTotal(effects[1..], start - effects[0]))
  }

  lemma {:induction false} LeastTotalDecides(effects: seq<real>, start: real, bar: real)
    ensures Assignments(effects, start, bar) == Pow2(|effects|) <==> bar <= LeastTotal(effects, start)
    decreases |effects|
  {
    if effects != [] {
      var rest, up, down := effects[1..], start + effects[0], start - effects[0];
      LeastTotalDecides(rest, up, bar);
      LeastTotalDecides(rest, down, bar);
      AssignmentsTotal(rest, up, bar);
      AssignmentsTotal(rest, down, bar);
    }
  }

  /** Small effects can be balanced: some assignment stays within the cut. */
  lemma {:induction false} Balanced(effects: seq<real>, start: real, cut: real)
    requires AllWithin(effects, cut) && Abs(start) <= cut
    ensures 0.0 <= LeastTotal(effects, start) <= cut
    decreases |effects|
  {
    LeastTotalNonnegative(effects, start);
    if effects != [] {
      assert Abs(effects[0]) <= cut;
      var next := if (start > 0.0) == (effects[0] > 0.0) then start - effects[0] else start + effects[0];
      Balanced(effects[1..], next, cut);
    }
  }

  lemma {:induction false} LeastTotalNonnegative(effects: seq<real>, start: real)
    ensures LeastTotal(effects, start) >= 0.0
    decreases |effects|
  {
    if effects != [] {
      LeastTotalNonnegative(effects[1..], start + effects[0]);
      LeastTotalNonnegative(effects[1..], start - effects[0]);
    }
  }

  /** Every assignment is extreme, as a floor of one promises. */
  predicate Unavoidable(effects: seq<real>, cut: real) {
    Abs(Sum(effects)) - 2.0 * cut <= LeastTotal(effects, 0.0)
  }

  lemma ShareOfIgnored(effects: seq<real>, tolerance: real)
    requires Beyond(effects, Cut(|effects|, tolerance)) == 0
    ensures Share(effects, tolerance) >= RawFloor(0) <==> Unavoidable(effects, Cut(|effects|, tolerance))
  {
    var bar := Bar(effects, tolerance);
    BarAsCut(effects, |effects|, tolerance);
    LeastTotalDecides(effects, 0.0, bar);
    AssignmentsTotal(effects, 0.0, bar);
    ShareFromCount(Assignments(effects, 0.0, bar), |effects|, 0);
  }

  /** Outside a band as wide as the largest effect the sum alone decides. */
  lemma SumDecidesOutsideTheBand(tiny: seq<real>, cut: real, most: real)
    requires 0.0 <= most <= cut && AllWithin(tiny, most)
    ensures Abs(Sum(tiny)) <= 2.0 * cut ==> Unavoidable(tiny, cut)
    ensures Abs(Sum(tiny)) > 2.0 * cut + most ==> !Unavoidable(tiny, cut)
  {
    Balanced(tiny, 0.0, most);
  }

  /** Inside the band it does not: three effects at the cut keep the floor, four at three fifths of it do not. */
  lemma SumDoesNotDecideInTheBand(tolerance: real)
    requires tolerance > 0.0
    ensures
      var kept, e := Cut(3, tolerance), 1.5 * tolerance;
      && e <= kept && AllWithin([e, e, e], e) && 2.0 * kept < Sum([e, e, e]) <= 2.0 * kept + e
      && Unavoidable([e, e, e], kept)
    ensures
      var lost, f := Cut(4, tolerance), 1.2 * tolerance;
      f <= lost && AllWithin([f, f, f, f], f) && 2.0 * lost < Sum([f, f, f, f]) <= 2.0 * lost + f
      && !Unavoidable([f, f, f, f], lost)
  {
    Triple(1.5 * tolerance);
    Quadruple(1.2 * tolerance);
  }

  lemma Triple(e: real)
    requires e > 0.0
    ensures Sum([e, e, e]) == 3.0 * e && LeastTotal([e, e, e], 0.0) == e
  {
    assert [e, e, e][1..] == [e, e] && [e, e][1..] == [e] && [e][1..] == [];
    assert LeastTotal([e], 0.0) == e && LeastTotal([e], 2.0 * e) == e && LeastTotal([e], -2.0 * e) == e;
    assert LeastTotal([e, e], e) == e && LeastTotal([e, e], -e) == e;
    assert Sum([e]) == e && Sum([e, e]) == 2.0 * e;
  }

  lemma Quadruple(f: real)
    requires f > 0.0
    ensures Sum([f, f, f, f]) == 4.0 * f && LeastTotal([f, f, f, f], 0.0) == 0.0
  {
    var four := [f, f, f, f];
    LeastTotalNonnegative(four, 0.0);
    assert four[1..] == [f, f, f] && [f, f, f][1..] == [f, f] && [f, f][1..] == [f] && [f][1..] == [];
    assert LeastTotal([f], f) <= 0.0;
    assert LeastTotal([f, f], 0.0) <= LeastTotal([f], f);
    assert LeastTotal([f, f, f], f) <= LeastTotal([f, f], 0.0);
    assert LeastTotal(four, 0.0) <= LeastTotal([f, f, f], f);
    Triple(f);
  }

  // ----- exactly when the floor holds -----

  /** The audited floor in terms of counts. */
  lemma FloorAsCount(effects: seq<real>, tolerance: real)
    requires Beyond(effects, Cut(|effects|, tolerance)) > 0
    ensures
      var cut := Cut(|effects|, tolerance);
      Share(effects, tolerance) >= RawFloor(Beyond(effects, cut)) <==>
      Assignments(effects, 0.0, Bar(effects, tolerance)) >= 2 * Pow2(|Ignored(effects, cut)|)
  {
    var cut := Cut(|effects|, tolerance);
    IgnoredAndCounted(effects, cut);
    ShareFromCount(Assignments(effects, 0.0, Bar(effects, tolerance)), |effects|, Beyond(effects, cut));
  }

  /** The audited floor holds for these effects: all ignored and none avoidable, or the ignored ones harmless. */
  predicate FloorSafe(effects: seq<real>, cut: real) {
    if Beyond(effects, cut) == 0 then Unavoidable(effects, cut) else Harmless(Ignored(effects, cut), cut)
  }

  /** The exact test never reports less than the audited floor on safe effects, in any order. */
  lemma SafeFloor(effects: seq<real>, tolerance: real)
    requires tolerance >= 0.0 && FloorSafe(effects, Cut(|effects|, tolerance))
    ensures Share(effects, tolerance) >= RawFloor(Beyond(effects, Cut(|effects|, tolerance)))
    ensures Published(Share(effects, tolerance)) >= RawFloor(Beyond(effects, Cut(|effects|, tolerance)))
  {
    var cut := Cut(|effects|, tolerance);
    if Beyond(effects, cut) == 0 {
      ShareOfIgnored(effects, tolerance);
    } else {
      BarAsCut(effects, |effects|, tolerance);
      HarmlessKeepsFloor(effects, cut, Bar(effects, tolerance));
      FloorAsCount(effects, tolerance);
    }
    PublishedBounds(Share(effects, tolerance));
  }

  /** Effects that are zero or counted are always safe. */
  lemma {:induction false} ZeroOrBeyondIsSafe(effects: seq<real>, cut: real)
    requires cut >= 0.0 && ZeroOrBeyond(effects, cut)
    ensures FloorSafe(effects, cut)
  {
    IgnoredZeros(effects, cut);
    IgnoredAndCounted(effects, cut);
    LeastTotalNonnegative(effects, 0.0);
    PartsOfSum(Ignored(effects, cut));
    if Beyond(effects, cut) == 0 {
      NothingCounted(effects, cut);
    }
  }

  lemma {:induction false} IgnoredZeros(effects: seq<real>, cut: real)
    requires ZeroOrBeyond(effects, cut)
    ensures AbsSum(Ignored(effects, cut)) == 0.0 && Sum(Ignored(effects, cut)) == 0.0
  {
    if effects != [] {
      IgnoredZeros(effects[1..], cut);
      if Abs(effects[0]) <= cut {
        assert Ignored(effects, cut)[1..] == Ignored(effects[1..], cut);
      }
    }
  }

  lemma {:induction false} NothingCounted(effects: seq<real>, cut: real)
    requires Beyond(effects, cut) == 0
    ensures Counted(effects, cut) == 0.0
  {
    if effects != [] { NothingCounted(effects[1..], cut); }
  }

  /** The floor audited for `pairs` large effects holds beside these tiny ones, whatever the large ones are. */
  ghost predicate FloorAlwaysHolds(tiny: seq<real>, pairs: nat, tolerance: real) {
    forall large: seq<real> ::
      |large| == pairs && AllBeyond(large, Cut(pairs + |tiny|, tolerance)) ==>
        Share(large + tiny, tolerance) >= RawFloor(Beyond(large + tiny, Cut(pairs + |tiny|, tolerance)))
  }

  /** The floor survives these tiny effects exactly when, alone, no assignment escapes them, and beside
      large effects, exactly when they are harmless. */
  lemma FloorHoldsExactly(tiny: seq<real>, pairs: nat, tolerance: real)
    requires tolerance >= 0.0 && AllWithin(tiny, Cut(pairs + |tiny|, tolerance))
    ensures
      var cut := Cut(pairs + |tiny|, tolerance);
      FloorAlwaysHolds(tiny, pairs, tolerance) <==> if pairs == 0 then Unavoidable(tiny, cut) else Harmless(tiny, cut)
  {
    var cut := Cut(pairs + |tiny|, tolerance);
    CutNonnegative(pairs + |tiny|, tolerance);
    if pairs == 0 {
      FloorOfNoLarge(tiny, tolerance);
    } else if Harmless(tiny, cut) {
      forall large: seq<real> | |large| == pairs && AllBeyond(large, cut)
        ensures Share(large + tiny, tolerance) >= RawFloor(Beyond(large + tiny, cut))
      {
        IgnoredOfConcat(large, tiny, cut);
        BeyondOfConcat(large, tiny, cut);
        SafeFloor(large + tiny, tolerance);
      }
    } else {
      var large := Undercutting(tiny, pairs, cut);
      BarOfConcat(large, tiny, tolerance);
      IgnoredOfConcat(large, tiny, cut);
      BeyondOfConcat(large, tiny, cut);
      FloorAsCount(large + tiny, tolerance);
    }
  }

  lemma FloorOfNoLarge(tiny: seq<real>, tolerance: real)
    requires AllWithin(tiny, Cut(|tiny|, tolerance))
    ensures FloorAlwaysHolds(tiny, 0, tolerance) <==> Unavoidable(tiny, Cut(|tiny|, tolerance))
  {
    BeyondOfConcat([], tiny, Cut(|tiny|, tolerance));
    assert [] + tiny == tiny;
    ShareOfIgnored(tiny, tolerance);
    var none: seq<real> := [];
    assert AllBeyond(none, Cut(|tiny|, tolerance));
    if Unavoidable(tiny, Cut(|tiny|, tolerance)) {
      forall large: seq<real> | |large| == 0
        ensures Share(large + tiny, tolerance) >= RawFloor(Beyond(large + tiny, Cut(|tiny|, tolerance)))
      {
        assert large == [] && large + tiny == tiny;
      }
    }
  }

  lemma CutNonnegative(count: nat, tolerance: real)
    requires tolerance >= 0.0
    ensures Cut(count, tolerance) >= 0.0
  {
    assert tolerance * count as real >= 0.0;
  }

  lemma {:induction false} NegatedConcat(a: seq<real>, b: seq<real>)
    ensures Negated(a + Negated(b)) == Negated(a) + b
    decreases |a|
  {
    if a == [] {
      NegatedTwice(b);
      assert a + Negated(b) == Negated(b) && Negated(a) + b == b;
    } else {
      var head, rest := a[0], a[1..];
      NegatedConcat(rest, b);
      NegatedCons(head, rest + Negated(b));
      NegatedCons(head, rest);
      assert a == [head] + rest && [head] + (rest + Negated(b)) == a + Negated(b);
      assert [-head] + (Negated(rest) + b) == ([-head] + Negated(rest)) + b;
    }
  }

  lemma NegatedCons(x: real, s: seq<real>)
    ensures Negated([x] + s) == [-x] + Negated(s)
  {
    assert ([x] + s)[1..] == s;
  }

  lemma {:induction false} NegatedTwice(b: seq<real>)
    ensures Negated(Negated(b)) == b
    decreases |b|
  {
    if b != [] {
      NegatedTwice(b[1..]);
      assert Negated(b)[1..] == Negated(b[1..]);
    }
  }

  lemma Undercutting(tiny: seq<real>, pairs: nat, cut: real) returns (large: seq<real>)
    requires pairs > 0 && cut >= 0.0 && !Harmless(tiny, cut)
    ensures |large| == pairs && AllBeyond(large, cut)
    ensures Assignments(large + tiny, 0.0, Abs(Sum(large) + Sum(tiny)) - 2.0 * cut) < 2 * Pow2(|tiny|)
  {
    if PositivePart(tiny) > cut {
      large := HarmfulUndercuts(tiny, pairs, cut);
    } else {
      PartsOfSum(tiny);
      var mirror := HarmfulUndercuts(Negated(tiny), pairs, cut);
      large := Negated(mirror);
      SumNegated(tiny);
      SumNegated(mirror);
      NegatedConcat(mirror, tiny);
      AssignmentsNegated(mirror + Negated(tiny), 0.0, Abs(Sum(large) + Sum(tiny)) - 2.0 * cut);
    }
  }

  /**
    Nine equal effects, each ignored by the audit: it promises p = 1 and reports the
    discrete limit, yet the exact test finds p = 0.0390625 and Holm rejects.
   */
  lemma NineTinyEffects(tolerance: real)
    requires tolerance > 0.0
    ensures
      var effects := Repeat(4.0 * tolerance, 9);
      && Beyond(effects, Cut(9, tolerance)) == 0
      && RawFloor(0) == 1.0
      && !Sufficient(0, 1, 0.05)
      && Assignments(effects, 0.0, Bar(effects, tolerance)) == 20
      && Published(Share(effects, tolerance)) == 0.0390625
      && Holm.Adjusted([Holm.Key(Published(Share(effects, tolerance)), 0)], 1, 0) < 0.05
  {
    var effects := Repeat(4.0 * tolerance, 9);
    BeyondOfConcat([], effects, Cut(9, tolerance));
    assert [] + effects == effects;
    NineExtreme(tolerance);
    ShareOf(effects, tolerance, 20, 512, 0.0390625);
    PublishedOnGrid(0.0390625, 3906250);
  }

  lemma NineExtreme(tolerance: real)
    requires tolerance > 0.0
    ensures
      var effects := Repeat(4.0 * tolerance, 9);
      Assignments(effects, 0.0, Bar(effects, tolerance)) == 20 && Pow2(|effects|) == 512
  {
    var size := 4.0 * tolerance;
    var effects := Repeat(size, 9);
    SumOfNine(size);
    BarAsCut(effects, 9, tolerance);
    NineAlike(size, Bar(effects, tolerance));
    assert Pow2(9) == 512;
  }

  lemma ShareOf(effects: seq<real>, tolerance: real, hits: nat, whole: nat, share: real)
    requires Assignments(effects, 0.0, Bar(effects, tolerance)) == hits && Pow2(|effects|) == whole
    requires share == hits as real / whole as real
    ensures Share(effects, tolerance) == share
  {
  }

  lemma PublishedOnGrid(p: real, k: int)
    requires p * GRID == k as real && p <= 1.0
    ensures Published(p) == p
  {
    CeilOfWhole(p * GRID, k);
  }

  lemma CeilOfWhole(x: real, k: int)
    requires x == k as real
    ensures Ceil(x) == k
  {
    var r := Ceil(x);
    assert k as real <= r as real < k as real + 1.0;
  }

  lemma SumOfNine(size: real)
    ensures Sum(Repeat(size, 9)) == 9.0 * size
  {
    SumOfRepeat(size, 9);
    NineSteps(size);
  }

  lemma TailOfNine()
    ensures Tail(9, 1) == 10
  {
    ChooseOne(9);
    assert Tail(9, 0) == 1;
  }

  lemma NineAlike(size: real, bar: real)
    requires size > 0.0 && 5.0 * size < bar <= 7.0 * size
    ensures Assignments(Repeat(size, 9), 0.0, bar) == 20
  {
    NineSteps(size);
    StepCount(Repeat(size, 9), size, 0, 7, bar, 1, 1);
    TailOfNine();
  }

  /**
    The same beside a counted effect: one of eight tolerances and nine of four. The audit
    counts one pair and reports the limit; the exact test finds p = 0.01953125.
   */
  lemma OneLargeNineTiny(tolerance: real)
    requires tolerance > 0.0
    ensures
      var tiny := Repeat(4.0 * tolerance, 9);
      var effects, cut := [8.0 * tolerance] + tiny, Cut(10, tolerance);
      && Beyond(effects, cut) == 1 && Ignored(effects, cut) == tiny && !Harmless(tiny, cut)
      && RawFloor(1) == 1.0 && !Sufficient(1, 1, 0.05)
      && Share(effects, tolerance) == 0.01953125
      && Published(Share(effects, tolerance)) == 0.01953125
      && Holm.Adjusted([Holm.Key(Published(Share(effects, tolerance)), 0)], 1, 0) < 0.05
  {
    var size := 4.0 * tolerance;
    var tiny, cut := Repeat(size, 9), Cut(10, tolerance);
    BeyondOfConcat([2.0 * size], tiny, cut);
    IgnoredOfConcat([2.0 * size], tiny, cut);
    SumOfRepeat(size, 9);
    NineSteps(size);
    PartsOfSum(tiny);
    BarAsCut([2.0 * size] + tiny, 10, tolerance);
    TwoStepsAndNine(size, Bar([2.0 * size] + tiny, tolerance));
    assert Pow2(10) == 1024;
    ShareOf([2.0 * size] + tiny, tolerance, 20, 1024, 0.01953125);
    PublishedOnGrid(0.01953125, 1953125);
  }

  lemma TwoStepsAndNine(size: real, bar: real)
    requires size > 0.0 && 7.0 * size < bar <= 9.0 * size
    ensures
      var effects := [2.0 * size] + Repeat(size, 9);
      Sum(effects) == 11.0 * size && Assignments(effects, 0.0, bar) == 20
  {
    var tiny := Repeat(size, 9);
    var effects := [2.0 * size] + tiny;
    assert effects[1..] == tiny;
    SumOfRepeat(size, 9);
    NineSteps(size);
    assert Steps(2, size) == 2.0 * size;
    StepCount(tiny, size, 2, 9, bar, 1, -1);
    AssignmentsMirror(tiny, 2.0 * size, bar);
    assert 0.0 - 2.0 * size == -(2.0 * size);
    TailOfNine();
  }

  lemma NineSteps(size: real)
    ensures Steps(5, size) == 5.0 * size && Steps(7, size) == 7.0 * size && Steps(9, size) == 9.0 * size
  {
    assert Steps(3, size) == 3.0 * size;
    assert Steps(6, size) == Steps(3, size) + 3.0 * size;
    assert Steps(8, size) == Steps(6, size) + 2.0 * size;
  }

  lemma {:induction false} ChooseOne(n: nat)
    ensures Choose(n, 1) == n
  {
    if n > 0 { ChooseOne(n - 1); }
  }
}
