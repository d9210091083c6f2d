/**
  Attempts whose public or hidden suite reported no tests: exactly when the directional
  advantage can exceed the mean distance (src/llm_hardtest/pilot_analysis.py:221-257, 446-451).
 */
module UnobservedAxes {
  import opened Numbers
  import opened PilotDistances
  import opened PilotDirection

  // The axes in their order; the two rates are the ones that may be unobserved.
  const PUBLIC_RATE: nat := 3
  const HIDDEN_RATE: nat := 4
  const RELEASE: nat := 5

  predicate Flag(x: Option<real>) {
    x == Some(0.0) || x == Some(1.0)
  }

  predicate Rate(x: Option<real>) {
    x.Some? ==> 0.0 <= x.value <= 1.0
  }

  /** A vector that a validated grade can have: release-ready exactly when everything it rests on is full. */
  predicate Producible(v: Vector) {
    && |v| == AXES
    && Flag(v[0]) && Flag(v[1]) && Flag(v[2]) && Rate(v[PUBLIC_RATE]) && Rate(v[HIDDEN_RATE])
    && Flag(v[RELEASE]) && Flag(v[6]) && Flag(v[7])
    && (v[RELEASE] == Some(1.0) <==>
        v[0] == Some(1.0) && v[1] == Some(1.0) && v[PUBLIC_RATE] == Some(1.0) && v[HIDDEN_RATE] == Some(1.0))
  }

  /** Which suites of an attempt reported tests. */
  datatype Pattern = Pattern(public: bool, hidden: bool)

  predicate Full(p: Pattern) {
    p.public && p.hidden
  }

  predicate Follows(v: Vector, p: Pattern) {
    Producible(v) && v[PUBLIC_RATE].Some? == p.public && v[HIDDEN_RATE].Some? == p.hidden
  }

  predicate AllFollow(rows: seq<Vector>, patterns: seq<Pattern>) {
    |rows| == |patterns| && forall i :: 0 <= i < |rows| ==> Follows(rows[i], patterns[i])
  }

  predicate AllFull(patterns: seq<Pattern>) {
    forall i :: 0 <= i < |patterns| ==> Full(patterns[i])
  }

  predicate AnyFull(patterns: seq<Pattern>) {
    exists i :: 0 <= i < |patterns| && Full(patterns[i])
  }

  ghost predicate WithinDistance(left: seq<Vector>, right: seq<Vector>)
    requires RecordedAll(left) && RecordedAll(right)
  {
    var advantage, distance := Advantage(left, right), MeanDistance(ListsOf(left, right).between);
    advantage.Some? ==> distance.Some? && Abs(advantage.value) <= distance.value
  }

  ghost predicate AlwaysWithinDistance(left: seq<Pattern>, right: seq<Pattern>) {
    forall a, b :: AllFollow(a, left) && AllFollow(b, right) ==>
      RecordedAll(a) && RecordedAll(b) && WithinDistance(a, b)
  }

  // ----- distances of at most one -----

  predicate Unit(v: Vector) {
    Recorded(v) && forall x :: 0 <= x < AXES && v[x].Some? ==> 0.0 <= v[x].value <= 1.0
  }

  /** Unit gaps sum to at most their number, and to one less when the first axis agrees. */
  lemma {:induction false} UnitGaps(p: Pair, n: nat)
    requires Unit(p.0) && Unit(p.1) && n <= AXES
    ensures Sum(Gaps(p, n)) <= |Gaps(p, n)| as real
    ensures n > 0 && p.0[0] == p.1[0] ==> Sum(Gaps(p, n)) <= |Gaps(p, n)| as real - 1.0
  {
    if n > 0 {
      UnitGaps(p, n - 1);
      if Gap(p, n - 1).Some? { SumSnoc(Gaps(p, n - 1), Gap(p, n - 1).value); }
    }
  }

  lemma UnitDistance(p: Pair)
    requires Unit(p.0) && Unit(p.1)
    ensures Distance(p) <= 1.0
    ensures p.0[0] == p.1[0] ==> Distance(p) < 1.0
  {
    GapsNonempty(p, AXES);
    UnitGaps(p, AXES);
    Quotients(Sum(Gaps(p, AXES)), |Gaps(p, AXES)| as real);
  }

  lemma Quotients(s: real, n: real)
    requires n > 0.0
    ensures s <= n ==> s / n <= 1.0
    ensures s < n ==> s / n < 1.0
  {
    var q := s / n;
    assert q * n == s;
    if s < n { BelowOne(q, n); }
    if s == n { assert (q - 1.0) * n == 0.0; }
  }

  lemma BelowOne(q: real, n: real)
    requires n > 0.0 && q * n < n
    ensures q < 1.0
  {
    assert (q - 1.0) * n < 0.0;
  }

  lemma {:induction false} SumBelow(s: seq<real>, i: nat)
    requires i < |s| && s[i] < 1.0 && forall k :: 0 <= k < |s| ==> s[k] <= 1.0
    ensures Sum(s) < |s| as real
  {
    if i == 0 { SumAtMost(s[1..]); } else { SumBelow(s[1..], i - 1); }
  }

  lemma {:induction false} SumAtMost(s: seq<real>)
    requires forall k :: 0 <= k < |s| ==> s[k] <= 1.0
    ensures Sum(s) <= |s| as real
  {
    if s != [] { SumAtMost(s[1..]); }
  }

  lemma {:induction false} DistanceAt(pairs: seq<Pair>, i: nat)
    requires AllRecorded(pairs) && i < |pairs|
    ensures Distances(pairs)[i] == Distance(pairs[i])
    decreases |pairs|
  {
    if i < |pairs| - 1 { DistanceAt(pairs[..|pairs| - 1], i); }
  }

  lemma RowHolds(a: Vector, right: seq<Vector>, j: nat)
    requires j < |right|
    ensures (a, right[j]) in Row(a, right)
  {
    RowMembers(a, right);
    assert Row(a, right)[j] == (a, right[j]);
  }

  /** The cross product holds every pair and nothing else. */
  lemma {:induction false} CrossHolds(left: seq<Vector>, right: seq<Vector>, i: nat, j: nat)
    requires i < |left| && j < |right|
    ensures (left[i], right[j]) in Cross(left, right)
    decreases |left|
  {
    if i == |left| - 1 {
      RowHolds(left[i], right, j);
    } else {
      CrossHolds(left[..|left| - 1], right, i, j);
    }
  }

  ghost predicate UnitPairs(pairs: seq<Pair>) {
    forall p :: p in pairs ==> Unit(p.0) && Unit(p.1)
  }

  lemma {:induction false} CrossIsUnit(left: seq<Vector>, right: seq<Vector>)
    requires (forall v :: v in left ==> Unit(v)) && (forall v :: v in right ==> Unit(v))
    ensures UnitPairs(Cross(left, right))
    decreases |left|
  {
    if left != [] {
      var init, last := left[..|left| - 1], left[|left| - 1];
      assert left == init + [last];
      CrossIsUnit(init, right);
      RowMembers(last, right);
    }
  }

  /** One pair that agrees on the first axis brings the mean distance below one. */
  lemma MeanBelowOne(pairs: seq<Pair>, near: Pair)
    requires AllRecorded(pairs) && UnitPairs(pairs) && near in pairs && near.0[0] == near.1[0]
    ensures MeanDistance(pairs).Some? && MeanDistance(pairs).value < 1.0
  {
    var i :| 0 <= i < |pairs| && pairs[i] == near;
    forall k | 0 <= k < |pairs| ensures Distances(pairs)[k] <= 1.0 {
      DistanceAt(pairs, k);
      UnitDistance(pairs[k]);
    }
    DistanceAt(pairs, i);
    UnitDistance(near);
    SumBelow(Distances(pairs), i);
    Quotients(Sum(Distances(pairs)), |pairs| as real);
  }

  // ----- the values that break the bound -----

  /** A vector of one level wherever its pattern observes; never release-ready unless fully observed. */
  function At(p: Pattern, level: real): (v: Vector)
    ensures |v| == AXES
  {
    var x := Some(level);
    [x, x, x, if p.public then x else None, if p.hidden then x else None, if Full(p) then x else Some(0.0), x, x]
  }

  lemma AtFollows(p: Pattern, level: real)
    requires level == 0.0 || level == 1.0
    ensures Follows(At(p, level), p) && Recorded(At(p, level)) && Unit(At(p, level)) && At(p, level)[0] == Some(level)
  {
  }

  /** Fully observed attempts at one level, the others at the opposite one. */
  function Opposed(patterns: seq<Pattern>, level: real): (rows: seq<Vector>)
    ensures |rows| == |patterns|
    ensures forall i :: 0 <= i < |rows| ==> rows[i] == At(patterns[i], if Full(patterns[i]) then level else 1.0 - level)
  {
    seq(|patterns|, i requires 0 <= i < |patterns| => At(patterns[i], if Full(patterns[i]) then level else 1.0 - level))
  }

  lemma OpposedFollow(patterns: seq<Pattern>, level: real)
    requires level == 0.0 || level == 1.0
    ensures
      var rows := Opposed(patterns, level);
      AllFollow(rows, patterns) && RecordedAll(rows) && forall v :: v in rows ==> Unit(v)
  {
    var rows := Opposed(patterns, level);
    forall i | 0 <= i < |rows| ensures Follows(rows[i], patterns[i]) && Recorded(rows[i]) && Unit(rows[i]) {
      AtFollows(patterns[i], if Full(patterns[i]) then level else 1.0 - level);
    }
  }

  lemma {:induction false} LevelValues(p: Pattern, level: real, n: nat)
    requires Full(p) && n <= AXES && Observed(At(p, level))
    ensures forall v :: v in Values(At(p, level), n) ==> v == level
  {
    if n > 0 { LevelValues(p, level, n - 1); }
  }

  lemma OutcomeOfLevel(p: Pattern, level: real)
    ensures Outcome(At(p, level)) == if Full(p) then Some(level) else None
  {
    if Full(p) {
      LevelValues(p, level, AXES);
      MeanOfEqual(Values(At(p, level), AXES), level);
    } else {
      assert At(p, level)[PUBLIC_RATE].None? || At(p, level)[HIDDEN_RATE].None?;
    }
  }

  lemma {:induction false} OutcomesOfOpposed(patterns: seq<Pattern>, level: real)
    ensures forall v :: v in Outcomes(Opposed(patterns, level)) ==> v == level
    ensures Outcomes(Opposed(patterns, level)) != [] <==> AnyFull(patterns)
    decreases |patterns|
  {
    if patterns != [] {
      var init, last := patterns[..|patterns| - 1], patterns[|patterns| - 1];
      OutcomesOfOpposed(init, level);
      OutcomeOfLevel(last, if Full(last) then level else 1.0 - level);
      OutcomesOfLast(Opposed(patterns, level));
      assert Opposed(patterns, level)[..|init|] == Opposed(init, level);
      AnyFullLast(patterns);
    }
  }

  lemma OutcomesOfLast(rows: seq<Vector>)
    requires rows != []
    ensures Outcomes(rows) == Plus(Outcomes(rows[..|rows| - 1]), Outcome(rows[|rows| - 1]))
  {
  }

  lemma AnyFullLast(patterns: seq<Pattern>)
    requires patterns != []
    ensures AnyFull(patterns) <==> AnyFull(patterns[..|patterns| - 1]) || Full(patterns[|patterns| - 1])
  {
    var init := patterns[..|patterns| - 1];
    if AnyFull(init) {
      var i :| 0 <= i < |init| && Full(init[i]);
      assert Full(patterns[i]);
    }
  }

  lemma OpposedAdvantage(left: seq<Pattern>, right: seq<Pattern>)
    requires AnyFull(left) && AnyFull(right)
    ensures Advantage(Opposed(left, 1.0), Opposed(right, 0.0)) == Some(1.0)
  {
    OutcomesOfOpposed(left, 1.0);
    OutcomesOfOpposed(right, 0.0);
    MeanOfEqual(Outcomes(Opposed(left, 1.0)), 1.0);
    MeanOfEqual(Outcomes(Opposed(right, 0.0)), 0.0);
  }

  /** A fully observed attempt on each side and one that is not: the advantage is one, the distance less. */
  lemma OpposedBreak(left: seq<Pattern>, right: seq<Pattern>, i: nat, j: nat)
    requires i < |left| && j < |right| && Full(left[i]) != Full(right[j]) && AnyFull(left) && AnyFull(right)
    ensures
      var a, b := Opposed(left, 1.0), Opposed(right, 0.0);
      AllFollow(a, left) && AllFollow(b, right) && RecordedAll(a) && RecordedAll(b) && !WithinDistance(a, b)
  {
    var a, b := Opposed(left, 1.0), Opposed(right, 0.0);
    OpposedFollow(left, 1.0);
    OpposedFollow(right, 0.0);
    OpposedAdvantage(left, right);
    CrossMembers(a, b);
    CrossIsUnit(a, b);
    CrossHolds(a, b, i, j);
    MeanBelowOne(Cross(a, b), (a[i], b[j]));
  }

  lemma FullIsObserved(rows: seq<Vector>, patterns: seq<Pattern>)
    requires AllFollow(rows, patterns) && AllFull(patterns)
    ensures ObservedAll(rows)
  {
    forall i | 0 <= i < |rows| ensures Observed(rows[i]) {
      assert Follows(rows[i], patterns[i]) && Full(patterns[i]);
    }
  }

  lemma {:induction false} NoFullNoOutcome(rows: seq<Vector>, patterns: seq<Pattern>)
    requires AllFollow(rows, patterns) && !AnyFull(patterns)
    ensures Outcomes(rows) == []
    decreases |rows|
  {
    if rows != [] {
      var n := |rows| - 1;
      NoFullNoOutcome(rows[..n], patterns[..n]);
      assert Follows(rows[n], patterns[n]) && !Full(patterns[n]);
      assert rows[n][PUBLIC_RATE].None? || rows[n][HIDDEN_RATE].None?;
    }
  }

  lemma FollowersAreRecorded(rows: seq<Vector>, patterns: seq<Pattern>)
    requires AllFollow(rows, patterns)
    ensures RecordedAll(rows)
  {
    forall i | 0 <= i < |rows| ensures Recorded(rows[i]) {
      assert Follows(rows[i], patterns[i]);
    }
  }

  /** For given suites reported per attempt, the advantage stays within the distance for every outcome if and
      only if every attempt is fully observed or one side has no fully observed attempt. */
  lemma BoundHoldsExactly(left: seq<Pattern>, right: seq<Pattern>)
    ensures AlwaysWithinDistance(left, right)
       <==> (AllFull(left) && AllFull(right)) || !AnyFull(left) || !AnyFull(right)
  {
    if (AllFull(left) && AllFull(right)) || !AnyFull(left) || !AnyFull(right) {
      forall a, b | AllFollow(a, left) && AllFollow(b, right)
        ensures RecordedAll(a) && RecordedAll(b) && WithinDistance(a, b) {
        SafePatterns(left, right, a, b);
      }
    } else {
      var i, j := MixedPair(left, right);
      OpposedBreak(left, right, i, j);
    }
  }

  lemma MixedPair(left: seq<Pattern>, right: seq<Pattern>) returns (i: nat, j: nat)
    requires AnyFull(left) && AnyFull(right) && !(AllFull(left) && AllFull(right))
    ensures i < |left| && j < |right| && Full(left[i]) != Full(right[j])
  {
    i :| i < |left| && Full(left[i]);
    j :| j < |right| && Full(right[j]);
    if !AllFull(left) {
      i :| i < |left| && !Full(left[i]);
    } else {
      j :| j < |right| && !Full(right[j]);
    }
  }

  lemma SafePatterns(left: seq<Pattern>, right: seq<Pattern>, a: seq<Vector>, b: seq<Vector>)
    requires AllFollow(a, left) && AllFollow(b, right)
    requires (AllFull(left) && AllFull(right)) || !AnyFull(left) || !AnyFull(right)
    ensures RecordedAll(a) && RecordedAll(b) && WithinDistance(a, b)
  {
    FollowersAreRecorded(a, left);
    FollowersAreRecorded(b, right);
    if AllFull(left) && AllFull(right) {
      FullIsObserved(a, left);
      FullIsObserved(b, right);
      AdvantageBounded(a, b);
    } else if !AnyFull(left) {
      NoFullNoOutcome(a, left);
    } else {
      NoFullNoOutcome(b, right);
    }
  }

  // ----- one such input in numbers -----

  const FULL := Pattern(true, true)
  const NO_HIDDEN := Pattern(true, false)

  lemma {:induction false} HoleGaps(n: nat)
    requires n <= AXES
    ensures
      var p := (At(FULL, 1.0), At(NO_HIDDEN, 1.0));
      && RecordedPair(p)
      && |Gaps(p, n)| == (if n > HIDDEN_RATE then n - 1 else n)
      && Sum(Gaps(p, n)) == (if n > RELEASE then 1.0 else 0.0)
  {
    var p := (At(FULL, 1.0), At(NO_HIDDEN, 1.0));
    if n > 0 {
      HoleGaps(n - 1);
      if Gap(p, n - 1).Some? { SumSnoc(Gaps(p, n - 1), Gap(p, n - 1).value); }
    }
  }

  lemma {:induction false} WholeGaps(n: nat)
    requires n <= AXES
    ensures
      var p := (At(FULL, 1.0), At(FULL, 0.0));
      RecordedPair(p) && |Gaps(p, n)| == n && Sum(Gaps(p, n)) == n as real
  {
    var p := (At(FULL, 1.0), At(FULL, 0.0));
    if n > 0 {
      WholeGaps(n - 1);
      SumSnoc(Gaps(p, n - 1), Gap(p, n - 1).value);
    }
  }

  /** A perfect attempt against a failed one and one whose hidden suite reported nothing: the advantage is one,
      the mean distance four sevenths. */
  lemma UnobservedAxisBreaksTheBound()
    ensures
      var left, right := [At(FULL, 1.0)], [At(FULL, 0.0), At(NO_HIDDEN, 1.0)];
      && AllFollow(left, [FULL]) && AllFollow(right, [FULL, NO_HIDDEN]) && RecordedAll(left) && RecordedAll(right)
      && Advantage(left, right) == Some(1.0)
      && MeanDistance(ListsOf(left, right).between) == Some(4.0 / 7.0)
  {
    var full, none, hole := At(FULL, 1.0), At(FULL, 0.0), At(NO_HIDDEN, 1.0);
    AtFollows(FULL, 1.0);
    AtFollows(FULL, 0.0);
    AtFollows(NO_HIDDEN, 1.0);
    OutcomeOfLevel(FULL, 1.0);
    OutcomeOfLevel(FULL, 0.0);
    OutcomeOfLevel(NO_HIDDEN, 1.0);
    DroppedOutcome(full, none, hole);
    WholeGaps(AXES);
    HoleGaps(AXES);
    CrossMembers([full], [none, hole]);
    MixedDistances(full, none, hole);
  }

  lemma DroppedOutcome(full: Vector, none: Vector, hole: Vector)
    requires Outcome(full) == Some(1.0) && Outcome(none) == Some(0.0) && Outcome(hole) == None
    ensures Advantage([full], [none, hole]) == Some(1.0)
  {
    OutcomesOfOne(full);
    OutcomesOfOne(none);
    OutcomesOfLast([none, hole]);
    assert [none, hole][..1] == [none];
    MeanOfEqual([1.0], 1.0);
    MeanOfEqual([0.0], 0.0);
  }

  lemma OutcomesOfOne(v: Vector)
    requires Outcome(v).Some?
    ensures Outcomes([v]) == [Outcome(v).value]
  {
    OutcomesOfLast([v]);
    assert [v][..0] == [];
    assert Outcomes([]) == [];
  }

  lemma CrossOfOne(a: Vector, right: seq<Vector>)
    ensures Cross([a], right) == Row(a, right)
  {
    assert [a][..0] == [];
    assert Cross([], right) + Row(a, right) == Row(a, right);
  }

  lemma MixedDistances(full: Vector, none: Vector, hole: Vector)
    requires Recorded(full) && Recorded(none) && Recorded(hole) && AllRecorded(Cross([full], [none, hole]))
    requires Distance((full, none)) == 1.0 && Distance((full, hole)) == 1.0 / 7.0
    ensures MeanDistance(Cross([full], [none, hole])) == Some(4.0 / 7.0)
  {
    var pairs: seq<Pair> := [(full, none), (full, hole)];
    CrossOfOne(full, [none, hole]);
    RowMembers(full, [none, hole]);
    assert Cross([full], [none, hole]) == pairs;
    DistanceAt(pairs, 0);
    DistanceAt(pairs, 1);
    assert Distances(pairs) == [1.0] + [1.0 / 7.0];
    SumSnoc([1.0], 1.0 / 7.0);
    SumOfEqual([1.0], 1.0);
  }
}
