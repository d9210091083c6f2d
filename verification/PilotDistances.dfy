/**
  Outcome distances between Round 5 configurations
  (src/llm_hardtest/pilot_analysis.py:254-347, 446-451, 1086-1143).
 */
module PilotDistances {
  import opened Numbers

  const AXES: nat := 8

  /** One outcome per axis; a test rate is unobserved when its suite reported no tests. */
  type Vector = seq<Option<real>>

  /** Every attempt records all axes, the first of which always has a value. */
  predicate Recorded(v: Vector) {
    |v| == AXES && v[0].Some?
  }

  predicate Observed(v: Vector) {
    |v| == AXES && forall x :: 0 <= x < AXES ==> v[x].Some?
  }

  type Pair = (Vector, Vector)

  predicate RecordedPair(p: Pair) {
    Recorded(p.0) && Recorded(p.1)
  }

  predicate ObservedPair(p: Pair) {
    Observed(p.0) && Observed(p.1)
  }

  function Plus(s: seq<real>, x: Option<real>): seq<real> {
    if x.Some? then s + [x.value] else s
  }

  // ----- one pair -----

  function Gap(p: Pair, x: nat): Option<real>
    requires RecordedPair(p) && x < AXES
  {
    if p.0[x].Some? && p.1[x].Some? then Some(Abs(p.0[x].value - p.1[x].value)) else None
  }

  /** The gaps on the first n axes that both attempts observed. */
  function Gaps(p: Pair, n: nat): seq<real>
    requires RecordedPair(p) && n <= AXES
  {
    if n == 0 then [] else Plus(Gaps(p, n - 1), Gap(p, n - 1))
  }

  lemma GapsNonempty(p: Pair, n: nat)
    requires RecordedPair(p) && 1 <= n <= AXES
    ensures Gaps(p, n) != []
  {
    if n > 1 { GapsNonempty(p, n - 1); }
  }

  function Distance(p: Pair): real
    requires RecordedPair(p)
  {
    GapsNonempty(p, AXES);
    Mean(Gaps(p, AXES))
  }

  // ----- lists of pairs -----

  function Row(a: Vector, right: seq<Vector>): seq<Pair> {
    if right == [] then [] else Row(a, right[..|right| - 1]) + [(a, right[|right| - 1])]
  }

  /** for a in left for b in right. */
  function Cross(left: seq<Vector>, right: seq<Vector>): seq<Pair> {
    if left == [] then [] else Cross(left[..|left| - 1], right) + Row(left[|left| - 1], right)
  }

  /** Every unordered pair of two attempts. */
  function Combinations(rows: seq<Vector>): seq<Pair> {
    if rows == [] then [] else Row(rows[0], rows[1..]) + Combinations(rows[1..])
  }

  predicate AllRecorded(pairs: seq<Pair>) {
    forall i :: 0 <= i < |pairs| ==> RecordedPair(pairs[i])
  }

  predicate AllObserved(pairs: seq<Pair>) {
    forall i :: 0 <= i < |pairs| ==> ObservedPair(pairs[i])
  }

  function Distances(pairs: seq<Pair>): (r: seq<real>)
    requires AllRecorded(pairs)
    ensures |r| == |pairs|
  {
    if pairs == [] then [] else Distances(pairs[..|pairs| - 1]) + [Distance(pairs[|pairs| - 1])]
  }

  /** The gaps on one axis over the pairs that observed it. */
  function AxisGaps(pairs: seq<Pair>, x: nat): seq<real>
    requires AllRecorded(pairs) && x < AXES
  {
    if pairs == [] then [] else Plus(AxisGaps(pairs[..|pairs| - 1], x), Gap(pairs[|pairs| - 1], x))
  }

  // ----- exchanging pairs and axes -----

  ghost predicate Product(k: real, m: real, total: real) {
    k * m == total
  }

  lemma SumSnoc(s: seq<real>, x: real)
    ensures Sum(s + [x]) == Sum(s) + x
  {
    SumConcat(s, [x]);
  }

  lemma {:induction false} AllGaps(p: Pair, n: nat)
    requires ObservedPair(p) && n <= AXES
    ensures |Gaps(p, n)| == n
  {
    if n > 0 { AllGaps(p, n - 1); }
  }

  lemma {:induction false} AllAxisGaps(pairs: seq<Pair>, x: nat)
    requires AllRecorded(pairs) && AllObserved(pairs) && x < AXES
    ensures |AxisGaps(pairs, x)| == |pairs|
    decreases |pairs|
  {
    if pairs != [] {
      AllAxisGaps(pairs[..|pairs| - 1], x);
      assert ObservedPair(pairs[|pairs| - 1]);
    }
  }

  /** Sum of all gaps of all pairs, axis by axis. */
  function AxisTotal(pairs: seq<Pair>, n: nat): real
    requires AllRecorded(pairs) && n <= AXES
  {
    if n == 0 then 0.0 else AxisTotal(pairs, n - 1) + Sum(AxisGaps(pairs, n - 1))
  }

  lemma {:induction false} AxisTotalNext(pairs: seq<Pair>, n: nat)
    requires pairs != [] && AllRecorded(pairs) && n <= AXES
    ensures AxisTotal(pairs, n) == AxisTotal(pairs[..|pairs| - 1], n) + Sum(Gaps(pairs[|pairs| - 1], n))
    decreases n
  {
    if n > 0 {
      var last := pairs[|pairs| - 1];
      AxisTotalNext(pairs, n - 1);
      if Gap(last, n - 1).Some? {
        SumSnoc(AxisGaps(pairs[..|pairs| - 1], n - 1), Gap(last, n - 1).value);
        SumSnoc(Gaps(last, n - 1), Gap(last, n - 1).value);
      }
    }
  }

  lemma NoAxisTotal(n: nat)
    requires n <= AXES
    ensures AxisTotal([], n) == 0.0
  {
    if n > 0 { NoAxisTotal(n - 1); }
  }

  lemma {:induction false} DistancesByAxis(pairs: seq<Pair>)
    requires AllRecorded(pairs) && AllObserved(pairs)
    ensures Product(AXES as real, Sum(Distances(pairs)), AxisTotal(pairs, AXES))
    decreases |pairs|
  {
    if pairs == [] {
      NoAxisTotal(AXES);
    } else {
      DistancesByAxis(pairs[..|pairs| - 1]);
      LastDistance(pairs, AXES);
    }
  }

  lemma LastDistance(pairs: seq<Pair>, n: nat)
    requires AllRecorded(pairs) && AllObserved(pairs) && pairs != [] && n == AXES
    requires Product(n as real, Sum(Distances(pairs[..|pairs| - 1])), AxisTotal(pairs[..|pairs| - 1], n))
    ensures Product(n as real, Sum(Distances(pairs)), AxisTotal(pairs, n))
  {
    var init, last := pairs[..|pairs| - 1], pairs[|pairs| - 1];
    AxisTotalNext(pairs, n);
    assert ObservedPair(last);
    AllGaps(last, n);
    SumSnoc(Distances(init), Distance(last));
    OneMore(Sum(Distances(init)), AxisTotal(init, n), Distance(last), Sum(Gaps(last, n)));
  }

  lemma OneMore(m: real, total: real, distance: real, gaps: real)
    requires Product(AXES as real, m, total) && distance == gaps / AXES as real
    ensures Product(AXES as real, m + distance, total + gaps)
  {
  }

  // ----- separation, overall and per axis -----

  function HalfSum(a: Option<real>, b: Option<real>): Option<real> {
    if a.Some? && b.Some? then Some((a.value + b.value) / 2.0) else None
  }

  function Minus(a: Option<real>, b: Option<real>): Option<real> {
    if a.Some? && b.Some? then Some(a.value - b.value) else None
  }

  predicate RecordedAll(rows: seq<Vector>) {
    forall i :: 0 <= i < |rows| ==> Recorded(rows[i])
  }

  predicate ObservedAll(rows: seq<Vector>) {
    forall i :: 0 <= i < |rows| ==> Observed(rows[i])
  }

  lemma {:induction false} RowMembers(a: Vector, right: seq<Vector>)
    ensures |Row(a, right)| == |right| && forall i :: 0 <= i < |right| ==> Row(a, right)[i] == (a, right[i])
    decreases |right|
  {
    if right != [] { RowMembers(a, right[..|right| - 1]); }
  }

  lemma {:induction false} CrossMembers(left: seq<Vector>, right: seq<Vector>)
    ensures RecordedAll(left) && RecordedAll(right) ==> AllRecorded(Cross(left, right))
    ensures ObservedAll(left) && ObservedAll(right) ==> AllObserved(Cross(left, right))
    decreases |left|
  {
    if left != [] {
      CrossMembers(left[..|left| - 1], right);
      RowMembers(left[|left| - 1], right);
    }
  }

  lemma {:induction false} CombinationMembers(rows: seq<Vector>)
    ensures RecordedAll(rows) ==> AllRecorded(Combinations(rows))
    ensures ObservedAll(rows) ==> AllObserved(Combinations(rows))
    decreases |rows|
  {
    if rows != [] {
      CombinationMembers(rows[1..]);
      RowMembers(rows[0], rows[1..]);
    }
  }

  /** The three lists of pairs a scenario compares. */
  datatype Lists = Lists(between: seq<Pair>, left: seq<Pair>, right: seq<Pair>)

  function ListsOf(left: seq<Vector>, right: seq<Vector>): (r: Lists)
    requires RecordedAll(left) && RecordedAll(right)
    ensures ListsRecorded(r)
  {
    CrossMembers(left, right);
    CombinationMembers(left);
    CombinationMembers(right);
    Lists(Cross(left, right), Combinations(left), Combinations(right))
  }

  predicate ListsRecorded(l: Lists) {
    AllRecorded(l.between) && AllRecorded(l.left) && AllRecorded(l.right)
  }

  predicate ListsObserved(l: Lists) {
    AllObserved(l.between) && AllObserved(l.left) && AllObserved(l.right)
  }

  function MeanDistance(pairs: seq<Pair>): Option<real>
    requires AllRecorded(pairs)
  {
    MeanOf(Distances(pairs))
  }

  function AxisDistance(pairs: seq<Pair>, x: nat): Option<real>
    requires AllRecorded(pairs) && x < AXES
  {
    MeanOf(AxisGaps(pairs, x))
  }

  /** Mean distance between the sides beyond the mean distance between repeats. */
  function Separation(l: Lists): Option<real>
    requires ListsRecorded(l)
  {
    Minus(MeanDistance(l.between), HalfSum(MeanDistance(l.left), MeanDistance(l.right)))
  }

  function AxisSeparation(l: Lists, x: nat): Option<real>
    requires ListsRecorded(l) && x < AXES
  {
    Minus(AxisDistance(l.between, x), HalfSum(AxisDistance(l.left, x), AxisDistance(l.right, x)))
  }

  /** The separations of the first n axes that have one. */
  function AxisSeparations(l: Lists, n: nat): seq<real>
    requires ListsRecorded(l) && n <= AXES
  {
    if n == 0 then [] else Plus(AxisSeparations(l, n - 1), AxisSeparation(l, n - 1))
  }

  lemma AxisMean(pairs: seq<Pair>, x: nat)
    requires AllRecorded(pairs) && AllObserved(pairs) && x < AXES
    requires pairs != []
    ensures AxisDistance(pairs, x) == Some(Sum(AxisGaps(pairs, x)) / |pairs| as real)
  {
    AllAxisGaps(pairs, x);
  }

  /** The axis means of the first n axes, summed. */
  function Share(pairs: seq<Pair>, n: nat): real
    requires AllRecorded(pairs) && n <= AXES
  {
    if n == 0 then 0.0 else Share(pairs, n - 1) + AxisMeanOrZero(pairs, n - 1)
  }

  function AxisMeanOrZero(pairs: seq<Pair>, x: nat): real
    requires AllRecorded(pairs) && x < AXES
  {
    var axis := AxisDistance(pairs, x);
    if axis.Some? then axis.value else 0.0
  }

  lemma AxisSeparationIs(l: Lists, x: nat)
    requires ListsRecorded(l) && ListsObserved(l) && x < AXES
    requires l.between != [] && l.left != [] && l.right != []
    ensures AxisSeparation(l, x)
         == Some(Step(Share(l.between, x), Share(l.left, x), Share(l.right, x),
                      Share(l.between, x + 1), Share(l.left, x + 1), Share(l.right, x + 1)))
  {
    ShareNext(l.between, x);
    ShareNext(l.left, x);
    ShareNext(l.right, x);
    MinusHalf(AxisDistance(l.between, x), AxisDistance(l.left, x), AxisDistance(l.right, x),
              Share(l.between, x), Share(l.left, x), Share(l.right, x),
              Share(l.between, x + 1), Share(l.left, x + 1), Share(l.right, x + 1));
  }

  /** The axis has a mean, and it is what the share grows by. */
  ghost predicate Grows(axis: Option<real>, share: real, next: real) {
    axis.Some? && next == share + axis.value
  }

  lemma ShareNext(pairs: seq<Pair>, x: nat)
    requires AllRecorded(pairs) && AllObserved(pairs) && x < AXES && pairs != []
    ensures Grows(AxisDistance(pairs, x), Share(pairs, x), Share(pairs, x + 1))
  {
    AxisIsDefined(pairs, x);
  }

  lemma MinusHalf(b: Option<real>, l: Option<real>, r: Option<real>, bs: real, ls: real, rs: real, bn: real, ln: real,
                  rn: real)
    requires Grows(b, bs, bn) && Grows(l, ls, ln) && Grows(r, rs, rn)
    ensures Minus(b, HalfSum(l, r)) == Some(Step(bs, ls, rs, bn, ln, rn))
  {
  }

  /** One axis's separation, from the shares before and after it. */
  function Step(between: real, left: real, right: real, betweenNext: real, leftNext: real, rightNext: real): real {
    betweenNext - between - (leftNext - left + rightNext - right) / 2.0
  }

  lemma StepTotal(s: seq<real>, x: Option<real>, b: real, l: real, r: real, bn: real, ln: real, rn: real)
    requires x == Some(Step(b, l, r, bn, ln, rn)) && Sum(s) == b - (l + r) / 2.0
    ensures |Plus(s, x)| == |s| + 1 && Sum(Plus(s, x)) == bn - (ln + rn) / 2.0
  {
    SumSnoc(s, x.value);
  }

  lemma {:induction false} ShareIsTotal(pairs: seq<Pair>, n: nat)
    requires AllRecorded(pairs) && AllObserved(pairs) && n <= AXES && pairs != []
    ensures Share(pairs, n) == AxisTotal(pairs, n) / |pairs| as real
  {
    if n > 0 {
      ShareIsTotal(pairs, n - 1);
      AxisMean(pairs, n - 1);
      AddShares(AxisTotal(pairs, n - 1), Sum(AxisGaps(pairs, n - 1)), |pairs| as real);
    }
  }

  lemma AddShares(a: real, b: real, n: real)
    requires n != 0.0
    ensures (a + b) / n == a / n + b / n
  {
  }

  lemma AxisIsDefined(pairs: seq<Pair>, x: nat)
    requires AllRecorded(pairs) && AllObserved(pairs) && x < AXES
    ensures AxisDistance(pairs, x).Some? <==> pairs != []
  {
    AllAxisGaps(pairs, x);
  }

  lemma SeparationsTotal(l: Lists, n: nat)
    requires ListsRecorded(l) && ListsObserved(l) && n <= AXES
    requires l.between != [] && l.left != [] && l.right != []
    ensures SeparationsAdd(l, n)
  {
    NothingAdded(l);
    for m := 0 to n
      invariant SeparationsAdd(l, m)
    {
      NextSeparation(l, m + 1);
    }
  }

  ghost predicate SeparationsAdd(l: Lists, n: nat)
    requires ListsRecorded(l) && n <= AXES
  {
    && |AxisSeparations(l, n)| == n
    && Sum(AxisSeparations(l, n)) == Share(l.between, n) - (Share(l.left, n) + Share(l.right, n)) / 2.0
  }

  lemma NothingAdded(l: Lists)
    requires ListsRecorded(l)
    ensures SeparationsAdd(l, 0)
  {
  }

  lemma NextSeparation(l: Lists, n: nat)
    requires ListsRecorded(l) && ListsObserved(l) && 0 < n <= AXES
    requires l.between != [] && l.left != [] && l.right != [] && SeparationsAdd(l, n - 1)
    ensures SeparationsAdd(l, n)
  {
    AxisSeparationIs(l, n - 1);
    StepTotal(AxisSeparations(l, n - 1), AxisSeparation(l, n - 1),
              Share(l.between, n - 1), Share(l.left, n - 1), Share(l.right, n - 1),
              Share(l.between, n), Share(l.left, n), Share(l.right, n));
  }

  /** One of the equal shares of a total among all axes. */
  function PerAxis(total: real): real {
    total / AXES as real
  }

  lemma PerAxisIs(mean: real, total: real)
    requires Product(AXES as real, mean, total)
    ensures mean == PerAxis(total)
  {
  }

  /** A mean distance is the sum of the axis means, shared among the axes. */
  lemma MeanIsShared(pairs: seq<Pair>, n: nat)
    requires AllRecorded(pairs) && AllObserved(pairs) && pairs != [] && n == AXES
    ensures MeanDistance(pairs) == Some(PerAxis(Share(pairs, n)))
  {
    DistancesByAxis(pairs);
    ShareIsTotal(pairs, n);
    DivideBoth(AXES as real, Sum(Distances(pairs)), AxisTotal(pairs, n), |pairs| as real);
    PerAxisIs(Sum(Distances(pairs)) / |pairs| as real, Share(pairs, n));
  }

  lemma DivideBoth(k: real, m: real, total: real, n: real)
    requires n != 0.0 && Product(k, m, total)
    ensures Product(k, m / n, total / n)
  {
    var q := m / n;
    assert q * n == m;
    assert (k * q) * n == total;
  }

  lemma {:induction false} NoSeparations(l: Lists, n: nat)
    requires ListsRecorded(l) && ListsObserved(l) && n <= AXES
    requires l.between == [] || l.left == [] || l.right == []
    ensures AxisSeparations(l, n) == []
  {
    if n > 0 {
      NoSeparations(l, n - 1);
      NoSeparation(l, n - 1);
    }
  }

  lemma NoSeparation(l: Lists, x: nat)
    requires ListsRecorded(l) && ListsObserved(l) && x < AXES
    requires l.between == [] || l.left == [] || l.right == []
    ensures AxisSeparation(l, x) == None
  {
    AxisIsDefined(l.between, x);
    AxisIsDefined(l.left, x);
    AxisIsDefined(l.right, x);
  }

  /** With every axis observed, the mean axis-level separation is the overall one, also in being undefined. */
  lemma SeparationSplitsByAxis(left: seq<Vector>, right: seq<Vector>)
    requires RecordedAll(left) && RecordedAll(right) && ObservedAll(left) && ObservedAll(right)
    ensures MeanOf(AxisSeparations(ListsOf(left, right), AXES)) == Separation(ListsOf(left, right))
  {
    CrossMembers(left, right);
    CombinationMembers(left);
    CombinationMembers(right);
    ListsSplitByAxis(ListsOf(left, right), AXES);
  }

  lemma ListsSplitByAxis(l: Lists, n: nat)
    requires ListsRecorded(l) && ListsObserved(l) && n == AXES
    ensures MeanOf(AxisSeparations(l, n)) == Separation(l)
  {
    if l.between == [] || l.left == [] || l.right == [] {
      NoSeparations(l, n);
    } else {
      var between, left, right := SharesOf(l, n);
      MeanFromShares(AxisSeparations(l, n), MeanDistance(l.between), MeanDistance(l.left), MeanDistance(l.right),
                     between, left, right);
    }
  }

  lemma SharesOf(l: Lists, n: nat) returns (between: real, left: real, right: real)
    requires ListsRecorded(l) && ListsObserved(l) && l.between != [] && l.left != [] && l.right != [] && n == AXES
    ensures |AxisSeparations(l, n)| == n && Sum(AxisSeparations(l, n)) == between - (left + right) / 2.0
    ensures MeanDistance(l.between) == Some(PerAxis(between))
    ensures MeanDistance(l.left) == Some(PerAxis(left)) && MeanDistance(l.right) == Some(PerAxis(right))
  {
    SeparationsTotal(l, n);
    MeanIsShared(l.between, n);
    MeanIsShared(l.left, n);
    MeanIsShared(l.right, n);
    between, left, right := Share(l.between, n), Share(l.left, n), Share(l.right, n);
  }

  lemma MeanFromShares(s: seq<real>, b: Option<real>, l: Option<real>, r: Option<real>,
                       between: real, left: real, right: real)
    requires |s| == AXES && Sum(s) == between - (left + right) / 2.0
    requires b == Some(PerAxis(between)) && l == Some(PerAxis(left)) && r == Some(PerAxis(right))
    ensures MeanOf(s) == Minus(b, HalfSum(l, r))
  {
    assert Mean(s) == PerAxis(Sum(s));
  }
}
