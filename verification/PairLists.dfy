/**
  Which pairs of attempts a distance is taken over (src/llm_hardtest/pilot_analysis.py:288-293, 1089-1107), when a
  separation is defined, and what it is where distances are uniform.
 */
module PairLists {
  import opened Numbers
  import opened PilotDistances

  // ----- counting occurrences -----

  /** The places at which a value stands. */
  function PlacesOf<T(==)>(s: seq<T>, x: T): set<int> {
    set i | 0 <= i < |s| && s[i] == x
  }

  lemma {:induction false} OccurrencesArePlaces<T>(s: seq<T>, x: T)
    ensures multiset(s)[x] == |PlacesOf(s, x)|
    decreases |s|
  {
    if s != [] {
      var n := |s| - 1;
      assert s == s[..n] + [s[n]];
      OccurrencesArePlaces(s[..n], x);
      assert PlacesOf(s, x) == PlacesOf(s[..n], x) + (if s[n] == x then {n} else {});
    }
  }

  /** A one-to-one image has as many members. */
  lemma {:induction false} SameNumber<A, B>(a: set<A>, b: set<B>, f: A -> B)
    requires forall x :: x in a ==> f(x) in b
    requires forall y :: y in b ==> exists x :: x in a && f(x) == y
    requires forall x, z :: x in a && z in a && f(x) == f(z) ==> x == z
    ensures |a| == |b|
    decreases a
  {
    if a == {} {
      assert b == {};
    } else {
      var x :| x in a;
      forall y | y in b - {f(x)} ensures exists z :: z in a - {x} && f(z) == y {
        var z :| z in a && f(z) == y;
        assert z in a - {x};
      }
      SameNumber(a - {x}, b - {f(x)}, f);
    }
  }

  // ----- combinations: each two attempts once -----

  /** The places i < j that hold the members of a pair. */
  function LaterPlaces(rows: seq<Vector>, p: Pair): set<(int, int)> {
    set i, j | 0 <= i < j < |rows| && rows[i] == p.0 && rows[j] == p.1 :: (i, j)
  }

  function FromFirst(rows: seq<Vector>, p: Pair): set<(int, int)>
    requires rows != []
  {
    set j | 0 < j < |rows| && rows[0] == p.0 && rows[j] == p.1 :: (0, j)
  }

  function NotFromFirst(rows: seq<Vector>, p: Pair): set<(int, int)> {
    set i, j | 0 < i < j < |rows| && rows[i] == p.0 && rows[j] == p.1 :: (i, j)
  }

  lemma RowOccurrences(rows: seq<Vector>, p: Pair)
    requires rows != []
    ensures multiset(Row(rows[0], rows[1..]))[p] == |FromFirst(rows, p)|
  {
    var row := Row(rows[0], rows[1..]);
    RowMembers(rows[0], rows[1..]);
    OccurrencesArePlaces(row, p);
    var f := (j: int) => (0, j + 1);
    forall y | y in FromFirst(rows, p) ensures exists x :: x in PlacesOf(row, p) && f(x) == y {
      assert row[y.1 - 1] == (rows[0], rows[y.1]);
      assert f(y.1 - 1) == y;
    }
    SameNumber(PlacesOf(row, p), FromFirst(rows, p), f);
  }

  lemma LaterOccurrences(rows: seq<Vector>, p: Pair)
    requires rows != []
    ensures |LaterPlaces(rows[1..], p)| == |NotFromFirst(rows, p)|
  {
    var f := (x: (int, int)) => (x.0 + 1, x.1 + 1);
    forall y | y in NotFromFirst(rows, p) ensures exists x :: x in LaterPlaces(rows[1..], p) && f(x) == y {
      assert rows[1..][y.0 - 1] == p.0 && rows[1..][y.1 - 1] == p.1;
      assert f((y.0 - 1, y.1 - 1)) == y;
    }
    SameNumber(LaterPlaces(rows[1..], p), NotFromFirst(rows, p), f);
  }

  /** The within-side pairs are the attempts at i and at j, once for every i < j. */
  lemma {:induction false} CombinationsExactly(rows: seq<Vector>, p: Pair)
    ensures multiset(Combinations(rows))[p] == |LaterPlaces(rows, p)|
    decreases |rows|
  {
    if rows != [] {
      RowOccurrences(rows, p);
      CombinationsExactly(rows[1..], p);
      LaterOccurrences(rows, p);
      assert LaterPlaces(rows, p) == FromFirst(rows, p) + NotFromFirst(rows, p);
    }
  }

  lemma {:induction false} CombinationsNumber(rows: seq<Vector>)
    ensures |Combinations(rows)| * 2 == |rows| * (|rows| - 1)
    decreases |rows|
  {
    if rows != [] {
      CombinationsNumber(rows[1..]);
      RowMembers(rows[0], rows[1..]);
      OneMoreAttempt(|rows| - 1, |Combinations(rows[1..])|);
    }
  }

  lemma OneMoreAttempt(n: nat, pairs: nat)
    requires pairs * 2 == n * (n - 1)
    ensures (n + pairs) * 2 == (n + 1) * n
  {
  }

  // ----- cross pairs: each left attempt with each right one -----

  function CrossPlaces(left: seq<Vector>, right: seq<Vector>, p: Pair): set<(int, int)> {
    set i, j | 0 <= i < |left| && 0 <= j < |right| && left[i] == p.0 && right[j] == p.1 :: (i, j)
  }

  function LastPlaces(left: seq<Vector>, right: seq<Vector>, p: Pair): set<(int, int)>
    requires left != []
  {
    set j | 0 <= j < |right| && left[|left| - 1] == p.0 && right[j] == p.1 :: (|left| - 1, j)
  }

  lemma LastOccurrences(left: seq<Vector>, right: seq<Vector>, p: Pair)
    requires left != []
    ensures multiset(Row(left[|left| - 1], right))[p] == |LastPlaces(left, right, p)|
  {
    var n := |left| - 1;
    var row := Row(left[n], right);
    RowMembers(left[n], right);
    OccurrencesArePlaces(row, p);
    var f := (j: int) => (n, j);
    forall y | y in LastPlaces(left, right, p) ensures exists x :: x in PlacesOf(row, p) && f(x) == y {
      assert row[y.1] == (left[n], right[y.1]);
      assert f(y.1) == y;
    }
    SameNumber(PlacesOf(row, p), LastPlaces(left, right, p), f);
  }

  /** The pairs between two sides are the left attempt at i and the right one at j, once for every i and j. */
  lemma {:induction false} CrossExactly(left: seq<Vector>, right: seq<Vector>, p: Pair)
    ensures multiset(Cross(left, right))[p] == |CrossPlaces(left, right, p)|
    decreases |left|
  {
    if left != [] {
      var init := left[..|left| - 1];
      CrossExactly(init, right, p);
      LastOccurrences(left, right, p);
      CrossPlacesSplit(left, right, p);
      TogetherCounted(Cross(init, right), Row(left[|left| - 1], right), p);
    }
  }

  lemma CrossPlacesSplit(left: seq<Vector>, right: seq<Vector>, p: Pair)
    requires left != []
    ensures |CrossPlaces(left, right, p)|
         == |CrossPlaces(left[..|left| - 1], right, p)| + |LastPlaces(left, right, p)|
  {
    assert CrossPlaces(left, right, p) == CrossPlaces(left[..|left| - 1], right, p) + LastPlaces(left, right, p);
  }

  lemma TogetherCounted<T>(a: seq<T>, b: seq<T>, x: T)
    ensures multiset(a + b)[x] == multiset(a)[x] + multiset(b)[x]
  {
  }

  lemma {:induction false} CrossNumber(left: seq<Vector>, right: seq<Vector>)
    ensures |Cross(left, right)| == |left| * |right|
    decreases |left|
  {
    if left != [] {
      CrossNumber(left[..|left| - 1], right);
      RowMembers(left[|left| - 1], right);
      OneMoreRow(|left| - 1, |right|);
    }
  }

  lemma OneMoreRow(n: nat, m: nat)
    ensures (n + 1) * m == n * m + m
  {
  }

  // ----- when distances are defined -----

  lemma HalfOf(n: nat, pairs: nat)
    requires pairs * 2 == n * (n - 1)
    ensures pairs > 0 <==> n >= 2
  {
    if n >= 2 { assert n * (n - 1) > 0; }
  }

  lemma WithinDefined(rows: seq<Vector>)
    requires RecordedAll(rows) && AllRecorded(Combinations(rows))
    ensures MeanDistance(Combinations(rows)).Some? <==> |rows| >= 2
  {
    CombinationsNumber(rows);
    HalfOf(|rows|, |Combinations(rows)|);
  }

  lemma BetweenDefined(left: seq<Vector>, right: seq<Vector>)
    requires RecordedAll(left) && RecordedAll(right) && AllRecorded(Cross(left, right))
    ensures MeanDistance(Cross(left, right)).Some? <==> left != [] && right != []
  {
    CrossNumber(left, right);
    if left != [] && right != [] { assert |left| * |right| > 0; }
  }

  /** A separation is defined if and only if both sides hold at least two attempts. */
  lemma SeparationDefinedExactly(left: seq<Vector>, right: seq<Vector>)
    requires RecordedAll(left) && RecordedAll(right)
    ensures Separation(ListsOf(left, right)).Some? <==> |left| >= 2 && |right| >= 2
  {
    CrossMembers(left, right);
    CombinationMembers(left);
    CombinationMembers(right);
    WithinDefined(left);
    WithinDefined(right);
    BetweenDefined(left, right);
    AllThreeDefined(MeanDistance(Cross(left, right)), MeanDistance(Combinations(left)),
                    MeanDistance(Combinations(right)));
  }

  lemma AllThreeDefined(b: Option<real>, l: Option<real>, r: Option<real>)
    ensures Minus(b, HalfSum(l, r)).Some? <==> b.Some? && l.Some? && r.Some?
  {
  }

  // ----- uniform distances -----

  /** Any two attempts of one side are this far apart. */
  ghost predicate Within(rows: seq<Vector>, d: real)
    requires RecordedAll(rows)
  {
    forall i, j :: 0 <= i < j < |rows| ==> Distance((rows[i], rows[j])) == d
  }

  ghost predicate Between(left: seq<Vector>, right: seq<Vector>, d: real)
    requires RecordedAll(left) && RecordedAll(right)
  {
    forall i, j :: 0 <= i < |left| && 0 <= j < |right| ==> Distance((left[i], right[j])) == d
  }

  lemma {:induction false} DistancesAre(pairs: seq<Pair>, d: real)
    requires AllRecorded(pairs) && forall i :: 0 <= i < |pairs| ==> Distance(pairs[i]) == d
    ensures forall x :: x in Distances(pairs) ==> x == d
    decreases |pairs|
  {
    if pairs != [] { DistancesAre(pairs[..|pairs| - 1], d); }
  }

  lemma UniformMean(pairs: seq<Pair>, d: real)
    requires AllRecorded(pairs) && pairs != [] && forall p :: p in pairs ==> Distance(p) == d
    ensures MeanDistance(pairs) == Some(d)
  {
    forall i | 0 <= i < |pairs| ensures Distance(pairs[i]) == d {
      assert pairs[i] in pairs;
    }
    DistancesAre(pairs, d);
    MeanOfEqual(Distances(pairs), d);
  }

  lemma UniformWithin(rows: seq<Vector>, d: real)
    requires RecordedAll(rows) && |rows| >= 2 && AllRecorded(Combinations(rows)) && Within(rows, d)
    ensures MeanDistance(Combinations(rows)) == Some(d)
  {
    WithinDefined(rows);
    forall p | p in Combinations(rows) ensures Distance(p) == d {
      CombinationsExactly(rows, p);
      assert multiset(Combinations(rows))[p] > 0;
      var place :| place in LaterPlaces(rows, p);
      assert Distance((rows[place.0], rows[place.1])) == d;
    }
    UniformMean(Combinations(rows), d);
  }

  lemma UniformBetween(left: seq<Vector>, right: seq<Vector>, d: real)
    requires RecordedAll(left) && RecordedAll(right) && left != [] && right != []
    requires AllRecorded(Cross(left, right)) && Between(left, right, d)
    ensures MeanDistance(Cross(left, right)) == Some(d)
  {
    BetweenDefined(left, right);
    forall p | p in Cross(left, right) ensures Distance(p) == d {
      CrossExactly(left, right, p);
      assert multiset(Cross(left, right))[p] > 0;
      var place :| place in CrossPlaces(left, right, p);
      assert Distance((left[place.0], right[place.1])) == d;
    }
    UniformMean(Cross(left, right), d);
  }

  /** Where repeats on the left are x apart, those on the right y, and the sides z, the separation is what z
      exceeds the middle of x and y by: nothing for attempts that all lie equally far apart. */
  lemma UniformSeparation(left: seq<Vector>, right: seq<Vector>, x: real, y: real, z: real)
    requires RecordedAll(left) && RecordedAll(right) && |left| >= 2 && |right| >= 2
    requires Within(left, x) && Within(right, y) && Between(left, right, z)
    ensures Separation(ListsOf(left, right)) == Some(z - (x + y) / 2.0)
    ensures x == y == z ==> Separation(ListsOf(left, right)) == Some(0.0)
  {
    var l := ListsOf(left, right);
    UniformWithin(left, x);
    UniformWithin(right, y);
    UniformBetween(left, right, z);
    LessTheMiddle(MeanDistance(l.between), MeanDistance(l.left), MeanDistance(l.right), x, y, z);
  }

  lemma LessTheMiddle(b: Option<real>, l: Option<real>, r: Option<real>, x: real, y: real, z: real)
    requires b == Some(z) && l == Some(x) && r == Some(y)
    ensures Minus(b, HalfSum(l, r)) == Some(z - (x + y) / 2.0)
  {
  }

  // ----- the same on one axis -----

  /** On this axis any two attempts of one side were observed this far apart. */
  ghost predicate AxisWithin(rows: seq<Vector>, axis: nat, d: real)
    requires RecordedAll(rows) && axis < AXES
  {
    forall i, j :: 0 <= i < j < |rows| ==> Gap((rows[i], rows[j]), axis) == Some(d)
  }

  ghost predicate AxisBetween(left: seq<Vector>, right: seq<Vector>, axis: nat, d: real)
    requires RecordedAll(left) && RecordedAll(right) && axis < AXES
  {
    forall i, j :: 0 <= i < |left| && 0 <= j < |right| ==> Gap((left[i], right[j]), axis) == Some(d)
  }

  lemma {:induction false} AxisGapsAre(pairs: seq<Pair>, axis: nat, d: real)
    requires axis < AXES && AllRecorded(pairs) && forall i :: 0 <= i < |pairs| ==> Gap(pairs[i], axis) == Some(d)
    ensures |AxisGaps(pairs, axis)| == |pairs| && forall x :: x in AxisGaps(pairs, axis) ==> x == d
    decreases |pairs|
  {
    if pairs != [] { AxisGapsAre(pairs[..|pairs| - 1], axis, d); }
  }

  lemma UniformAxisMean(pairs: seq<Pair>, axis: nat, d: real)
    requires axis < AXES && AllRecorded(pairs) && pairs != [] && forall p :: p in pairs ==> Gap(p, axis) == Some(d)
    ensures AxisDistance(pairs, axis) == Some(d)
  {
    forall i | 0 <= i < |pairs| ensures Gap(pairs[i], axis) == Some(d) {
      assert pairs[i] in pairs;
    }
    AxisGapsAre(pairs, axis, d);
    MeanOfEqual(AxisGaps(pairs, axis), d);
  }

  lemma UniformAxisWithin(rows: seq<Vector>, axis: nat, d: real)
    requires RecordedAll(rows) && |rows| >= 2 && AllRecorded(Combinations(rows)) && axis < AXES
    requires AxisWithin(rows, axis, d)
    ensures AxisDistance(Combinations(rows), axis) == Some(d)
  {
    WithinDefined(rows);
    forall p | p in Combinations(rows) ensures Gap(p, axis) == Some(d) {
      CombinationsExactly(rows, p);
      assert multiset(Combinations(rows))[p] > 0;
      var place :| place in LaterPlaces(rows, p);
      assert Gap((rows[place.0], rows[place.1]), axis) == Some(d);
    }
    UniformAxisMean(Combinations(rows), axis, d);
  }

  lemma UniformAxisBetween(left: seq<Vector>, right: seq<Vector>, axis: nat, d: real)
    requires RecordedAll(left) && RecordedAll(right) && left != [] && right != [] && axis < AXES
    requires AllRecorded(Cross(left, right)) && AxisBetween(left, right, axis, d)
    ensures AxisDistance(Cross(left, right), axis) == Some(d)
  {
    BetweenDefined(left, right);
    forall p | p in Cross(left, right) ensures Gap(p, axis) == Some(d) {
      CrossExactly(left, right, p);
      assert multiset(Cross(left, right))[p] > 0;
      var place :| place in CrossPlaces(left, right, p);
      assert Gap((left[place.0], right[place.1]), axis) == Some(d);
    }
    UniformAxisMean(Cross(left, right), axis, d);
  }

  lemma UniformAxisSeparation(left: seq<Vector>, right: seq<Vector>, axis: nat, x: real, y: real, z: real)
    requires RecordedAll(left) && RecordedAll(right) && |left| >= 2 && |right| >= 2 && axis < AXES
    requires AxisWithin(left, axis, x) && AxisWithin(right, axis, y) && AxisBetween(left, right, axis, z)
    ensures AxisSeparation(ListsOf(left, right), axis) == Some(z - (x + y) / 2.0)
  {
    CrossMembers(left, right);
    CombinationMembers(left);
    CombinationMembers(right);
    UniformAxisWithin(left, axis, x);
    UniformAxisWithin(right, axis, y);
    UniformAxisBetween(left, right, axis, z);
    LessTheMiddle(AxisDistance(Cross(left, right), axis), AxisDistance(Combinations(left), axis),
                  AxisDistance(Combinations(right), axis), x, y, z);
  }
}
