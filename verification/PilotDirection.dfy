/**
  Directional contrasts between Round 5 configurations and the distances that bound them
  (src/llm_hardtest/pilot_analysis.py:331-347, 446-451, 1089-1143).
 */
module PilotDirection {
  import opened Numbers
  import opened PilotDistances

  // ----- a difference of means is at most the mean difference -----

  function GapsTo(x: real, ys: seq<real>): (r: seq<real>)
    ensures |r| == |ys|
  {
    if ys == [] then [] else GapsTo(x, ys[..|ys| - 1]) + [Abs(x - ys[|ys| - 1])]
  }

  function CrossGaps(xs: seq<real>, ys: seq<real>): seq<real> {
    if xs == [] then [] else CrossGaps(xs[..|xs| - 1], ys) + GapsTo(xs[|xs| - 1], ys)
  }

  lemma LastSum(s: seq<real>)
    requires s != []
    ensures Sum(s) == Sum(s[..|s| - 1]) + s[|s| - 1]
  {
    assert s == s[..|s| - 1] + [s[|s| - 1]];
    SumSnoc(s[..|s| - 1], s[|s| - 1]);
  }

  function Scale(n: nat, x: real): real {
    n as real * x
  }

  lemma ScaleNext(n: nat, x: real)
    ensures Scale(n + 1, x) == Scale(n, x) + x
  {
  }

  lemma {:induction false} GapsToBound(x: real, ys: seq<real>)
    ensures Abs(Scale(|ys|, x) - Sum(ys)) <= Sum(GapsTo(x, ys))
    decreases |ys|
  {
    if ys != [] {
      var init, last := ys[..|ys| - 1], ys[|ys| - 1];
      GapsToBound(x, init);
      LastSum(ys);
      SumSnoc(GapsTo(x, init), Abs(x - last));
      ScaleNext(|init|, x);
    }
  }

  lemma ScaleAdd(n: nat, x: real, y: real)
    ensures Scale(n, x + y) == Scale(n, x) + Scale(n, y)
  {
  }

  ghost predicate Bounded(sx: real, sy: real, m: nat, n: nat, gaps: real) {
    Abs(Scale(n, sx) - Scale(m, sy)) <= gaps
  }

  ghost predicate PairCount(m: nat, n: nat, pairs: nat) {
    pairs == m * n
  }

  lemma {:induction false} CrossGapsBound(xs: seq<real>, ys: seq<real>)
    ensures Bounded(Sum(xs), Sum(ys), |xs|, |ys|, Sum(CrossGaps(xs, ys)))
    decreases |xs|
  {
    if xs == [] {
      assert Scale(|ys|, 0.0) == 0.0 && Scale(0, Sum(ys)) == 0.0;
    } else {
      var init, last := xs[..|xs| - 1], xs[|xs| - 1];
      CrossGapsBound(init, ys);
      GapsToBound(last, ys);
      LastSum(xs);
      SumConcat(CrossGaps(init, ys), GapsTo(last, ys));
      ScaleAdd(|ys|, Sum(init), last);
      ScaleNext(|init|, Sum(ys));
    }
  }

  lemma {:induction false} CrossGapsLength(xs: seq<real>, ys: seq<real>)
    ensures PairCount(|xs|, |ys|, |CrossGaps(xs, ys)|)
    decreases |xs|
  {
    if xs != [] {
      CrossGapsLength(xs[..|xs| - 1], ys);
      assert (|xs| - 1) * |ys| + |ys| == |xs| * |ys|;
    }
  }

  /** Dividing the bound by the number of pairs. */
  lemma DivideBound(sx: real, sy: real, m: real, n: real, k: real, gaps: real)
    requires m > 0.0 && n > 0.0 && k == m * n && k > 0.0 && Abs(n * sx - m * sy) <= gaps
    ensures Abs(sx / m - sy / n) <= gaps / k
  {
    var x, y := sx / m, sy / n;
    assert sx == m * x && sy == n * y;
    assert n * sx == k * x && m * sy == k * y;
    assert n * sx - m * sy == k * (x - y);
    ScaledAbs(k, x - y, gaps);
  }

  lemma ScaledAbs(k: real, d: real, gaps: real)
    requires k > 0.0 && Abs(k * d) <= gaps
    ensures Abs(d) <= gaps / k
  {
    var q := gaps / k;
    assert k * q == gaps;
    if d > q { ScaleOrder(k, q, d); }
    if -d > q { ScaleOrder(k, q, -d); }
  }

  lemma ScaleOrder(k: real, x: real, y: real)
    requires k > 0.0 && x < y
    ensures k * x < k * y
  {
  }

  lemma MeansBound(xs: seq<real>, ys: seq<real>)
    requires xs != [] && ys != []
    ensures CrossGaps(xs, ys) != []
    ensures Abs(Mean(xs) - Mean(ys)) <= Mean(CrossGaps(xs, ys))
  {
    CrossGapsBound(xs, ys);
    CrossGapsLength(xs, ys);
    DivideByPairs(Sum(xs), Sum(ys), |xs|, |ys|, Sum(CrossGaps(xs, ys)), |CrossGaps(xs, ys)|);
  }

  lemma DivideByPairs(sx: real, sy: real, m: nat, n: nat, gaps: real, pairs: nat)
    requires m > 0 && n > 0 && PairCount(m, n, pairs) && Bounded(sx, sy, m, n, gaps)
    ensures pairs > 0 && Abs(sx / m as real - sy / n as real) <= gaps / pairs as real
  {
    RealCount(m, n, pairs);
    DivideReals(sx, sy, m as real, n as real, pairs as real, gaps);
  }

  lemma RealCount(m: nat, n: nat, pairs: nat)
    requires m > 0 && n > 0 && PairCount(m, n, pairs)
    ensures pairs > 0 && RealProduct(m as real, n as real, pairs as real)
  {
  }

  ghost predicate RealProduct(m: real, n: real, k: real) {
    k == m * n
  }

  lemma DivideReals(sx: real, sy: real, m: real, n: real, k: real, gaps: real)
    requires m > 0.0 && n > 0.0 && k > 0.0 && RealProduct(m, n, k) && Abs(n * sx - m * sy) <= gaps
    ensures Abs(sx / m - sy / n) <= gaps / k
  {
    DivideBound(sx, sy, m, n, k, gaps);
  }

  // ----- per axis, whatever was observed -----

  /** The observed values of one axis. */
  function AxisValues(rows: seq<Vector>, x: nat): seq<real>
    requires RecordedAll(rows) && x < AXES
  {
    if rows == [] then [] else Plus(AxisValues(rows[..|rows| - 1], x), rows[|rows| - 1][x])
  }

  function AxisAdvantage(left: seq<Vector>, right: seq<Vector>, x: nat): Option<real>
    requires RecordedAll(left) && RecordedAll(right) && x < AXES
  {
    Minus(MeanOf(AxisValues(left, x)), MeanOf(AxisValues(right, x)))
  }

  lemma {:induction false} AxisGapsConcat(p: seq<Pair>, q: seq<Pair>, x: nat)
    requires AllRecorded(p) && AllRecorded(q) && AllRecorded(p + q) && x < AXES
    ensures AxisGaps(p + q, x) == AxisGaps(p, x) + AxisGaps(q, x)
    decreases |q|
  {
    if q == [] {
      assert p + q == p;
    } else {
      var init, last := q[..|q| - 1], q[|q| - 1];
      assert (p + q)[..|p + q| - 1] == p + init;
      AxisGapsConcat(p, init, x);
    }
  }

  lemma {:induction false} AxisGapsOfRow(a: Vector, right: seq<Vector>, x: nat)
    requires Recorded(a) && RecordedAll(right) && AllRecorded(Row(a, right)) && x < AXES
    ensures AxisGaps(Row(a, right), x) == if a[x].Some? then GapsTo(a[x].value, AxisValues(right, x)) else []
    decreases |right|
  {
    if right != [] {
      var init, last := right[..|right| - 1], right[|right| - 1];
      RowMembers(a, init);
      assert Row(a, right)[..|Row(a, right)| - 1] == Row(a, init);
      AxisGapsOfRow(a, init, x);
      var seen := AxisValues(init, x);
      if a[x].Some? && last[x].Some? {
        assert (seen + [last[x].value])[..|seen|] == seen;
      }
    }
  }

  /** The axis gaps over all pairs are the gaps between the observed values. */
  lemma {:induction false} AxisGapsOfCross(left: seq<Vector>, right: seq<Vector>, x: nat)
    requires RecordedAll(left) && RecordedAll(right) && AllRecorded(Cross(left, right)) && x < AXES
    ensures AxisGaps(Cross(left, right), x) == CrossGaps(AxisValues(left, x), AxisValues(right, x))
    decreases |left|
  {
    if left != [] {
      var init, last := left[..|left| - 1], left[|left| - 1];
      CrossMembers(init, right);
      RowMembers(last, right);
      AxisGapsOfCross(init, right, x);
      AxisGapsConcat(Cross(init, right), Row(last, right), x);
      AxisGapsOfRow(last, right, x);
      var seen := AxisValues(init, x);
      if last[x].Some? {
        assert (seen + [last[x].value])[..|seen|] == seen;
      }
    }
  }

  /** On every axis the advantage is at most the mean distance, and one is defined exactly when the other is. */
  lemma AxisAdvantageBounded(left: seq<Vector>, right: seq<Vector>, x: nat)
    requires RecordedAll(left) && RecordedAll(right) && x < AXES
    ensures
      var advantage, distance := AxisAdvantage(left, right, x), AxisDistance(ListsOf(left, right).between, x);
      && (advantage.Some? <==> distance.Some?)
      && (advantage.Some? ==> Abs(advantage.value) <= distance.value)
  {
    CrossMembers(left, right);
    AxisGapsOfCross(left, right, x);
    var xs, ys := AxisValues(left, x), AxisValues(right, x);
    if xs != [] && ys != [] {
      MeansBound(xs, ys);
    } else {
      CrossGapsLength(xs, ys);
    }
  }

  lemma {:induction false} AxisValuesAre(rows: seq<Vector>, x: nat, a: real)
    requires RecordedAll(rows) && x < AXES && forall i :: 0 <= i < |rows| ==> rows[i][x] == Some(a)
    ensures |AxisValues(rows, x)| == |rows| && forall v :: v in AxisValues(rows, x) ==> v == a
    decreases |rows|
  {
    if rows != [] { AxisValuesAre(rows[..|rows| - 1], x, a); }
  }

  /** Where every attempt of a side shows one value on an axis, the advantage is left minus right, and it takes
      an attempt on each side. */
  lemma UniformAxisAdvantage(left: seq<Vector>, right: seq<Vector>, x: nat, a: real, b: real)
    requires RecordedAll(left) && RecordedAll(right) && x < AXES
    requires forall i :: 0 <= i < |left| ==> left[i][x] == Some(a)
    requires forall i :: 0 <= i < |right| ==> right[i][x] == Some(b)
    ensures AxisAdvantage(left, right, x) == if left != [] && right != [] then Some(a - b) else None
  {
    AxisValuesAre(left, x, a);
    AxisValuesAre(right, x, b);
    if left != [] { MeanOfEqual(AxisValues(left, x), a); }
    if right != [] { MeanOfEqual(AxisValues(right, x), b); }
  }

  // ----- over all axes -----

  function Values(v: Vector, n: nat): (r: seq<real>)
    requires Observed(v) && n <= AXES
    ensures |r| == n
  {
    if n == 0 then [] else Values(v, n - 1) + [v[n - 1].value]
  }

  /** The equal-axis outcome, only where every axis is observed. */
  function Outcome(v: Vector): Option<real> {
    if Observed(v) then Some(Mean(Values(v, AXES))) else None
  }

  function Outcomes(rows: seq<Vector>): seq<real> {
    if rows == [] then [] else Plus(Outcomes(rows[..|rows| - 1]), Outcome(rows[|rows| - 1]))
  }

  function Advantage(left: seq<Vector>, right: seq<Vector>): Option<real> {
    Minus(MeanOf(Outcomes(left)), MeanOf(Outcomes(right)))
  }

  lemma {:induction false} SumGapsBound(p: Pair, n: nat)
    requires ObservedPair(p) && n <= AXES
    ensures Abs(Sum(Values(p.0, n)) - Sum(Values(p.1, n))) <= Sum(Gaps(p, n))
  {
    if n > 0 {
      SumGapsBound(p, n - 1);
      SumSnoc(Values(p.0, n - 1), p.0[n - 1].value);
      SumSnoc(Values(p.1, n - 1), p.1[n - 1].value);
      SumSnoc(Gaps(p, n - 1), Gap(p, n - 1).value);
    }
  }

  lemma OutcomeGapBound(p: Pair)
    requires ObservedPair(p)
    ensures Abs(Outcome(p.0).value - Outcome(p.1).value) <= Distance(p)
  {
    SumGapsBound(p, AXES);
    AllGaps(p, AXES);
    OverEight(Sum(Values(p.0, AXES)), Sum(Values(p.1, AXES)), Sum(Gaps(p, AXES)), AXES as real);
  }

  lemma OverEight(a: real, b: real, gaps: real, k: real)
    requires k > 0.0 && Abs(a - b) <= gaps
    ensures Abs(a / k - b / k) <= gaps / k
  {
    assert a / k - b / k == (a - b) / k;
    assert k * ((a - b) / k) == a - b;
    ScaledAbs(k, (a - b) / k, gaps);
  }

  lemma {:induction false} AllOutcomes(rows: seq<Vector>)
    requires ObservedAll(rows)
    ensures |Outcomes(rows)| == |rows|
    ensures forall i :: 0 <= i < |rows| ==> Outcome(rows[i]).Some? && Outcomes(rows)[i] == Outcome(rows[i]).value
    decreases |rows|
  {
    if rows != [] { AllOutcomes(rows[..|rows| - 1]); }
  }

  lemma {:induction false} RowDistances(a: Vector, right: seq<Vector>)
    requires Observed(a) && ObservedAll(right) && AllRecorded(Row(a, right))
    ensures Sum(GapsTo(Outcome(a).value, Outcomes(right))) <= Sum(Distances(Row(a, right)))
    decreases |right|
  {
    if right != [] {
      var init, last := right[..|right| - 1], right[|right| - 1];
      RowMembers(a, init);
      var row := Row(a, right);
      assert row[..|row| - 1] == Row(a, init) && row[|row| - 1] == (a, last);
      RowDistances(a, init);
      OutcomeGapBound((a, last));
      GapsToNext(Outcome(a).value, Outcomes(init), Outcome(last).value);
      SumSnoc(Distances(Row(a, init)), Distance((a, last)));
    }
  }

  lemma GapsToNext(x: real, ys: seq<real>, y: real)
    ensures Sum(GapsTo(x, ys + [y])) == Sum(GapsTo(x, ys)) + Abs(x - y)
  {
    assert (ys + [y])[..|ys|] == ys;
    SumSnoc(GapsTo(x, ys), Abs(x - y));
  }

  lemma {:induction false} DistancesConcat(p: seq<Pair>, q: seq<Pair>)
    requires AllRecorded(p) && AllRecorded(q) && AllRecorded(p + q)
    ensures Distances(p + q) == Distances(p) + Distances(q)
    decreases |q|
  {
    if q == [] {
      assert p + q == p;
    } else {
      assert (p + q)[..|p + q| - 1] == p + q[..|q| - 1];
      DistancesConcat(p, q[..|q| - 1]);
    }
  }

  lemma {:induction false} CrossDistances(left: seq<Vector>, right: seq<Vector>)
    requires RecordedAll(left) && RecordedAll(right) && ObservedAll(left) && ObservedAll(right)
    requires AllRecorded(Cross(left, right))
    ensures Sum(CrossGaps(Outcomes(left), Outcomes(right))) <= Sum(Distances(Cross(left, right)))
    ensures |CrossGaps(Outcomes(left), Outcomes(right))| == |Cross(left, right)|
    decreases |left|
  {
    if left != [] {
      var init, last := left[..|left| - 1], left[|left| - 1];
      CrossMembers(init, right);
      RowMembers(last, right);
      CrossDistances(init, right);
      RowDistances(last, right);
      AllOutcomes(right);
      DistancesConcat(Cross(init, right), Row(last, right));
      SumConcat(Distances(Cross(init, right)), Distances(Row(last, right)));
      var seen := Outcomes(init);
      assert (seen + [Outcome(last).value])[..|seen|] == seen;
      SumConcat(CrossGaps(seen, Outcomes(right)), GapsTo(Outcome(last).value, Outcomes(right)));
    }
  }

  lemma MeansWithin(xs: seq<real>, ys: seq<real>, ds: seq<real>)
    requires xs != [] && ys != [] && |ds| == |CrossGaps(xs, ys)| && Sum(CrossGaps(xs, ys)) <= Sum(ds)
    ensures ds != [] && Abs(Mean(xs) - Mean(ys)) <= Mean(ds)
  {
    MeansBound(xs, ys);
    Divided(Sum(CrossGaps(xs, ys)), Sum(ds), |ds| as real);
  }

  lemma Divided(x: real, y: real, k: real)
    requires x <= y && k > 0.0
    ensures x / k <= y / k
  {
  }

  /** With every axis observed, the directional advantage never exceeds the mean distance. */
  lemma AdvantageBounded(left: seq<Vector>, right: seq<Vector>)
    requires RecordedAll(left) && RecordedAll(right) && ObservedAll(left) && ObservedAll(right)
    ensures
      var advantage, distance := Advantage(left, right), MeanDistance(ListsOf(left, right).between);
      && (advantage.Some? <==> distance.Some?)
      && (advantage.Some? ==> Abs(advantage.value) <= distance.value)
  {
    CrossMembers(left, right);
    CrossDistances(left, right);
    AllOutcomes(left);
    AllOutcomes(right);
    var xs, ys := Outcomes(left), Outcomes(right);
    if xs != [] && ys != [] {
      MeansWithin(xs, ys, Distances(Cross(left, right)));
    } else {
      CrossGapsLength(xs, ys);
    }
  }
}
