/**
  What fixes the moments and the correlation (src/llm_hardtest/calibration.py:343-376): every pair
  counts alike inside its cluster, and points on a line correlate perfectly.
 */
module CorrelationLaws {
  import opened Numbers
  import opened Sequences
  import opened Correlation

  // ----- moments are additive -----

  lemma UnscaledMoments(c: Cluster)
    requires c != []
    ensures Times(ClusterMoments(c), |c| as real) == Raw(c)
  {
    Unscale(Raw(c), |c| as real);
  }

  lemma Unscale(m: Moments, n: real)
    requires n > 0.0 && m.weight == n
    ensures Times(Moments(1.0, m.x / n, m.y / n, m.xx / n, m.yy / n, m.xy / n), n) == m
  {
    assert m.x / n * n == m.x && m.y / n * n == m.y;
    assert m.xx / n * n == m.xx && m.yy / n * n == m.yy && m.xy / n * n == m.xy;
  }

  /** A pair alone has its own moments, and the moments of two groups of pairs average by size: together
      these fix the moments of every cluster. */
  lemma MomentsAverage(p: Pair, a: Cluster, b: Cluster)
    ensures ClusterMoments([p]) == Moments(1.0, p.x, p.y, p.x * p.x, p.y * p.y, p.x * p.y)
    ensures a != [] && b != [] ==>
      Times(ClusterMoments(a + b), |a + b| as real)
      == Add(Times(ClusterMoments(a), |a| as real), Times(ClusterMoments(b), |b| as real))
  {
    MomentsOfOne(p);
    if a != [] && b != [] {
      UnscaledMoments(a);
      UnscaledMoments(b);
      UnscaledMoments(a + b);
      RawConcat(a, b);
    }
  }

  lemma MomentsOfOne(p: Pair)
    ensures ClusterMoments([p]) == One(p)
  {
    RawCons([p]);
    assert [p][1..] == [];
    OverOne(p.x);
    OverOne(p.y);
    OverOne(p.x * p.x);
    OverOne(p.y * p.y);
    OverOne(p.x * p.y);
  }

  lemma OverOne(s: real)
    ensures (s + 0.0) / 1.0 == s
  {
  }

  // ----- order inside a cluster -----

  lemma {:induction false} RawWithout(c: Cluster, i: nat)
    requires i < |c|
    ensures Raw(c) == Add(One(c[i]), Raw(Without(c, i)))
    decreases i
  {
    RawCons(c);
    if i == 0 {
      assert Without(c, 0) == c[1..];
    } else {
      RawWithout(c[1..], i - 1);
      RawCons(Without(c, i));
      assert Without(c, i)[1..] == Without(c[1..], i - 1) && Without(c, i)[0] == c[0];
      AddExchanges(One(c[0]), One(c[i]), Raw(Without(c[1..], i - 1)));
    }
  }

  lemma AddExchanges(a: Moments, b: Moments, c: Moments)
    ensures Add(a, Add(b, c)) == Add(b, Add(a, c))
  {
  }

  lemma {:induction false} RawPermutation(a: Cluster, b: Cluster)
    requires multiset(a) == multiset(b)
    ensures Raw(a) == Raw(b)
    decreases |a|
  {
    SameSize(a, b);
    if a != [] {
      RestMultiset(a);
      var i := FindMember(b, a[0]);
      MultisetWithout(b, i);
      RawPermutation(a[1..], Without(b, i));
      RawCons(a);
      RawWithout(b, i);
    }
  }

  /** Permuting the pairs of a cluster changes no moments, so it cannot move the correlation. */
  lemma {:induction false} PermutationKeepsCorrelation(clusters: seq<Cluster>, i: nat, c: Cluster)
    requires i < |clusters| && (forall k :: 0 <= k < |clusters| ==> clusters[k] != [])
    requires multiset(c) == multiset(clusters[i])
    ensures c != [] && AllMoments(clusters[i := c]) == AllMoments(clusters)
    decreases i
  {
    SameSize(c, clusters[i]);
    RawPermutation(c, clusters[i]);
    var changed := clusters[i := c];
    if i == 0 {
      assert changed[1..] == clusters[1..];
    } else {
      PermutationKeepsCorrelation(clusters[1..], i - 1, c);
      assert changed[1..] == clusters[1..][i - 1 := c];
    }
  }

  // ----- points on a line -----

  /** Every pair lies on y = a x + b. */
  ghost predicate OnLine(c: Cluster, a: real, b: real) {
    forall j :: 0 <= j < |c| ==> c[j].y == a * c[j].x + b
  }

  ghost predicate AllOnLine(clusters: seq<Cluster>, a: real, b: real) {
    forall i :: 0 <= i < |clusters| ==> clusters[i] != [] && OnLine(clusters[i], a, b)
  }

  /** The moments that points on the line have. */
  ghost predicate Linear(t: Moments, a: real, b: real) {
    && t.y == a * t.x + b * t.weight
    && t.xy == a * t.xx + b * t.x
    && t.yy == a * t.xy + b * t.y
  }

  lemma LinearPair(p: Pair, a: real, b: real)
    requires p.y == a * p.x + b
    ensures Linear(One(p), a, b)
  {
    assert p.x * p.y == a * (p.x * p.x) + b * p.x;
    assert p.y * p.y == a * (p.x * p.y) + b * p.y;
  }

  lemma LinearAdds(s: Moments, t: Moments, sum: Moments, a: real, b: real)
    requires Linear(s, a, b) && Linear(t, a, b) && sum == Add(s, t)
    ensures Linear(sum, a, b)
  {
    YAdds(s, t, a, b);
    XYAdds(s, t, a, b);
    YYAdds(s, t, a, b);
  }

  lemma YAdds(s: Moments, t: Moments, a: real, b: real)
    requires s.y == a * s.x + b * s.weight && t.y == a * t.x + b * t.weight
    ensures Add(s, t).y == a * Add(s, t).x + b * Add(s, t).weight
  {
    Distribute(a, s.x, t.x);
    Distribute(b, s.weight, t.weight);
  }

  lemma XYAdds(s: Moments, t: Moments, a: real, b: real)
    requires s.xy == a * s.xx + b * s.x && t.xy == a * t.xx + b * t.x
    ensures Add(s, t).xy == a * Add(s, t).xx + b * Add(s, t).x
  {
    Distribute(a, s.xx, t.xx);
    Distribute(b, s.x, t.x);
  }

  lemma YYAdds(s: Moments, t: Moments, a: real, b: real)
    requires s.yy == a * s.xy + b * s.y && t.yy == a * t.xy + b * t.y
    ensures Add(s, t).yy == a * Add(s, t).xy + b * Add(s, t).y
  {
    Distribute(a, s.xy, t.xy);
    Distribute(b, s.y, t.y);
  }

  lemma Distribute(k: real, x: real, y: real)
    ensures k * (x + y) == k * x + k * y
  {
  }

  lemma {:induction false} LinearRaw(c: Cluster, a: real, b: real)
    requires OnLine(c, a, b)
    ensures Linear(Raw(c), a, b)
  {
    if c != [] {
      LinearRaw(c[1..], a, b);
      LinearPair(c[0], a, b);
      RawCons(c);
      LinearAdds(One(c[0]), Raw(c[1..]), Raw(c), a, b);
    }
  }

  lemma LinearMoments(c: Cluster, a: real, b: real)
    requires c != [] && OnLine(c, a, b)
    ensures Linear(ClusterMoments(c), a, b)
  {
    LinearRaw(c, a, b);
    LinearDivided(Raw(c), |c| as real, a, b);
  }

  lemma LinearDivided(r: Moments, n: real, a: real, b: real)
    requires n > 0.0 && r.weight == n && Linear(r, a, b)
    ensures Linear(Moments(1.0, r.x / n, r.y / n, r.xx / n, r.yy / n, r.xy / n), a, b)
  {
    DividedLine(r.y, r.x, n, a, b, n);
    DividedLine(r.xy, r.xx, r.x, a, b, n);
    DividedLine(r.yy, r.xy, r.y, a, b, n);
    assert n / n == 1.0;
  }

  lemma DividedLine(y: real, x: real, w: real, a: real, b: real, n: real)
    requires n > 0.0 && y == a * x + b * w
    ensures y / n == a * (x / n) + b * (w / n)
  {
    var p, q := x / n, w / n;
    assert p * n == x && q * n == w;
    assert (a * p + b * q) * n == a * (p * n) + b * (q * n);
    DivideProduct(n, a * p + b * q, y);
  }

  lemma {:induction false} LinearTotal(clusters: seq<Cluster>, a: real, b: real)
    requires AllOnLine(clusters, a, b)
    ensures Linear(Total(AllMoments(clusters)), a, b)
  {
    if clusters == [] {
      LinearZero(a, b);
    } else {
      LinearTotal(clusters[1..], a, b);
      LinearMoments(clusters[0], a, b);
      assert AllMoments(clusters)[1..] == AllMoments(clusters[1..]);
      LinearAdds(ClusterMoments(clusters[0]), Total(AllMoments(clusters[1..])), Total(AllMoments(clusters)), a, b);
    }
  }

  lemma LinearZero(a: real, b: real)
    ensures Linear(Moments(0.0, 0.0, 0.0, 0.0, 0.0, 0.0), a, b)
  {
  }

  /** On a line the numerator and the variance of y follow from the variance of x. */
  lemma LinearSpread(t: Moments, a: real, b: real)
    requires t.weight > 0.0 && Linear(t, a, b)
    ensures Numerator(t) == a * VarianceX(t) && VarianceY(t) == a * (a * VarianceX(t))
  {
    var u, v := t.x / t.weight, t.y / t.weight;
    assert u * t.weight == t.x;
    DividedLine(t.y, t.x, t.weight, a, b, t.weight);
    assert v == a * u + b;
    SpreadAt(t, u, v);
    CrossTerms(t, u, v, a, b);
  }

  lemma CrossTerms(t: Moments, u: real, v: real, a: real, b: real)
    requires u * t.weight == t.x && v == a * u + b && Linear(t, a, b)
    ensures t.xy - u * t.y == a * (t.xx - u * t.x)
    ensures t.yy - v * t.y == a * (a * (t.xx - u * t.x))
  {
    var d := t.xx - u * t.x;
    assert u * t.y == a * (u * t.x) + b * t.x by {
      assert u * (a * t.x) == a * (u * t.x);
      assert u * (b * t.weight) == b * (u * t.weight);
      Distribute(u, a * t.x, b * t.weight);
    }
    assert t.xy - u * t.y == a * t.xx - a * (u * t.x);
    assert t.xy - u * t.y == a * d;
    assert v * t.y == a * (u * t.y) + b * t.y by {
      assert (a * u) * t.y == a * (u * t.y);
    }
    assert t.yy - v * t.y == a * t.xy - a * (u * t.y);
    assert t.yy - v * t.y == a * (t.xy - u * t.y);
  }

  /** Points on a rising line correlate as one, on a falling line as minus one, whatever the weights of the
      clusters; where x does not vary there is no correlation. */
  lemma LineCorrelates(clusters: seq<Cluster>, a: real, b: real, root: real)
    requires clusters != [] && AllOnLine(clusters, a, b) && a != 0.0
    ensures
      var t := Total(AllMoments(clusters));
      && t.weight > 0.0
      && (RootOf(VarianceX(t), VarianceY(t), root) ==>
            FromMoments(AllMoments(clusters), root)
            == if VarianceX(t) == 0.0 then None else Some(if a > 0.0 then 1.0 else -1.0))
  {
    var t := Total(AllMoments(clusters));
    CauchySchwarz(clusters);
    LinearTotal(clusters, a, b);
    LinearSpread(t, a, b);
    if RootOf(VarianceX(t), VarianceY(t), root) {
      LineCorrelation(VarianceX(t), VarianceY(t), Numerator(t), root, a);
    }
  }

  lemma LineCorrelation(vx: real, vy: real, numerator: real, root: real, a: real)
    requires vx >= 0.0 && vy >= 0.0 && vy == a * (a * vx) && numerator == a * vx && a != 0.0 && RootOf(vx, vy, root)
    ensures vx == 0.0 <==> root == 0.0
    ensures root != 0.0 ==> Clamped(numerator, root) == if a > 0.0 then 1.0 else -1.0
  {
    LineRoot(vx, vy, root, a);
    LineRatio(vx, numerator, root, a);
  }

  lemma LineRoot(vx: real, vy: real, root: real, a: real)
    requires vx >= 0.0 && vy >= 0.0 && vy == a * (a * vx) && RootOf(vx, vy, root)
    ensures root == Abs(a) * vx
  {
    var side := Abs(a) * vx;
    assert side >= 0.0;
    assert Abs(a) * Abs(a) == a * a;
    assert side * side == root * root by {
      SquareOfProduct(Abs(a), vx);
      assert vx * vy == a * a * (vx * vx);
    }
    if root < side { SquareGrowsFromZero(root, side); }
    if side < root { SquareGrowsFromZero(side, root); }
  }

  lemma SquareOfProduct(p: real, q: real)
    ensures (p * q) * (p * q) == p * p * (q * q)
  {
  }

  lemma SquareGrowsFromZero(a: real, b: real)
    requires 0.0 <= a < b
    ensures a * a < b * b
  {
    Positive(b - a, b + a);
    assert (b - a) * (b + a) == b * b - a * a;
  }

  lemma Positive(p: real, q: real)
    requires p > 0.0 && q > 0.0
    ensures p * q > 0.0
  {
  }

  lemma LineRatio(vx: real, numerator: real, root: real, a: real)
    requires vx >= 0.0 && a != 0.0 && numerator == a * vx && root == Abs(a) * vx
    ensures vx == 0.0 <==> root == 0.0
    ensures root != 0.0 ==> Clamped(numerator, root) == if a > 0.0 then 1.0 else -1.0
  {
    if vx > 0.0 {
      assert root > 0.0;
      if a > 0.0 {
        DivideProduct(root, 1.0, numerator);
      } else {
        DivideProduct(root, -1.0, numerator);
      }
    }
  }
}
