/**
  Cluster-weighted correlation from first and second moments
  (src/llm_hardtest/calibration.py:343-376).
 */
module Correlation {
  import opened Numbers

  datatype Pair = Pair(x: real, y: real)

  /** One cluster's weight and its mean x, y, x^2, y^2 and xy. */
  datatype Moments = Moments(weight: real, x: real, y: real, xx: real, yy: real, xy: real)

  type Cluster = seq<Pair>

  function SumX(c: Cluster): real { if c == [] then 0.0 else c[0].x + SumX(c[1..]) }
  function SumY(c: Cluster): real { if c == [] then 0.0 else c[0].y + SumY(c[1..]) }
  function SumXX(c: Cluster): real { if c == [] then 0.0 else c[0].x * c[0].x + SumXX(c[1..]) }
  function SumYY(c: Cluster): real { if c == [] then 0.0 else c[0].y * c[0].y + SumYY(c[1..]) }
  function SumXY(c: Cluster): real { if c == [] then 0.0 else c[0].x * c[0].y + SumXY(c[1..]) }

  function ClusterMoments(c: Cluster): Moments
    requires c != []
  {
    var n := |c| as real;
    Moments(1.0, SumX(c) / n, SumY(c) / n, SumXX(c) / n, SumYY(c) / n, SumXY(c) / n)
  }

  function Add(a: Moments, b: Moments): Moments {
    Moments(a.weight + b.weight, a.x + b.x, a.y + b.y, a.xx + b.xx, a.yy + b.yy, a.xy + b.xy)
  }

  function Total(rows: seq<Moments>): Moments {
    if rows == [] then Moments(0.0, 0.0, 0.0, 0.0, 0.0, 0.0) else Add(rows[0], Total(rows[1..]))
  }

  function Numerator(t: Moments): real
    requires t.weight != 0.0
  {
    t.xy - t.x * t.y / t.weight
  }

  function VarianceX(t: Moments): real
    requires t.weight != 0.0
  {
    t.xx - t.x * t.x / t.weight
  }

  function VarianceY(t: Moments): real
    requires t.weight != 0.0
  {
    t.yy - t.y * t.y / t.weight
  }

  /**
    The correlation, with both clamps of the source. `root` is what the square root of the
    clamped variance product returns.
   */
  function FromMoments(rows: seq<Moments>, root: real): Option<real> {
    var t := Total(rows);
    if t.weight == 0.0 || root == 0.0 then None
    else Some(Clamped(Numerator(t), root))
  }

  function Clamped(numerator: real, root: real): real
    requires root != 0.0
  {
    Max(-1.0, Min(1.0, numerator / root))
  }

  ghost predicate RootOf(vx: real, vy: real, root: real) {
    root >= 0.0 && root * root == Max(0.0, vx) * Max(0.0, vy)
  }

  function AllMoments(clusters: seq<Cluster>): (r: seq<Moments>)
    requires forall i :: 0 <= i < |clusters| ==> clusters[i] != []
    ensures |r| == |clusters|
  {
    if clusters == [] then [] else [ClusterMoments(clusters[0])] + AllMoments(clusters[1..])
  }

  // ----- every quadratic form in the moments is a mean of squares -----

  /** The mean of (a*x + b*y + c)^2, expanded over the moments. */
  function Form(t: Moments, a: real, b: real, c: real): real {
    a * a * t.xx + b * b * t.yy + 2.0 * a * b * t.xy + 2.0 * a * c * t.x + 2.0 * b * c * t.y + c * c * t.weight
  }

  lemma FormAdds(s: Moments, t: Moments, a: real, b: real, c: real)
    ensures Form(Add(s, t), a, b, c) == Form(s, a, b, c) + Form(t, a, b, c)
  {
  }

  function Raw(c: Cluster): Moments {
    Moments(|c| as real, SumX(c), SumY(c), SumXX(c), SumYY(c), SumXY(c))
  }

  function One(p: Pair): Moments {
    Moments(1.0, p.x, p.y, p.x * p.x, p.y * p.y, p.x * p.y)
  }

  lemma PairForm(p: Pair, a: real, b: real, c: real)
    ensures Form(One(p), a, b, c) >= 0.0
  {
    var v := a * p.x + b * p.y + c;
    assert Form(One(p), a, b, c) == v * v;
  }

  lemma RawCons(cluster: Cluster)
    requires cluster != []
    ensures Raw(cluster) == Add(One(cluster[0]), Raw(cluster[1..]))
  {
  }

  lemma NonnegativeAdds(s: Moments, t: Moments, sum: Moments, a: real, b: real, c: real)
    requires sum == Add(s, t) && Form(s, a, b, c) >= 0.0 && Form(t, a, b, c) >= 0.0
    ensures Form(sum, a, b, c) >= 0.0
  {
    FormAdds(s, t, a, b, c);
  }

  lemma {:induction false} RawFormNonnegative(cluster: Cluster, a: real, b: real, c: real)
    ensures Form(Raw(cluster), a, b, c) >= 0.0
  {
    if cluster == [] {
      ZeroForm(a, b, c);
    } else {
      RawFormNonnegative(cluster[1..], a, b, c);
      PairForm(cluster[0], a, b, c);
      RawCons(cluster);
      NonnegativeAdds(One(cluster[0]), Raw(cluster[1..]), Raw(cluster), a, b, c);
    }
  }

  lemma ZeroForm(a: real, b: real, c: real)
    ensures Form(Moments(0.0, 0.0, 0.0, 0.0, 0.0, 0.0), a, b, c) == 0.0
  {
  }

  lemma ScaledForm(t: Moments, n: real, a: real, b: real, c: real)
    requires n > 0.0 && t.weight == n
    ensures Form(Moments(1.0, t.x / n, t.y / n, t.xx / n, t.yy / n, t.xy / n), a, b, c) == Form(t, a, b, c) / n
  {
    var m := Moments(1.0, t.x / n, t.y / n, t.xx / n, t.yy / n, t.xy / n);
    assert m.x * n == t.x && m.y * n == t.y && m.xx * n == t.xx && m.yy * n == t.yy && m.xy * n == t.xy;
    FormScale(m, n, a, b, c);
    assert Moments(1.0 * n, m.x * n, m.y * n, m.xx * n, m.yy * n, m.xy * n) == t;
  }

  lemma FormScale(m: Moments, n: real, a: real, b: real, c: real)
    ensures Form(Moments(m.weight * n, m.x * n, m.y * n, m.xx * n, m.yy * n, m.xy * n), a, b, c) == Form(m, a, b, c) * n
  {
  }

  lemma ClusterFormNonnegative(cluster: Cluster, a: real, b: real, c: real)
    requires cluster != []
    ensures Form(ClusterMoments(cluster), a, b, c) >= 0.0
  {
    RawFormNonnegative(cluster, a, b, c);
    ScaledForm(Raw(cluster), |cluster| as real, a, b, c);
  }

  lemma {:induction false} TotalFormNonnegative(clusters: seq<Cluster>, a: real, b: real, c: real)
    requires forall i :: 0 <= i < |clusters| ==> clusters[i] != []
    ensures Form(Total(AllMoments(clusters)), a, b, c) >= 0.0
  {
    if clusters == [] {
      ZeroForm(a, b, c);
    } else {
      var rest := AllMoments(clusters[1..]);
      TotalFormNonnegative(clusters[1..], a, b, c);
      ClusterFormNonnegative(clusters[0], a, b, c);
      assert AllMoments(clusters)[1..] == rest;
      NonnegativeAdds(ClusterMoments(clusters[0]), Total(rest), Total(AllMoments(clusters)), a, b, c);
    }
  }

  lemma {:induction false} TotalWeight(clusters: seq<Cluster>)
    requires forall i :: 0 <= i < |clusters| ==> clusters[i] != []
    ensures Total(AllMoments(clusters)).weight == |clusters| as real
  {
    if clusters != [] {
      TotalWeight(clusters[1..]);
      assert AllMoments(clusters)[1..] == AllMoments(clusters[1..]);
    }
  }

  // ----- Cauchy-Schwarz -----

  function Quadratic(p: real, q: real, r: real, a: real, b: real): real {
    a * a * p + 2.0 * a * b * q + b * b * r
  }

  /** Centring: with c chosen as minus the mean, the form is the one of the variances. */
  lemma CentredForm(t: Moments, a: real, b: real)
    requires t.weight > 0.0
    ensures Form(t, a, b, -(a * t.x + b * t.y) / t.weight)
         == Quadratic(VarianceX(t), Numerator(t), VarianceY(t), a, b)
  {
    var u, v := t.x / t.weight, t.y / t.weight;
    CentreOf(t, u, v, a, b);
    CentredExpansion(t, u, v, a, b);
    SpreadAt(t, u, v);
    var c := -(a * t.x + b * t.y) / t.weight;
    SameForm(t, a, b, c, -(a * u + b * v));
  }

  lemma SameForm(t: Moments, a: real, b: real, c: real, d: real)
    requires c == d
    ensures Form(t, a, b, c) == Form(t, a, b, d)
  {
  }

  lemma SpreadAt(t: Moments, u: real, v: real)
    requires t.weight > 0.0 && u == t.x / t.weight && v == t.y / t.weight
    ensures VarianceX(t) == t.xx - u * t.x && Numerator(t) == t.xy - u * t.y && VarianceY(t) == t.yy - v * t.y
  {
  }

  lemma CentreOf(t: Moments, u: real, v: real, a: real, b: real)
    requires t.weight > 0.0 && u == t.x / t.weight && v == t.y / t.weight
    ensures u * t.weight == t.x && v * t.weight == t.y
    ensures -(a * t.x + b * t.y) / t.weight == -(a * u + b * v)
    ensures t.x * t.x / t.weight == u * t.x && t.y * t.y / t.weight == v * t.y && t.x * t.y / t.weight == u * t.y
  {
  }

  lemma CentredExpansion(t: Moments, u: real, v: real, a: real, b: real)
    requires u * t.weight == t.x && v * t.weight == t.y
    ensures Form(t, a, b, -(a * u + b * v))
         == Quadratic(t.xx - u * t.x, t.xy - u * t.y, t.yy - v * t.y, a, b)
  {
    var c := -(a * u + b * v);
    assert c * t.weight == -(a * t.x + b * t.y);
    assert c * c * t.weight == -c * (a * t.x + b * t.y);
    assert u * t.y == v * t.x;
  }

  ghost predicate NowhereNegative(p: real, q: real, r: real) {
    forall a: real, b: real :: Quadratic(p, q, r, a, b) >= 0.0
  }

  /** A quadratic form that is nowhere negative has a non-positive discriminant. */
  lemma Discriminant(p: real, q: real, r: real)
    requires NowhereNegative(p, q, r)
    ensures Bounded(q, p, r)
  {
    assert Quadratic(p, q, r, 1.0, 0.0) >= 0.0 && Quadratic(p, q, r, 0.0, 1.0) >= 0.0;
    if r > 0.0 {
      assert Quadratic(p, q, r, r, -q) >= 0.0;
      PositiveCase(p, q, r);
    } else {
      assert Quadratic(p, q, r, q, -(p + 1.0)) >= 0.0;
      ZeroCase(p, q);
    }
  }

  lemma PositiveCase(p: real, q: real, r: real)
    requires r > 0.0 && Quadratic(p, q, r, r, -q) >= 0.0
    ensures q * q <= p * r
  {
    var gap := p * r - q * q;
    assert Quadratic(p, q, r, r, -q) == r * gap;
    NonnegativeFactor(r, gap);
  }

  lemma NonnegativeFactor(r: real, gap: real)
    requires r > 0.0 && r * gap >= 0.0
    ensures gap >= 0.0
  {
  }

  lemma ZeroCase(p: real, q: real)
    requires p >= 0.0 && Quadratic(p, q, 0.0, q, -(p + 1.0)) >= 0.0
    ensures q * q <= 0.0
  {
    ZeroQuadratic(p, q, q * q);
    NonnegativeFactor(p + 2.0, -(q * q));
  }

  lemma ZeroQuadratic(p: real, q: real, s: real)
    requires s == q * q
    ensures Quadratic(p, q, 0.0, q, -(p + 1.0)) == (p + 2.0) * -s
  {
    var b := -(p + 1.0);
    Reorder(q, b, q, s);
    assert b * b * 0.0 == 0.0;
    assert q * q * p == s * p;
    assert 2.0 * (b * s) == -2.0 * (s * p) - 2.0 * s;
  }

  lemma Reorder(a: real, b: real, c: real, s: real)
    requires s == a * c
    ensures 2.0 * a * b * c == 2.0 * (b * s)
  {
  }

  ghost predicate AllNonempty(clusters: seq<Cluster>) {
    clusters != [] && forall i :: 0 <= i < |clusters| ==> clusters[i] != []
  }

  lemma CentredNonnegative(clusters: seq<Cluster>, t: Moments, a: real, b: real)
    requires AllNonempty(clusters) && t == Total(AllMoments(clusters)) && t.weight > 0.0
    ensures Quadratic(VarianceX(t), Numerator(t), VarianceY(t), a, b) >= 0.0
  {
    TotalFormNonnegative(clusters, a, b, -(a * t.x + b * t.y) / t.weight);
    CentredForm(t, a, b);
  }

  lemma SpreadNowhereNegative(clusters: seq<Cluster>, t: Moments)
    requires AllNonempty(clusters) && t == Total(AllMoments(clusters)) && t.weight > 0.0
    ensures NowhereNegative(VarianceX(t), Numerator(t), VarianceY(t))
  {
    forall a: real, b: real ensures Quadratic(VarianceX(t), Numerator(t), VarianceY(t), a, b) >= 0.0 {
      CentredNonnegative(clusters, t, a, b);
    }
  }

  ghost predicate Bounded(n: real, vx: real, vy: real) {
    vx >= 0.0 && vy >= 0.0 && n * n <= vx * vy
  }

  /**
    For any non-empty clusters both variances are non-negative and the squared numerator is
    at most their product.
   */
  lemma CauchySchwarz(clusters: seq<Cluster>)
    requires AllNonempty(clusters)
    ensures
      var t := Total(AllMoments(clusters));
      && t.weight > 0.0
      && Bounded(Numerator(t), VarianceX(t), VarianceY(t))
  {
    var t := Total(AllMoments(clusters));
    TotalWeight(clusters);
    SpreadNowhereNegative(clusters, t);
    Discriminant(VarianceX(t), Numerator(t), VarianceY(t));
  }

  /** Hence neither clamp changes anything in exact arithmetic: first, under the root. */
  lemma VarianceClampsAreIdle(clusters: seq<Cluster>)
    requires AllNonempty(clusters)
    ensures
      var t := Total(AllMoments(clusters));
      && t.weight > 0.0
      && Max(0.0, VarianceX(t)) == VarianceX(t) && Max(0.0, VarianceY(t)) == VarianceY(t)
  {
    CauchySchwarz(clusters);
  }

  /** Second, on the ratio itself: whatever non-zero root the square root returns. */
  lemma RatioClampIsIdle(clusters: seq<Cluster>, t: Moments, root: real)
    requires AllNonempty(clusters) && t == Total(AllMoments(clusters)) && t.weight != 0.0
    requires RootOf(VarianceX(t), VarianceY(t), root) && root != 0.0
    ensures FromMoments(AllMoments(clusters), root) == Some(Numerator(t) / root)
  {
    CauchySchwarz(clusters);
    IdleOn(Numerator(t), VarianceX(t), VarianceY(t), root);
  }

  lemma IdleOn(n: real, vx: real, vy: real, root: real)
    requires Bounded(n, vx, vy) && RootOf(vx, vy, root) && root != 0.0
    ensures Clamped(n, root) == n / root
  {
    RatioWithinOne(n, root);
  }

  lemma RatioWithinOne(n: real, root: real)
    requires root > 0.0 && n * n <= root * root
    ensures -1.0 <= n / root <= 1.0
  {
    if n > root { SquareGrows(root, n); }
    if n < -root { SquareGrows(root, -n); }
  }

  lemma SquareGrows(a: real, b: real)
    requires 0.0 < a < b
    ensures a * a < b * b
  {
    assert (b - a) * (b + a) > 0.0;
  }

  // ----- repeated rows -----

  function Repeated(c: Cluster, times: nat): Cluster {
    if times == 0 then [] else c + Repeated(c, times - 1)
  }

  lemma {:induction false} RawConcat(a: Cluster, b: Cluster)
    ensures Raw(a + b) == Add(Raw(a), Raw(b))
  {
    if a == [] {
      assert a + b == b;
    } else {
      assert (a + b)[1..] == a[1..] + b;
      RawConcat(a[1..], b);
      RawCons(a + b);
      RawCons(a);
      AddAssociates(One(a[0]), Raw(a[1..]), Raw(b));
    }
  }

  lemma AddAssociates(a: Moments, b: Moments, c: Moments)
    ensures Add(a, Add(b, c)) == Add(Add(a, b), c)
  {
  }

  function Times(m: Moments, k: real): Moments {
    Moments(m.weight * k, m.x * k, m.y * k, m.xx * k, m.yy * k, m.xy * k)
  }

  lemma TimesNext(m: Moments, k: real)
    ensures Add(m, Times(m, k)) == Times(m, k + 1.0)
  {
  }

  lemma {:induction false} RawRepeated(c: Cluster, times: nat)
    ensures Raw(Repeated(c, times)) == Times(Raw(c), times as real)
  {
    if times > 0 {
      RawRepeated(c, times - 1);
      RawConcat(c, Repeated(c, times - 1));
      TimesNext(Raw(c), (times - 1) as real);
    }
  }

  function Normalised(m: Moments): Moments
    requires m.weight > 0.0
  {
    Moments(1.0, m.x / m.weight, m.y / m.weight, m.xx / m.weight, m.yy / m.weight, m.xy / m.weight)
  }

  lemma Cancel(s: real, k: real, n: real)
    requires k > 0.0 && n > 0.0
    ensures n * k > 0.0 && (s * k) / (n * k) == s / n
  {
    var q, whole := s / n, n * k;
    assert q * n == s;
    assert whole > 0.0;
    assert q * whole == s * k;
    DivideProduct(whole, q, s * k);
  }

  lemma NormalisedTimes(m: Moments, k: real)
    requires m.weight > 0.0 && k > 0.0
    ensures Times(m, k).weight > 0.0 && Normalised(Times(m, k)) == Normalised(m)
  {
    var t := Times(m, k);
    assert t.weight > 0.0 by { Cancel(m.x, k, m.weight); }
    assert t.x / t.weight == m.x / m.weight by { Cancel(m.x, k, m.weight); }
    assert t.y / t.weight == m.y / m.weight by { Cancel(m.y, k, m.weight); }
    assert t.xx / t.weight == m.xx / m.weight by { Cancel(m.xx, k, m.weight); }
    assert t.yy / t.weight == m.yy / m.weight by { Cancel(m.yy, k, m.weight); }
    assert t.xy / t.weight == m.xy / m.weight by { Cancel(m.xy, k, m.weight); }
  }

  /** Repeating all rows of a cluster leaves its moments unchanged. */
  lemma RepetitionIsIdle(c: Cluster, times: nat)
    requires c != [] && times > 0
    ensures Repeated(c, times) != [] && ClusterMoments(Repeated(c, times)) == ClusterMoments(c)
  {
    RawRepeated(c, times);
    NormalisedTimes(Raw(c), times as real);
    assert ClusterMoments(c) == Normalised(Raw(c));
    var r := Repeated(c, times);
    assert r == c + Repeated(c, times - 1);
    assert ClusterMoments(r) == Normalised(Raw(r));
  }

  /** So the correlation cannot be moved by repeating rows inside clusters. */
  lemma {:induction false} RepetitionKeepsCorrelation(clusters: seq<Cluster>, i: nat, times: nat)
    requires i < |clusters| && times > 0 && forall k :: 0 <= k < |clusters| ==> clusters[k] != []
    ensures Repeated(clusters[i], times) != []
    ensures AllMoments(clusters[i := Repeated(clusters[i], times)]) == AllMoments(clusters)
    decreases i
  {
    RepetitionIsIdle(clusters[i], times);
    var changed := clusters[i := Repeated(clusters[i], times)];
    if i == 0 {
      assert changed[1..] == clusters[1..];
    } else {
      RepetitionKeepsCorrelation(clusters[1..], i - 1, times);
      assert changed[1..] == clusters[1..][i - 1 := Repeated(clusters[i], times)];
    }
  }
}
