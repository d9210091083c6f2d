/**
  Percentiles of draws with their signs changed: nearest-rank ends are not symmetric, and this
  module says exactly when negating the draws negates an end (src/llm_hardtest/calibration.py:336-340).
 */
module OppositeDraws {
  import opened Sequences
  import opened Percentiles
  import opened SignFlip

  // ----- percentiles of negated values -----

  /** The same values with the opposite signs. */
  ghost predicate Opposite(s: seq<real>, t: seq<real>) {
    |t| == |s| && forall i :: 0 <= i < |s| ==> t[i] == -s[i]
  }

  lemma NegatedIsOpposite(s: seq<real>)
    ensures Opposite(s, Negated(s))
  {
    SumNegated(s);
  }

  lemma {:induction false} OppositeCounts(s: seq<real>, t: seq<real>, v: real)
    requires Opposite(s, t)
    ensures Count(t, AtMost(-v)) == |s| - Count(s, LessThan(v))
    ensures Count(t, LessThan(-v)) == |s| - Count(s, AtMost(v))
    decreases |s|
  {
    if s != [] {
      OppositeCounts(s[..|s| - 1], t[..|t| - 1], v);
    }
  }

  /** The places with at least v are those where the opposite value is at most -v. */
  lemma OppositePlaces(s: seq<real>, t: seq<real>, v: real)
    requires Opposite(s, t)
    ensures |UpTo(t, -v)| == |s| - |Below(s, v)|
    ensures |Below(t, -v)| == |s| - |UpTo(s, v)|
  {
    OppositeCounts(s, t, v);
    UpToCount(s, v);
    BelowCount(s, v);
    UpToCount(t, -v);
    BelowCount(t, -v);
  }

  /** The nearest-rank condition for a number of places. */
  ghost predicate RankedAt(values: seq<real>, share: real, v: real) {
    v in values && |UpTo(values, v)| as real >= share > |Below(values, v)| as real
  }

  lemma {:induction false} RankedOnce(values: seq<real>, share: real, v: real, w: real)
    requires RankedAt(values, share, v) && |UpTo(values, w)| as real >= share
    ensures v <= w && (RankedAt(values, share, w) ==> v == w)
  {
    if w < v { LowerIsFewer(values, w, v); }
    if v < w { LowerIsFewer(values, v, w); }
  }

  /** Where v has the rank `rest` among the values and w the rank `share` among the opposite ones. */
  lemma OppositeRank(s: seq<real>, t: seq<real>, share: real, rest: real, v: real, w: real)
    requires Opposite(s, t) && share + rest == |s| as real && RankedAt(s, rest, v) && RankedAt(t, share, w)
    ensures w <= -v && (w == -v <==> |UpTo(s, v)| as real > rest)
  {
    OppositePlaces(s, t, v);
    var i :| 0 <= i < |s| && s[i] == v;
    assert t[i] == -v;
    RankedOnce(t, share, w, -v);
  }

  /** More than this share of the draws lies at or below the percentile: the draw after it is no larger. */
  predicate Continues(draws: seq<real>, p: real, v: real) {
    |UpTo(draws, v)| as real > p * |draws| as real
  }

  lemma SharesSplit(n: nat, p: real, q: real)
    requires q == 1.0 - p
    ensures p * n as real + q * n as real == n as real
  {
  }

  /** Negating the draws negates a percentile exactly when the opposite percentile continues, and never leaves
      it above the negated opposite. */
  lemma NegatesExactly(draws: seq<real>, p: real, q: real, v: real, w: real)
    requires q == 1.0 - p && NearestRank(draws, q, v) && NearestRank(Negated(draws), p, w)
    ensures w == -v <==> Continues(draws, q, v)
    ensures w <= -v
  {
    NegatedIsOpposite(draws);
    SharesSplit(|draws|, p, q);
    OppositePercentiles(draws, Negated(draws), p, q, p * |draws| as real, q * |draws| as real, v, w);
  }

  lemma OppositePercentiles(draws: seq<real>, t: seq<real>, p: real, q: real, share: real, rest: real, v: real, w: real)
    requires Opposite(draws, t) && NearestRank(draws, q, v) && NearestRank(t, p, w)
    requires share == p * |draws| as real && rest == q * |draws| as real && share + rest == |draws| as real
    ensures w == -v <==> |UpTo(draws, v)| as real > rest
    ensures w <= -v
  {
    NearestIsRanked(draws, q, rest, v);
    NearestIsRanked(t, p, share, w);
    OppositeRank(draws, t, share, rest, v, w);
  }

  lemma NearestIsRanked(values: seq<real>, p: real, share: real, v: real)
    requires NearestRank(values, p, v) && share == p * |values| as real
    ensures RankedAt(values, share, v)
  {
  }

  /** The draw after the share p: at most that share lies below it, and more than that at or below it. */
  ghost predicate NextRank(draws: seq<real>, p: real, w: real) {
    && w in draws
    && |Below(draws, w)| as real <= p * |draws| as real
    && |UpTo(draws, w)| as real > p * |draws| as real
  }

  /** The percentile of the negated draws is the negated draw after the opposite share. */
  lemma NegatedIsNext(draws: seq<real>, p: real, q: real, w: real)
    requires q == 1.0 - p && NearestRank(Negated(draws), p, w)
    ensures NextRank(draws, q, -w)
  {
    NegatedIsOpposite(draws);
    SharesSplit(|draws|, p, q);
    OppositeIsNext(draws, Negated(draws), p * |draws| as real, q * |draws| as real, w);
  }

  lemma OppositeIsNext(draws: seq<real>, t: seq<real>, share: real, rest: real, w: real)
    requires Opposite(draws, t) && RankedAt(t, share, w) && share + rest == |draws| as real
    ensures -w in draws && |Below(draws, -w)| as real <= rest && |UpTo(draws, -w)| as real > rest
  {
    var i :| 0 <= i < |t| && t[i] == w;
    assert draws[i] == -w;
    OppositePlaces(draws, t, -w);
  }

  lemma NearestOnce(values: seq<real>, p: real, v: real, w: real)
    requires NearestRank(values, p, v) && NearestRank(values, p, w)
    ensures v == w
  {
    RankedOnce(values, p * |values| as real, v, w);
  }

  lemma NextOnce(draws: seq<real>, p: real, v: real, w: real)
    requires NextRank(draws, p, v) && NextRank(draws, p, w)
    ensures v == w
  {
    if v < w { LowerIsFewer(draws, v, w); }
    if w < v { LowerIsFewer(draws, w, v); }
  }

  predicate Whole(x: real) {
    x.Floor as real == x
  }

  /** Negating these draws negates the percentile at p from that at the opposite q. */
  ghost predicate NegatesPair(draws: seq<real>, p: real, q: real) {
    forall v, w :: NearestRank(draws, q, v) && NearestRank(Negated(draws), p, w) ==> w == -v
  }

  /** So it does for every list of n draws. */
  ghost predicate NegatesOn(n: nat, p: real, q: real) {
    forall draws: seq<real> :: |draws| == n ==> NegatesPair(draws, p, q)
  }

  /** That holds if and only if the share p of n is not a whole number. */
  lemma AlwaysNegatesExactly(n: nat, p: real, share: real)
    requires n > 0 && 0.0 < p < 1.0 && share == p * n as real
    ensures NegatesOn(n, p, 1.0 - p) <==> !Whole(share)
  {
    if Whole(share) {
      var draws, v, w := Edge(n, p, share);
      assert !NegatesPair(draws, p, 1.0 - p);
    } else {
      NoEdge(n, p, 1.0 - p, share);
    }
  }

  lemma NoEdge(n: nat, p: real, q: real, share: real)
    requires q == 1.0 - p && share == p * n as real && !Whole(share)
    ensures NegatesOn(n, p, q)
  {
    forall draws: seq<real> | |draws| == n ensures NegatesPair(draws, p, q) {
      AlwaysNegated(draws, p, q, share);
    }
  }

  lemma AlwaysNegated(draws: seq<real>, p: real, q: real, share: real)
    requires q == 1.0 - p && share == p * |draws| as real && !Whole(share)
    ensures NegatesPair(draws, p, q)
  {
    forall v, w | NearestRank(draws, q, v) && NearestRank(Negated(draws), p, w) ensures w == -v {
      NeverNegatedOff(draws, p, q, share, v, w);
    }
  }

  lemma NeverNegatedOff(draws: seq<real>, p: real, q: real, share: real, v: real, w: real)
    requires q == 1.0 - p && share == p * |draws| as real && !Whole(share)
    requires NearestRank(draws, q, v) && NearestRank(Negated(draws), p, w)
    ensures w == -v
  {
    NeverOnAWhole(draws, p, q, share, v);
    NegatesExactly(draws, p, q, v, w);
  }

  lemma NeverOnAWhole(draws: seq<real>, p: real, q: real, share: real, v: real)
    requires q == 1.0 - p && share == p * |draws| as real && !Whole(share) && NearestRank(draws, q, v)
    ensures Continues(draws, q, v)
  {
    SharesSplit(|draws|, p, q);
    Fractional(|UpTo(draws, v)|, |draws|, share, q * |draws| as real);
  }

  lemma Fractional(count: nat, n: nat, share: real, rest: real)
    requires share + rest == n as real && !Whole(share)
    ensures count as real != rest
  {
    if count as real == rest { WholeDifference(n, count, share); }
  }

  lemma WholeDifference(n: nat, count: nat, share: real)
    requires share == n as real - count as real
    ensures Whole(share)
  {
    assert share == (n - count) as real;
  }

  function Copies(x: real, n: nat): (r: seq<real>)
    ensures |r| == n && forall i :: 0 <= i < n ==> r[i] == x
  {
    seq(n, _ => x)
  }

  /** Two values, the lower one filling a whole share of the draws. */
  lemma TwoLevels(low: real, high: real, k: nat, n: nat, p: real)
    requires low < high && 0 < k < n && p * n as real == k as real
    ensures
      var draws := Copies(low, k) + Copies(high, n - k);
      |draws| == n && NearestRank(draws, p, low) && !Continues(draws, p, low)
  {
    var draws := Copies(low, k) + Copies(high, n - k);
    assert draws[0] == low;
    LevelPlaces(low, high, k, n);
  }

  lemma LevelPlaces(low: real, high: real, k: nat, n: nat)
    requires low < high && k <= n
    ensures
      var draws := Copies(low, k) + Copies(high, n - k);
      |draws| == n && |UpTo(draws, low)| == k && |Below(draws, low)| == 0
      && |UpTo(draws, high)| == n && |Below(draws, high)| == k
  {
    var draws := Copies(low, k) + Copies(high, n - k);
    UpToCount(draws, low);
    BelowCount(draws, low);
    UpToCount(draws, high);
    BelowCount(draws, high);
    CountPrefix(draws, AtMost(low), k);
    CountPrefix(draws, LessThan(low), 0);
    CountPrefix(draws, AtMost(high), n);
    CountPrefix(draws, LessThan(high), k);
  }

  lemma Edge(n: nat, p: real, share: real) returns (draws: seq<real>, v: real, w: real)
    requires n > 0 && 0.0 < p < 1.0 && share == p * n as real && Whole(share)
    ensures |draws| == n && NearestRank(draws, 1.0 - p, v) && NearestRank(Negated(draws), p, w) && w != -v
  {
    var k := EdgePlace(n, p, share);
    draws, v := Copies(0.0, k) + Copies(1.0, n - k), 0.0;
    TwoLevels(0.0, 1.0, k, n, 1.0 - p);
    NegatedIsOpposite(draws);
    w := SomePercentile(Negated(draws), p);
    NegatesExactly(draws, p, 1.0 - p, v, w);
  }

  lemma SomePercentile(draws: seq<real>, p: real) returns (v: real)
    requires draws != [] && 0.0 < p < 1.0
    ensures v == Percentile(draws, p) && NearestRank(draws, p, v)
  {
    v := Percentile(draws, p);
    PercentileIsNearestRank(draws, p, v);
  }

  lemma EdgePlace(n: nat, p: real, share: real) returns (k: nat)
    requires n > 0 && 0.0 < p < 1.0 && share == p * n as real && Whole(share)
    ensures 0 < k < n && (1.0 - p) * n as real == k as real
  {
    SharesSplit(n, p, 1.0 - p);
    PositiveShare(p, n as real, share);
    ProperShare(p, n as real, share);
    WholePart(share, n);
    k := n - share.Floor;
  }

  lemma WholePart(share: real, n: nat)
    requires Whole(share) && 0.0 < share < n as real
    ensures 0 < n - share.Floor < n && (n - share.Floor) as real == n as real - share
  {
  }

  lemma PositiveShare(p: real, n: real, share: real)
    requires 0.0 < p
    requires n > 0.0
    requires share == n * p
    ensures 0.0 < share
  {
  }

  lemma ProperShare(p: real, n: real, share: real)
    requires p < 1.0
    requires n > 0.0
    requires share == n * p
    ensures share < n
  {
  }
}
