/**
  Nearest-rank percentiles (src/llm_hardtest/calibration.py:336-340,
  src/llm_hardtest/community_results.py:72-77) over an ascending copy of the values.
 */
module Percentiles {
  import opened Numbers
  import opened Sequences

  ghost predicate Ascending(s: seq<real>) {
    forall i, j :: 0 <= i < j < |s| ==> s[i] <= s[j]
  }

  function Insert(x: real, s: seq<real>): (r: seq<real>)
    ensures multiset(r) == multiset(s) + multiset{x}
    ensures |r| == |s| + 1
  {
    if s == [] || x <= s[0] then [x] + s
    else
      assert s == [s[0]] + s[1..];
      [s[0]] + Insert(x, s[1..])
  }

  function Sort(s: seq<real>): (r: seq<real>)
    ensures multiset(r) == multiset(s)
    ensures |r| == |s|
  {
    if s == [] then []
    else
      assert s == [s[0]] + s[1..];
      Insert(s[0], Sort(s[1..]))
  }

  lemma {:induction false} InsertAscends(x: real, s: seq<real>)
    requires Ascending(s)
    ensures Ascending(Insert(x, s))
    decreases |s|
  {
    if s != [] && x > s[0] {
      var rest := Insert(x, s[1..]);
      InsertAscends(x, s[1..]);
      forall j | 0 <= j < |rest| ensures s[0] <= rest[j] {
        assert rest[j] in multiset(rest);
        assert rest[j] == x || rest[j] in multiset(s[1..]);
      }
    }
  }

  lemma {:induction false} SortAscends(s: seq<real>)
    ensures Ascending(Sort(s))
    decreases |s|
  {
    if s != [] {
      SortAscends(s[1..]);
      InsertAscends(s[0], Sort(s[1..]));
    }
  }

  lemma LeastFirst(s: seq<real>, x: real)
    requires s != [] && Ascending(s) && x in multiset(s)
    ensures s[0] <= x
  {
    var i :| 0 <= i < |s| && s[i] == x;
  }

  lemma FirstsAgree(s: seq<real>, t: seq<real>)
    requires Ascending(s) && Ascending(t) && multiset(s) == multiset(t) && s != [] && t != []
    ensures s[0] == t[0] && multiset(s[1..]) == multiset(t[1..])
    ensures Ascending(s[1..]) && Ascending(t[1..])
  {
    RestMultiset(s);
    RestMultiset(t);
    LeastFirst(s, t[0]);
    LeastFirst(t, s[0]);
  }

  lemma {:induction false} AscendingUnique(s: seq<real>, t: seq<real>)
    requires Ascending(s) && Ascending(t) && multiset(s) == multiset(t)
    ensures s == t
    decreases |s|
  {
    SameSize(s, t);
    if s != [] {
      FirstsAgree(s, t);
      AscendingUnique(s[1..], t[1..]);
      SameParts(s, t);
    }
  }

  /** Sorting forgets the order of its input. */
  lemma SortPermutation(s: seq<real>, t: seq<real>)
    requires multiset(s) == multiset(t)
    ensures Sort(s) == Sort(t)
  {
    SortAscends(s);
    SortAscends(t);
    AscendingUnique(Sort(s), Sort(t));
  }

  function RankIndex(count: nat, probability: real): (i: nat)
    requires count > 0
    ensures i < count
  {
    var rank := Ceil(probability * count as real) - 1;
    var capped := if rank < count - 1 then rank else count - 1;
    if capped < 0 then 0 else capped
  }

  lemma RankMonotone(count: nat, p: real, q: real)
    requires count > 0 && p <= q
    ensures RankIndex(count, p) <= RankIndex(count, q)
  {
    assert (q - p) * count as real >= 0.0;
    CeilMonotone(p * count as real, q * count as real);
  }

  function Percentile(values: seq<real>, probability: real): real
    requires values != []
  {
    Sort(values)[RankIndex(|values|, probability)]
  }

  // ----- what a percentile is -----

  /** The places whose value is at most v, and those whose value is less. */
  function UpTo(values: seq<real>, v: real): set<int> {
    set i | 0 <= i < |values| && values[i] <= v
  }

  function Below(values: seq<real>, v: real): set<int> {
    set i | 0 <= i < |values| && values[i] < v
  }

  /** A value of the list with at least the share p of the list at or below it, and less than that below it. */
  ghost predicate NearestRank(values: seq<real>, p: real, v: real) {
    && v in values
    && |UpTo(values, v)| as real >= p * |values| as real
    && |Below(values, v)| as real < p * |values| as real
  }

  lemma RankBounds(count: nat, p: real)
    requires count > 0 && 0.0 < p <= 1.0
    ensures (RankIndex(count, p) + 1) as real >= p * count as real > RankIndex(count, p) as real
  {
    assert 0.0 < p * count as real;
    assert (1.0 - p) * count as real >= 0.0;
  }

  /** The percentile is exactly the value of that rank. */
  lemma PercentileIsNearestRank(values: seq<real>, p: real, v: real)
    requires values != [] && 0.0 < p <= 1.0
    ensures NearestRank(values, p, v) <==> v == Percentile(values, p)
  {
    var chosen := Percentile(values, p);
    ChosenIsNearest(values, p);
    if v < chosen { LowerIsFewer(values, v, chosen); }
    if chosen < v { LowerIsFewer(values, chosen, v); }
  }

  lemma ChosenIsNearest(values: seq<real>, p: real)
    requires values != [] && 0.0 < p <= 1.0
    ensures NearestRank(values, p, Percentile(values, p))
  {
    RankBounds(|values|, p);
    SortAscends(values);
    RankIsNearest(values, p, Sort(values), RankIndex(|values|, p));
  }

  lemma RankIsNearest(values: seq<real>, p: real, sorted: seq<real>, k: nat)
    requires multiset(sorted) == multiset(values) && Ascending(sorted) && k < |sorted|
    requires (k + 1) as real >= p * |values| as real > k as real
    ensures NearestRank(values, p, sorted[k])
  {
    assert sorted[k] in multiset(sorted);
    Ranks(values, sorted, k);
    RankShare(|UpTo(values, sorted[k])|, |Below(values, sorted[k])|, k, p * |values| as real);
  }

  lemma RankShare(upTo: nat, below: nat, k: nat, share: real)
    requires upTo >= k + 1 && below <= k && (k + 1) as real >= share > k as real
    ensures upTo as real >= share && (below as real) < share
  {
  }

  lemma Ranks(values: seq<real>, sorted: seq<real>, k: nat)
    requires multiset(sorted) == multiset(values) && Ascending(sorted) && k < |sorted|
    ensures |UpTo(values, sorted[k])| >= k + 1 && |Below(values, sorted[k])| <= k
  {
    var v := sorted[k];
    UpToCount(values, v);
    BelowCount(values, v);
    CountPrefix(sorted, AtMost(v), k + 1);
    CountPrefix(sorted, LessThan(v), k);
    CountPermutation(sorted, values, AtMost(v));
    CountPermutation(sorted, values, LessThan(v));
  }

  function AtMost(v: real): real -> bool {
    (x: real) => x <= v
  }

  function LessThan(v: real): real -> bool {
    (x: real) => x < v
  }

  lemma UpToCount(values: seq<real>, v: real)
    ensures |UpTo(values, v)| == Count(values, AtMost(v))
  {
    CountMeans(values, AtMost(v));
    assert UpTo(values, v) == Where(values, AtMost(v));
  }

  lemma BelowCount(values: seq<real>, v: real)
    ensures |Below(values, v)| == Count(values, LessThan(v))
  {
    CountMeans(values, LessThan(v));
    assert Below(values, v) == Where(values, LessThan(v));
  }

  lemma LowerIsFewer(values: seq<real>, low: real, high: real)
    requires low < high
    ensures |UpTo(values, low)| <= |Below(values, high)|
  {
    assert Below(values, high) == UpTo(values, low) + (Below(values, high) - UpTo(values, low));
  }

  lemma PercentileMonotone(values: seq<real>, p: real, q: real)
    requires values != [] && p <= q
    ensures Percentile(values, p) <= Percentile(values, q)
  {
    SortAscends(values);
    RankMonotone(|values|, p, q);
    LaterIsLarger(Sort(values), RankIndex(|values|, p), RankIndex(|values|, q));
  }

  lemma LaterIsLarger(s: seq<real>, i: nat, j: nat)
    requires Ascending(s) && i <= j < |s|
    ensures s[i] <= s[j]
  {
  }

  lemma PercentilePermutation(s: seq<real>, t: seq<real>, probability: real)
    requires s != [] && multiset(s) == multiset(t)
    ensures t != [] && Percentile(s, probability) == Percentile(t, probability)
  {
    SameSize(s, t);
    SortPermutation(s, t);
  }

  /** Every percentile of equal values is that value. */
  lemma PercentileOfEqual(values: seq<real>, x: real, probability: real)
    requires values != [] && forall v :: v in values ==> v == x
    ensures Percentile(values, probability) == x
  {
    var chosen := Percentile(values, probability);
    assert chosen in Sort(values);
    SortMembers(values, chosen);
  }

  lemma SortMembers(values: seq<real>, x: real)
    ensures x in Sort(values) <==> x in values
  {
    SortAscends(values);
    assert x in multiset(Sort(values)) <==> x in multiset(values);
  }
}
