/** Order-insensitive facts about sequences: sorting by a rank, membership, permutations. */
module Sequences {
  import opened Numbers

  /** sorted(s, key=rank): stable insertion. */
  function SortBy<T>(s: seq<T>, rank: T -> int): (r: seq<T>)
    ensures multiset(r) == multiset(s)
  {
    if s == [] then []
    else
      assert s == [s[0]] + s[1..];
      InsertBy(s[0], SortBy(s[1..], rank), rank)
  }

  function InsertBy<T>(x: T, s: seq<T>, rank: T -> int): (r: seq<T>)
    ensures multiset(r) == multiset(s) + multiset{x}
  {
    if s == [] || rank(x) <= rank(s[0]) then [x] + s
    else
      assert s == [s[0]] + s[1..];
      [s[0]] + InsertBy(x, s[1..], rank)
  }

  /** Every element stands in this relation to all later ones. */
  ghost predicate OrderedUnder<T(!new)>(s: seq<T>, le: (T, T) -> bool) {
    forall i, j :: 0 <= i < j < |s| ==> le(s[i], s[j])
  }

  /** By rank first, then by an order refining it. */
  function ThenBy<T(!new)>(rank: T -> int, le: (T, T) -> bool): (T, T) -> bool {
    (x, y) => rank(x) < rank(y) || (rank(x) == rank(y) && le(x, y))
  }

  /** The sort is stable: an order already there survives among equal ranks. */
  lemma {:induction false} StableSort<T(!new)>(s: seq<T>, rank: T -> int, le: (T, T) -> bool)
    requires OrderedUnder(s, le)
    ensures OrderedUnder(SortBy(s, rank), ThenBy(rank, le))
    decreases |s|
  {
    if s != [] {
      var rest := SortBy(s[1..], rank);
      StableSort(s[1..], rank, le);
      forall y | y in rest ensures le(s[0], y) {
        assert y in multiset(rest) && multiset(rest) == multiset(s[1..]);
        var j :| 0 <= j < |s[1..]| && s[1..][j] == y;
        assert s[j + 1] == y;
      }
      StableInsert(s[0], rest, rank, le);
    }
  }

  lemma {:induction false} StableInsert<T(!new)>(x: T, s: seq<T>, rank: T -> int, le: (T, T) -> bool)
    requires OrderedUnder(s, ThenBy(rank, le)) && forall y :: y in s ==> le(x, y)
    ensures OrderedUnder(InsertBy(x, s, rank), ThenBy(rank, le))
    decreases |s|
  {
    if s == [] || rank(x) <= rank(s[0]) {
      forall y | y in s ensures ThenBy(rank, le)(x, y) {
        var j :| 0 <= j < |s| && s[j] == y;
        assert j > 0 ==> ThenBy(rank, le)(s[0], s[j]);
      }
      OrderedCons(x, s, ThenBy(rank, le));
    } else {
      var rest := InsertBy(x, s[1..], rank);
      StableInsert(x, s[1..], rank, le);
      forall y | y in rest ensures ThenBy(rank, le)(s[0], y) {
        assert y in multiset(rest);
        if y != x {
          var j :| 0 <= j < |s[1..]| && s[1..][j] == y;
          assert s[j + 1] == y;
        }
      }
      OrderedCons(s[0], rest, ThenBy(rank, le));
    }
  }

  lemma OrderedCons<T(!new)>(x: T, s: seq<T>, le: (T, T) -> bool)
    requires OrderedUnder(s, le) && forall y :: y in s ==> le(x, y)
    ensures OrderedUnder([x] + s, le)
  {
  }

  ghost predicate NoDuplicates<T>(s: seq<T>) {
    forall i, j :: 0 <= i < j < |s| ==> s[i] != s[j]
  }

  lemma NoDuplicatesAppend<T>(s: seq<T>, x: T)
    requires NoDuplicates(s) && x !in s
    ensures NoDuplicates(s + [x])
  {
  }

  /** Two duplicate-free lists of the same elements are permutations of each other. */
  lemma {:induction false} SameElements<T>(s: seq<T>, t: seq<T>)
    requires NoDuplicates(s) && NoDuplicates(t)
    requires forall x :: x in s <==> x in t
    ensures multiset(s) == multiset(t)
  {
    forall x ensures multiset(s)[x] == multiset(t)[x] {
      CountInDistinct(s, x);
      CountInDistinct(t, x);
    }
  }

  lemma {:induction false} CountInDistinct<T>(s: seq<T>, x: T)
    requires NoDuplicates(s)
    ensures multiset(s)[x] == if x in s then 1 else 0
  {
    if s != [] {
      assert s == [s[0]] + s[1..];
      CountInDistinct(s[1..], x);
      if x == s[0] { assert x !in s[1..]; }
    }
  }

  lemma TwiceCounted<T>(s: seq<T>, i: nat, j: nat)
    requires i < j < |s| && s[i] == s[j]
    ensures multiset(s)[s[i]] >= 2
  {
    MultisetWithout(s, j);
    assert Without(s, j)[i] == s[i];
    assert s[i] in multiset(Without(s, j));
  }

  lemma FindMember<T>(s: seq<T>, x: T) returns (i: nat)
    requires x in multiset(s)
    ensures i < |s| && s[i] == x
  {
    i :| 0 <= i < |s| && s[i] == x;
  }

  lemma MultisetConcat<T>(a: seq<T>, b: seq<T>, c: seq<T>, d: seq<T>)
    requires multiset(a) == multiset(c) && multiset(b) == multiset(d)
    ensures multiset(a + b) == multiset(c + d)
  {
  }

  lemma MoreThanOne<T>(s: set<T>)
    ensures |s| > 1 <==> exists a, b :: a in s && b in s && a != b
  {
    if |s| > 1 {
      var a :| a in s;
      var rest := s - {a};
      assert |rest| > 0;
      var b :| b in rest;
    }
    if a, b :| a in s && b in s && a != b {
      assert {a, b} <= s;
      var rest := s - {a, b};
      assert s == rest + {a, b};
      assert |s| == |rest| + 2;
    }
  }

  // ----- counting -----

  function Count<T>(s: seq<T>, p: T -> bool): nat {
    if s == [] then 0 else Count(s[..|s| - 1], p) + (if p(s[|s| - 1]) then 1 else 0)
  }

  lemma CountAppend<T>(s: seq<T>, last: T, p: T -> bool)
    ensures Count(s + [last], p) == Count(s, p) + (if p(last) then 1 else 0)
  {
    assert (s + [last])[..|s|] == s;
  }

  /** The places that meet the condition. */
  function Where<T>(s: seq<T>, p: T -> bool): set<int> {
    set i | 0 <= i < |s| && p(s[i])
  }

  lemma {:induction false} CountMeans<T>(s: seq<T>, p: T -> bool)
    ensures Count(s, p) == |Where(s, p)|
    decreases |s|
  {
    if s != [] {
      CountMeans(s[..|s| - 1], p);
      WhereLast(s, p);
    }
  }

  lemma WhereLast<T>(s: seq<T>, p: T -> bool)
    requires s != []
    ensures |Where(s, p)| == |Where(s[..|s| - 1], p)| + (if p(s[|s| - 1]) then 1 else 0)
  {
    var n := |s| - 1;
    assert Where(s, p) == Where(s[..n], p) + (if p(s[n]) then {n} else {});
  }

  lemma {:induction false} CountWithout<T>(s: seq<T>, p: T -> bool, i: nat)
    requires i < |s|
    ensures Count(s, p) == Count(Without(s, i), p) + (if p(s[i]) then 1 else 0)
    decreases |s|
  {
    var n := |s| - 1;
    if i == n {
      assert Without(s, i) == s[..n];
    } else {
      CountWithout(s[..n], p, i);
      assert Without(s, i)[..n - 1] == Without(s[..n], i);
    }
  }

  lemma {:induction false} CountPermutation<T>(a: seq<T>, b: seq<T>, p: T -> bool)
    requires multiset(a) == multiset(b)
    ensures Count(a, p) == Count(b, p)
    decreases |a|
  {
    SameSize(a, b);
    if a != [] {
      var j := MatchLast(a, b);
      CountPermutation(a[..|a| - 1], Without(b, j), p);
      CountWithout(b, p, j);
    }
  }

  /** Where the first k places are the ones that meet the condition. */
  lemma {:induction false} CountPrefix<T>(s: seq<T>, p: T -> bool, k: nat)
    requires k <= |s|
    ensures (forall i :: 0 <= i < k ==> p(s[i])) ==> Count(s, p) >= k
    ensures (forall i :: k <= i < |s| ==> !p(s[i])) ==> Count(s, p) <= k
    decreases |s|
  {
    if s != [] {
      var n := |s| - 1;
      CountPrefix(s[..n], p, if k <= n then k else n);
    }
  }

  // ----- totals and lists collected over a sequence -----

  function SumBy<T>(s: seq<T>, f: T -> real): real {
    if s == [] then 0.0 else SumBy(s[..|s| - 1], f) + f(s[|s| - 1])
  }

  function Flat<T, U>(s: seq<T>, f: T -> seq<U>): seq<U> {
    if s == [] then [] else Flat(s[..|s| - 1], f) + f(s[|s| - 1])
  }

  /** A permutation pairs the last element with an equal one and permutes the others. */
  lemma MatchLast<T>(a: seq<T>, b: seq<T>) returns (j: nat)
    requires a != [] && multiset(a) == multiset(b)
    ensures j < |b| && b[j] == a[|a| - 1] && multiset(a[..|a| - 1]) == multiset(Without(b, j))
  {
    var init, last := a[..|a| - 1], a[|a| - 1];
    assert a == init + [last];
    assert last in multiset(b);
    j := FindMember(b, last);
    MultisetWithout(b, j);
    assert multiset(init) == multiset(a) - multiset{last};
  }

  lemma {:induction false} SumByWithout<T>(s: seq<T>, f: T -> real, i: nat)
    requires i < |s|
    ensures SumBy(s, f) == SumBy(Without(s, i), f) + f(s[i])
    decreases |s|
  {
    var n := |s| - 1;
    if i == n {
      assert Without(s, i) == s[..n];
    } else {
      SumByWithout(s[..n], f, i);
      assert Without(s, i)[..n - 1] == Without(s[..n], i);
    }
  }

  lemma {:induction false} SumByPermutation<T>(a: seq<T>, b: seq<T>, f: T -> real)
    requires multiset(a) == multiset(b)
    ensures SumBy(a, f) == SumBy(b, f)
    decreases |a|
  {
    SameSize(a, b);
    if a != [] {
      var j := MatchLast(a, b);
      SumByPermutation(a[..|a| - 1], Without(b, j), f);
      SumByWithout(b, f, j);
    }
  }

  lemma {:induction false} FlatWithout<T, U>(s: seq<T>, f: T -> seq<U>, i: nat)
    requires i < |s|
    ensures multiset(Flat(s, f)) == multiset(Flat(Without(s, i), f)) + multiset(f(s[i]))
    decreases |s|
  {
    var n := |s| - 1;
    if i == n {
      assert Without(s, i) == s[..n];
    } else {
      FlatWithout(s[..n], f, i);
      assert Without(s, i)[..n - 1] == Without(s[..n], i);
    }
  }

  lemma {:induction false} FlatPermutation<T, U>(a: seq<T>, b: seq<T>, f: T -> seq<U>)
    requires multiset(a) == multiset(b)
    ensures multiset(Flat(a, f)) == multiset(Flat(b, f))
    decreases |a|
  {
    SameSize(a, b);
    if a != [] {
      var j := MatchLast(a, b);
      FlatPermutation(a[..|a| - 1], Without(b, j), f);
      FlatWithout(b, f, j);
    }
  }

  lemma {:induction false} SumByPointwise<T>(a: seq<T>, b: seq<T>, f: T -> real)
    requires |a| == |b| && forall i :: 0 <= i < |a| ==> f(a[i]) == f(b[i])
    ensures SumBy(a, f) == SumBy(b, f)
    decreases |a|
  {
    if a != [] { SumByPointwise(a[..|a| - 1], b[..|b| - 1], f); }
  }

  lemma {:induction false} FlatPointwise<T, U>(a: seq<T>, b: seq<T>, f: T -> seq<U>)
    requires |a| == |b| && forall i :: 0 <= i < |a| ==> multiset(f(a[i])) == multiset(f(b[i]))
    ensures multiset(Flat(a, f)) == multiset(Flat(b, f))
    decreases |a|
  {
    if a != [] { FlatPointwise(a[..|a| - 1], b[..|b| - 1], f); }
  }

  lemma {:induction false} SumByConcat<T>(a: seq<T>, b: seq<T>, f: T -> real)
    ensures SumBy(a + b, f) == SumBy(a, f) + SumBy(b, f)
    decreases |b|
  {
    if b == [] {
      assert a + b == a;
    } else {
      assert (a + b)[..|a + b| - 1] == a + b[..|b| - 1];
      SumByConcat(a, b[..|b| - 1], f);
    }
  }

  lemma {:induction false} FlatConcat<T, U>(a: seq<T>, b: seq<T>, f: T -> seq<U>)
    ensures Flat(a + b, f) == Flat(a, f) + Flat(b, f)
    decreases |b|
  {
    if b == [] {
      assert a + b == a;
    } else {
      assert (a + b)[..|a + b| - 1] == a + b[..|b| - 1];
      FlatConcat(a, b[..|b| - 1], f);
    }
  }

  /** Members that contribute nothing can be left out. */
  function Present<T, U>(s: seq<T>, f: T -> seq<U>): (r: seq<T>)
    ensures forall x :: x in r ==> x in s
  {
    if s == [] then []
    else Present(s[..|s| - 1], f) + (if f(s[|s| - 1]) != [] then [s[|s| - 1]] else [])
  }

  lemma FlatAppend<T, U>(s: seq<T>, last: T, f: T -> seq<U>)
    ensures Flat(s + [last], f) == Flat(s, f) + f(last)
  {
    assert (s + [last])[..|s|] == s;
  }

  lemma {:induction false} FlatPresent<T, U>(s: seq<T>, f: T -> seq<U>)
    ensures Flat(Present(s, f), f) == Flat(s, f)
    decreases |s|
  {
    if s != [] {
      var init, last := s[..|s| - 1], s[|s| - 1];
      FlatPresent(init, f);
      if f(last) != [] {
        FlatAppend(Present(init, f), last, f);
      } else {
        assert Present(init, f) + [] == Present(init, f) && Flat(init, f) + [] == Flat(init, f);
      }
    }
  }

  lemma {:induction false} PresentMembers<T, U>(s: seq<T>, f: T -> seq<U>)
    ensures forall x :: x in Present(s, f) <==> x in s && f(x) != []
    ensures NoDuplicates(s) ==> NoDuplicates(Present(s, f))
    decreases |s|
  {
    if s != [] {
      var init, last := s[..|s| - 1], s[|s| - 1];
      assert s == init + [last];
      PresentMembers(init, f);
    }
  }

  /** Two duplicate-free lists that agree on who contributes collect the same values. */
  lemma SameContributors<T, U>(a: seq<T>, b: seq<T>, f: T -> seq<U>)
    requires NoDuplicates(a) && NoDuplicates(b)
    requires forall x :: f(x) != [] ==> (x in a <==> x in b)
    ensures multiset(Flat(a, f)) == multiset(Flat(b, f))
  {
    FlatPresent(a, f);
    FlatPresent(b, f);
    PresentMembers(a, f);
    PresentMembers(b, f);
    SameElements(Present(a, f), Present(b, f));
    FlatPermutation(Present(a, f), Present(b, f), f);
  }
}
