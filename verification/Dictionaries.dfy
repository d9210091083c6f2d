/** Dictionaries filled with setdefault-style updates, one entry at a time. */
module Dictionaries {
  import opened Numbers

  function Lookup<K, V>(m: map<K, V>, k: K): Option<V> {
    if k in m then Some(m[k]) else None
  }

  /** Fold every visited entry of `from` into `into`; `add` sees the entry already there, if any. */
  function FoldedIn<K, V, W>(into: map<K, V>, from: map<K, W>, done: set<K>, add: (Option<V>, W) -> V): map<K, V>
    requires done <= from.Keys
  {
    map k | k in into.Keys + done :: if k in done then add(Lookup(into, k), from[k]) else into[k]
  }

  lemma FoldNext<K, V, W>(into: map<K, V>, from: map<K, W>, done: set<K>, key: K, add: (Option<V>, W) -> V)
    requires done <= from.Keys && key in from.Keys - done
    ensures
      var before := FoldedIn(into, from, done, add);
      FoldedIn(into, from, done + {key}, add) == before[key := add(Lookup(before, key), from[key])]
  {
  }

  lemma FoldNone<K, V, W>(into: map<K, V>, from: map<K, W>, add: (Option<V>, W) -> V)
    ensures FoldedIn(into, from, {}, add) == into
  {
  }

  lemma VisitNext<K>(all: set<K>, done: set<K>, todo: set<K>, key: K)
    requires done <= all && todo == all - done && key in todo
    ensures done + {key} <= all && todo - {key} == all - (done + {key})
    ensures |todo - {key}| < |todo|
  {
  }

  lemma VisitedAll<K>(all: set<K>, done: set<K>)
    requires done <= all && all - done == {}
    ensures done == all
  {
    forall x | x in all ensures x in done {
      assert x in done || x in all - done;
    }
  }

  /** The loop over from.items(), in whatever order the items come. */
  method FoldIn<K(==), V, W>(into: map<K, V>, from: map<K, W>, add: (Option<V>, W) -> V) returns (folded: map<K, V>)
    ensures folded == FoldedIn(into, from, from.Keys, add)
  {
    folded := into;
    var todo := from.Keys;
    ghost var done: set<K> := {};
    FoldNone(into, from, add);
    while todo != {}
      invariant done <= from.Keys && todo == from.Keys - done
      invariant folded == FoldedIn(into, from, done, add)
      decreases |todo|
    {
      var key :| key in todo;
      FoldNext(into, from, done, key, add);
      VisitNext(from.Keys, done, todo, key);
      folded := folded[key := add(Lookup(folded, key), from[key])];
      todo, done := todo - {key}, done + {key};
    }
    VisitedAll(from.Keys, done);
  }
}
