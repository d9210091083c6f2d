/**
  The list of aggregated rows that is published, sorted by round, folded model name and
  configuration (src/llm_hardtest/community_results.py:189-191).
 */
module RowLists {
  import opened Numbers
  import opened Sequences
  import opened Dictionaries
  import opened Bundles
  import opened Aggregation

  datatype Line = Line(key: Key, row: Row)

  datatype SortKey = SortKey(round: int, name: int, configuration: int)

  function SortKeyOf(l: Line, fold: Folding): SortKey {
    SortKey(l.key.round, fold(l.key.name), l.key.configuration.place)
  }

  predicate AtMost(a: SortKey, b: SortKey) {
    || a.round < b.round
    || (a.round == b.round && (a.name < b.name || (a.name == b.name && a.configuration <= b.configuration)))
  }

  /** In sort order. */
  ghost predicate Sorted(list: seq<Line>, fold: Folding) {
    forall i, j :: 0 <= i < j < |list| ==> AtMost(SortKeyOf(list[i], fold), SortKeyOf(list[j], fold))
  }

  /** Each row of the dictionary once. */
  ghost predicate Shows(list: seq<Line>, rows: map<Key, Row>) {
    NoDuplicates(list) && forall l :: l in list <==> l.key in rows && l.row == rows[l.key]
  }

  ghost predicate Published(list: seq<Line>, rows: map<Key, Row>, fold: Folding) {
    Shows(list, rows) && Sorted(list, fold)
  }

  // ----- sorting -----

  function RoundPlace(): Line -> int {
    (l: Line) => l.key.round
  }

  function NamePlace(fold: Folding): Line -> int {
    (l: Line) => fold(l.key.name)
  }

  function ConfigurationPlace(): Line -> int {
    (l: Line) => l.key.configuration.place
  }

  /** One stable pass per component of the key, the last one first. */
  function InRowOrder(items: seq<Line>, fold: Folding): seq<Line> {
    SortBy(SortBy(SortBy(items, ConfigurationPlace()), NamePlace(fold)), RoundPlace())
  }

  lemma RowOrderSorts(items: seq<Line>, fold: Folding)
    ensures Sorted(InRowOrder(items, fold), fold)
    ensures multiset(InRowOrder(items, fold)) == multiset(items)
  {
    var any: (Line, Line) -> bool := (x, y) => true;
    var byConfiguration := ThenBy(ConfigurationPlace(), any);
    var byName := ThenBy(NamePlace(fold), byConfiguration);
    StableSort(items, ConfigurationPlace(), any);
    StableSort(SortBy(items, ConfigurationPlace()), NamePlace(fold), byConfiguration);
    StableSort(SortBy(SortBy(items, ConfigurationPlace()), NamePlace(fold)), RoundPlace(), byName);
    var list := InRowOrder(items, fold);
    forall i, j | 0 <= i < j < |list| ensures AtMost(SortKeyOf(list[i], fold), SortKeyOf(list[j], fold)) {
      assert ThenBy(RoundPlace(), byName)(list[i], list[j]);
    }
  }

  method PublishRows(rows: map<Key, Row>, fold: Folding) returns (list: seq<Line>)
    ensures Published(list, rows, fold)
  {
    var items: seq<Line> := [];
    var todo := rows.Keys;
    ghost var done: set<Key> := {};
    while todo != {}
      invariant done <= rows.Keys && todo == rows.Keys - done
      invariant Gathered(items, rows, done)
      decreases |todo|
    {
      var key :| key in todo;
      GatherNext(items, rows, done, key);
      VisitNext(rows.Keys, done, todo, key);
      items := items + [Line(key, rows[key])];
      todo, done := todo - {key}, done + {key};
    }
    VisitedAll(rows.Keys, done);
    list := InRowOrder(items, fold);
    RowOrderSorts(items, fold);
    StillShown(items, list, rows);
  }

  /** The visited items, in whatever order the dictionary yields them. */
  ghost predicate Gathered(items: seq<Line>, rows: map<Key, Row>, done: set<Key>) {
    && done <= rows.Keys && NoDuplicates(items)
    && forall l :: l in items <==> l.key in done && l.row == rows[l.key]
  }

  lemma GatherNext(items: seq<Line>, rows: map<Key, Row>, done: set<Key>, key: Key)
    requires Gathered(items, rows, done) && key in rows.Keys - done
    ensures Gathered(items + [Line(key, rows[key])], rows, done + {key})
  {
    NoDuplicatesAppend(items, Line(key, rows[key]));
  }

  lemma StillShown(items: seq<Line>, list: seq<Line>, rows: map<Key, Row>)
    requires multiset(list) == multiset(items) && Gathered(items, rows, rows.Keys)
    ensures Shows(list, rows)
  {
    forall l ensures l in list <==> l in items {
      assert l in multiset(list) <==> l in multiset(items);
    }
    NoDuplicatesPermuted(items, list);
  }

  lemma NoDuplicatesPermuted(items: seq<Line>, list: seq<Line>)
    requires multiset(list) == multiset(items) && NoDuplicates(items)
    ensures NoDuplicates(list)
  {
    forall i, j | 0 <= i < j < |list| ensures list[i] != list[j] {
      if list[i] == list[j] {
        TwiceCounted(list, i, j);
        CountInDistinct(items, list[i]);
      }
    }
  }

  // ----- two published lists of the same rows -----

  ghost predicate SortedKeys(keys: seq<SortKey>) {
    forall i, j :: 0 <= i < j < |keys| ==> AtMost(keys[i], keys[j])
  }

  lemma {:induction false} SortedKeysUnique(a: seq<SortKey>, b: seq<SortKey>)
    requires SortedKeys(a) && SortedKeys(b) && multiset(a) == multiset(b)
    ensures a == b
    decreases |a|
  {
    SameSize(a, b);
    if a != [] {
      RestMultiset(a);
      RestMultiset(b);
      LeastKey(a, b[0]);
      LeastKey(b, a[0]);
      SortedKeysUnique(a[1..], b[1..]);
      SameParts(a, b);
    }
  }

  lemma LeastKey(keys: seq<SortKey>, x: SortKey)
    requires SortedKeys(keys) && keys != [] && x in multiset(keys)
    ensures AtMost(keys[0], x)
  {
    var i :| 0 <= i < |keys| && keys[i] == x;
  }

  function KeyList(fold: Folding): Line -> seq<SortKey> {
    (l: Line) => [SortKeyOf(l, fold)]
  }

  lemma {:induction false} KeysAre(list: seq<Line>, fold: Folding)
    ensures |Flat(list, KeyList(fold))| == |list|
    ensures forall i :: 0 <= i < |list| ==> Flat(list, KeyList(fold))[i] == SortKeyOf(list[i], fold)
    decreases |list|
  {
    if list != [] { KeysAre(list[..|list| - 1], fold); }
  }

  lemma SameSortKeys(a: seq<Line>, b: seq<Line>, rows: map<Key, Row>, fold: Folding)
    requires Published(a, rows, fold) && Published(b, rows, fold)
    ensures |a| == |b| && multiset(a) == multiset(b)
    ensures forall i :: 0 <= i < |a| ==> SortKeyOf(a[i], fold) == SortKeyOf(b[i], fold)
  {
    assert forall l :: l in a <==> l in b;
    SameElements(a, b);
    SameSize(a, b);
    FlatPermutation(a, b, KeyList(fold));
    KeysAre(a, fold);
    KeysAre(b, fold);
    SortedKeysUnique(Flat(a, KeyList(fold)), Flat(b, KeyList(fold)));
  }

  /** Rows are grouped under the name of their configuration. */
  ghost predicate Named(rows: map<Key, Row>) {
    forall k, l :: k in rows && l in rows && k.configuration == l.configuration ==> k.name == l.name
  }

  ghost predicate SameButPack(k: Key, l: Key) {
    k.(pack := l.pack) == l
  }

  /** No configuration has rows for two packs of a round. */
  ghost predicate OnePackEach(rows: map<Key, Row>) {
    forall k, l :: k in rows && l in rows && SameButPack(k, l) ==> k == l
  }

  /** However ties fall, two published lists of the same rows differ only among rows that differ only in pack. */
  lemma PublishedAlike(a: seq<Line>, b: seq<Line>, rows: map<Key, Row>, fold: Folding)
    requires Published(a, rows, fold) && Published(b, rows, fold) && Named(rows)
    ensures |a| == |b| && multiset(a) == multiset(b)
    ensures forall i :: 0 <= i < |a| ==> SameButPack(a[i].key, b[i].key)
    ensures OnePackEach(rows) ==> a == b
  {
    SameSortKeys(a, b, rows, fold);
    forall i | 0 <= i < |a| ensures SameButPack(a[i].key, b[i].key) && (OnePackEach(rows) ==> a[i] == b[i]) {
      assert a[i] in a && b[i] in b;
      AlikeLines(a[i], b[i], rows, fold);
    }
  }

  lemma AlikeLines(x: Line, y: Line, rows: map<Key, Row>, fold: Folding)
    requires x.key in rows && y.key in rows && x.row == rows[x.key] && y.row == rows[y.key] && Named(rows)
    requires SortKeyOf(x, fold) == SortKeyOf(y, fold)
    ensures SameButPack(x.key, y.key) && (OnePackEach(rows) ==> x == y)
  {
  }

  function Exchanged(list: seq<Line>, i: nat, j: nat): (r: seq<Line>)
    requires i < |list| && j < |list|
    ensures |r| == |list|
    ensures forall m :: 0 <= m < |r| ==> r[m] == list[if m == i then j else if m == j then i else m]
  {
    list[i := list[j]][j := list[i]]
  }

  lemma ExchangedShows(list: seq<Line>, rows: map<Key, Row>, i: nat, j: nat)
    requires Shows(list, rows) && i < |list| && j < |list|
    ensures Shows(Exchanged(list, i, j), rows)
  {
    var r := Exchanged(list, i, j);
    forall l | l in list ensures l in r {
      var m :| 0 <= m < |list| && list[m] == l;
      assert r[if m == i then j else if m == j then i else m] == l;
    }
  }

  lemma TiesMayTurn(list: seq<Line>, rows: map<Key, Row>, fold: Folding, k: Key, l: Key)
    returns (other: seq<Line>)
    requires Published(list, rows, fold) && k in rows && l in rows && SameButPack(k, l) && k != l
    ensures Published(other, rows, fold) && other != list
  {
    var i := PlaceOf(list, rows, k);
    var j := PlaceOf(list, rows, l);
    other := Exchanged(list, i, j);
    ExchangedShows(list, rows, i, j);
    ExchangedSorts(list, fold, i, j);
    assert other[i] == list[j];
  }

  lemma PlaceOf(list: seq<Line>, rows: map<Key, Row>, k: Key) returns (i: nat)
    requires Shows(list, rows) && k in rows
    ensures i < |list| && list[i].key == k
  {
    assert Line(k, rows[k]) in list;
    i :| i < |list| && list[i] == Line(k, rows[k]);
  }

  lemma ExchangedSorts(list: seq<Line>, fold: Folding, i: nat, j: nat)
    requires Sorted(list, fold) && i < |list| && j < |list|
    requires SortKeyOf(list[i], fold) == SortKeyOf(list[j], fold)
    ensures Sorted(Exchanged(list, i, j), fold)
  {
    var r := Exchanged(list, i, j);
    forall m, n | 0 <= m < n < |r| ensures AtMost(SortKeyOf(r[m], fold), SortKeyOf(r[n], fold)) {
      assert SortKeyOf(r[m], fold) == SortKeyOf(list[m], fold);
      assert SortKeyOf(r[n], fold) == SortKeyOf(list[n], fold);
    }
  }

  /** The sort fixes the published list exactly when no configuration has two packs of a round. */
  lemma SortFixesTheListExactly(list: seq<Line>, rows: map<Key, Row>, fold: Folding)
    requires Published(list, rows, fold) && Named(rows)
    ensures (forall other :: Published(other, rows, fold) ==> other == list) <==> OnePackEach(rows)
  {
    if OnePackEach(rows) {
      forall other | Published(other, rows, fold) ensures other == list {
        PublishedAlike(list, other, rows, fold);
      }
    } else {
      var k, l :| k in rows && l in rows && SameButPack(k, l) && k != l;
      var other := TiesMayTurn(list, rows, fold, k, l);
    }
  }

  lemma DirectRowsAreNamed(subs: seq<Submission>, wilson: Wilson)
    requires ValidSubmissions(subs) && Consistent(map[], AllModels(subs))
    ensures Named(DirectRows(subs, wilson))
  {
    var rows := DirectRows(subs, wilson);
    forall k, l | k in rows && l in rows && k.configuration == l.configuration ensures k.name == l.name {
      RowsShowTheirIdentity(subs, wilson, k);
      RowsShowTheirIdentity(subs, wilson, l);
    }
  }
}
