/**
  Re-aggregation of the relational rows (src/llm_hardtest/community_database.py:592-705)
  and its agreement with direct aggregation.
 */
module Reaggregation {
  import opened Numbers
  import opened Sequences
  import opened Dictionaries
  import opened Bundles
  import opened OrderFree
  import opened Aggregation
  import opened Database

  // ----- nested accumulators: bundle, then key -----

  type Nested = map<Id, Locals>

  function LocalsAt(m: Nested, bundle: Id): Locals {
    if bundle in m then m[bundle] else map[]
  }

  function NestRun(m: Nested, run: Run): Nested {
    m[run.bundle := AddRun(LocalsAt(m, run.bundle), run)]
  }

  function Nest(runs: seq<Run>): Nested {
    if runs == [] then map[] else NestRun(Nest(runs[..|runs| - 1]), runs[|runs| - 1])
  }

  lemma NestedRun(m: Nested, run: Run, bundle: Id)
    ensures LocalsAt(NestRun(m, run), bundle)
         == if bundle == run.bundle then AddRun(LocalsAt(m, bundle), run) else LocalsAt(m, bundle)
  {
  }

  lemma {:induction false} NestLookup(runs: seq<Run>, bundle: Id, key: Key)
    ensures key in LocalsAt(Nest(runs), bundle) <==> Matching(runs, bundle, key) != []
    ensures LocalAt(LocalsAt(Nest(runs), bundle), key) == LocalOf(Matching(runs, bundle, key))
    decreases |runs|
  {
    if runs != [] {
      var init, last := runs[..|runs| - 1], runs[|runs| - 1];
      assert runs == init + [last];
      NestLookup(init, bundle, key);
      NestedRun(Nest(init), last, bundle);
      AddedRun(LocalsAt(Nest(init), bundle), last, key);
      MatchingLast(init, last, bundle, key);
    }
  }

  lemma {:induction false} NestBundles(runs: seq<Run>, bundle: Id, key: Key)
    requires Matching(runs, bundle, key) != []
    ensures bundle in Nest(runs)
  {
    NestLookup(runs, bundle, key);
  }

  // ----- one cell per bundle -----

  /** What a bundle contributes to a key: one cell, or nothing. */
  function CellFor(runs: seq<Run>, key: Key): Id -> seq<Cell> {
    (bundle: Id) =>
      var mine := Matching(runs, bundle, key);
      if mine == [] then [] else [CellOf(LocalOf(mine))]
  }

  ghost predicate Enumerates(order: seq<Id>, nest: Nested) {
    NoDuplicates(order) && forall b :: b in order <==> b in nest
  }

  function Picked(nest: Nested, order: seq<Id>): (r: seq<Locals>)
    ensures |r| == |order|
    ensures forall i :: 0 <= i < |r| ==> r[i] == LocalsAt(nest, order[i])
  {
    seq(|order|, i requires 0 <= i < |order| => LocalsAt(nest, order[i]))
  }

  /** Cells listed bundle by bundle are the contributions of those bundles. */
  lemma {:induction false} CellsAreFlat(list: seq<Locals>, bundles: seq<Id>, f: Id -> seq<Cell>, key: Key)
    requires |list| == |bundles| && forall i :: 0 <= i < |list| ==> f(bundles[i]) == CellHere(list[i], key)
    ensures CellsIn(list, key) == Flat(bundles, f)
    decreases |list|
  {
    if list != [] {
      var n := |list| - 1;
      CellsAreFlat(list[..n], bundles[..n], f, key);
    }
  }

  lemma PickedCells(runs: seq<Run>, order: seq<Id>, key: Key)
    ensures CellsIn(Picked(Nest(runs), order), key) == Flat(order, CellFor(runs, key))
  {
    var list, f := Picked(Nest(runs), order), CellFor(runs, key);
    forall i | 0 <= i < |order| ensures f(order[i]) == CellHere(list[i], key) {
      NestLookup(runs, order[i], key);
    }
    CellsAreFlat(list, order, f, key);
  }

  function BundleIds(subs: seq<Submission>): (r: seq<Id>)
    ensures |r| == |subs| && forall i :: 0 <= i < |r| ==> r[i] == subs[i].bundle
  {
    seq(|subs|, i requires 0 <= i < |subs| => subs[i].bundle)
  }

  lemma {:induction false} NoForeignRuns(runs: seq<Run>, bundle: Id, key: Key)
    requires forall i :: 0 <= i < |runs| ==> runs[i].bundle != bundle
    ensures Matching(runs, bundle, key) == []
    decreases |runs|
  {
    if runs != [] { NoForeignRuns(runs[1..], bundle, key); }
  }

  lemma BundleRunsAreOwn(s: Submission, bundle: Id, key: Key)
    requires ValidSubmission(s) && s.bundle != bundle
    ensures Matching(RunsOf(s), bundle, key) == []
  {
    RunsComeFromModels(s, |s.models|);
    NoForeignRuns(RunsOf(s), bundle, key);
  }

  /** With distinct bundle IDs, a bundle's runs are found in its own submission only. */
  lemma {:induction false} OwnRuns(subs: seq<Submission>, bundle: Id, key: Key)
    requires ValidSubmissions(subs) && forall i :: 0 <= i < |subs| ==> subs[i].bundle != bundle
    ensures Matching(AllRuns(subs), bundle, key) == []
    decreases |subs|
  {
    if subs != [] {
      var n := |subs| - 1;
      OwnRuns(subs[..n], bundle, key);
      BundleRunsAreOwn(subs[n], bundle, key);
      MatchingConcat(AllRuns(subs[..n]), RunsOf(subs[n]), bundle, key);
    }
  }

  lemma {:induction false} SubmissionRuns(subs: seq<Submission>, i: nat, key: Key)
    requires ValidSubmissions(subs) && i < |subs|
    requires forall a, b :: 0 <= a < b < |subs| ==> subs[a].bundle != subs[b].bundle
    ensures Matching(AllRuns(subs), subs[i].bundle, key) == Matching(RunsOf(subs[i]), subs[i].bundle, key)
    decreases |subs|
  {
    var n := |subs| - 1;
    MatchingConcat(AllRuns(subs[..n]), RunsOf(subs[n]), subs[i].bundle, key);
    if i == n {
      OwnRuns(subs[..n], subs[n].bundle, key);
    } else {
      SubmissionRuns(subs[..n], i, key);
      BundleRunsAreOwn(subs[n], subs[i].bundle, key);
    }
  }

  lemma OwnCell(subs: seq<Submission>, i: nat, key: Key)
    requires Publishable(subs) && i < |subs|
    ensures CellFor(AllRuns(subs), key)(subs[i].bundle) == CellHere(LocalsOf(RunsOf(subs[i])), key)
  {
    var s := subs[i];
    SubmissionRuns(subs, i, key);
    RunsComeFromModels(s, |s.models|);
    LocalsLookup(RunsOf(s), s.bundle, key);
  }

  lemma DirectCells(subs: seq<Submission>, key: Key)
    requires Publishable(subs)
    ensures CellsIn(BundleLocals(subs), key) == Flat(BundleIds(subs), CellFor(AllRuns(subs), key))
  {
    var list, f := BundleLocals(subs), CellFor(AllRuns(subs), key);
    forall i | 0 <= i < |subs| ensures f(BundleIds(subs)[i]) == CellHere(list[i], key) {
      OwnCell(subs, i, key);
    }
    CellsAreFlat(list, BundleIds(subs), f, key);
  }

  // ----- the two paths agree -----

  function DatabaseIdentities(db: Tables): Identities {
    map id | id in Index(db.configurations) :: Index(db.configurations)[id].identity
  }

  /** The rows of the relational path, for some order in which the bundles are visited. */
  ghost predicate Reaggregated(db: Tables, wilson: Wilson, rows: map<Key, Row>) {
    exists order :: RowsInOrder(db, wilson, order, rows)
  }

  ghost predicate RowsInOrder(db: Tables, wilson: Wilson, order: seq<Id>, rows: map<Key, Row>) {
    var nest := Nest(StoredRuns(db));
    && Enumerates(order, nest)
    && Known(MergeAll(Picked(nest, order)), DatabaseIdentities(db))
    && rows == RowsOf(MergeAll(Picked(nest, order)), DatabaseIdentities(db), wilson)
  }

  /** A bundle that contributes to a key is both submitted and stored. */
  lemma ContributorIsListed(db: Tables, subs: seq<Submission>, order: seq<Id>, key: Key, bundle: Id)
    requires Publishable(subs) && Stores(db, subs) && Enumerates(order, Nest(StoredRuns(db)))
    requires Matching(StoredRuns(db), bundle, key) != []
    ensures bundle in BundleIds(subs) && bundle in order
  {
    NestBundles(StoredRuns(db), bundle, key);
    StoredCell(db, subs, bundle, key);
    if bundle !in BundleIds(subs) {
      OwnRuns(subs, bundle, key);
    }
  }

  lemma StoredContributors(db: Tables, subs: seq<Submission>, order: seq<Id>, key: Key)
    requires Publishable(subs) && Stores(db, subs) && Enumerates(order, Nest(StoredRuns(db)))
    ensures
      var f := CellFor(StoredRuns(db), key);
      multiset(Flat(BundleIds(subs), f)) == multiset(Flat(order, f))
  {
    var f := CellFor(StoredRuns(db), key);
    forall b | f(b) != [] ensures b in BundleIds(subs) <==> b in order {
      ContributorIsListed(db, subs, order, key, b);
    }
    SameContributors(BundleIds(subs), order, f);
  }

  /** Any order of the stored bundles collects the cells the submissions contribute. */
  lemma SameCells(db: Tables, subs: seq<Submission>, order: seq<Id>, key: Key)
    requires Publishable(subs) && Stores(db, subs) && Enumerates(order, Nest(StoredRuns(db)))
    ensures multiset(CellsIn(BundleLocals(subs), key)) == multiset(CellsIn(Picked(Nest(StoredRuns(db)), order), key))
  {
    DirectCells(subs, key);
    PickedCells(StoredRuns(db), order, key);
    FlatCellsAgree(db, subs, BundleIds(subs), key);
    StoredContributors(db, subs, order, key);
  }

  lemma {:induction false} FlatCellsAgree(db: Tables, subs: seq<Submission>, bundles: seq<Id>, key: Key)
    requires Publishable(subs) && Stores(db, subs)
    ensures Flat(bundles, CellFor(AllRuns(subs), key)) == Flat(bundles, CellFor(StoredRuns(db), key))
    decreases |bundles|
  {
    if bundles != [] {
      var n := |bundles| - 1;
      FlatCellsAgree(db, subs, bundles[..n], key);
      StoredCell(db, subs, bundles[n], key);
    }
  }

  lemma SameConfigurationsAgree(models: seq<Model>)
    requires SameConfigurations(models)
    ensures Consistent(map[], models)
  {
    forall i, j | 0 <= i < j < |models| && models[i].configuration == models[j].configuration
      ensures models[i].identity == models[j].identity
    {
      assert models[i] in models && models[j] in models;
      assert ConfigurationOf(models[i]) == ConfigurationOf(models[j]);
    }
    ConsistentMeansSame(models);
  }

  ghost predicate SameScaffolds(models: seq<Model>) {
    forall a, b :: a in models && b in models && a.configuration == b.configuration ==> a.scaffold == b.scaffold
  }

  /**
    The two paths refuse the same bundles except for one family: entries that share an ID
    and an identity but not a scaffold are merged by direct aggregation and refused by
    normalisation.
   */
  lemma OnlyScaffoldsSeparateThePaths(models: seq<Model>)
    ensures SameConfigurations(models) <==> SameIdentities(models) && SameScaffolds(models)
  {
    if SameConfigurations(models) {
      SameConfigurationsAgree(models);
      ConsistentMeansSame(models);
      forall a, b | a in models && b in models && a.configuration == b.configuration ensures a.scaffold == b.scaffold {
        assert ConfigurationOf(a) == ConfigurationOf(b);
      }
    }
    if SameIdentities(models) && SameScaffolds(models) {
      forall a, b | a in models && b in models && a.configuration == b.configuration
        ensures ConfigurationOf(a) == ConfigurationOf(b)
      {
        var i :| 0 <= i < |models| && models[i] == a;
        var j :| 0 <= j < |models| && models[j] == b;
        assert i == j || a.identity == b.identity;
      }
    }
  }

  lemma StoredModelsConsistent(db: Tables, subs: seq<Submission>)
    requires ValidSubmissions(subs) && Stores(db, subs)
    ensures SameConfigurations(AllModels(subs)) && Consistent(map[], AllModels(subs))
  {
    var models := AllModels(subs);
    forall a, b | a in models && b in models && a.configuration == b.configuration
      ensures ConfigurationOf(a) == ConfigurationOf(b)
    {
      var i :| 0 <= i < |models| && models[i] == a;
      var j :| 0 <= j < |models| && models[j] == b;
      ConfigurationFound(db, subs, i);
      ConfigurationFound(db, subs, j);
    }
    SameConfigurationsAgree(models);
  }

  lemma IdentityAgrees(db: Tables, subs: seq<Submission>, key: Key)
    requires ValidSubmissions(subs) && Stores(db, subs) && key in MergeAll(BundleLocals(subs))
    ensures
      var learned, indexed := Learn(map[], AllModels(subs)), DatabaseIdentities(db);
      && key.configuration in learned && key.configuration in indexed
      && learned[key.configuration] == indexed[key.configuration]
  {
    StoredModelsConsistent(db, subs);
    DirectKeysKnown(subs, key);
    var i :| 0 <= i < |AllModels(subs)| && AllModels(subs)[i].configuration == key.configuration;
    LearnedAgrees(map[], AllModels(subs), i);
    ConfigurationFound(db, subs, i);
  }

  lemma SameRow(db: Tables, subs: seq<Submission>, wilson: Wilson, order: seq<Id>, key: Key)
    requires Publishable(subs) && Stores(db, subs) && Enumerates(order, Nest(StoredRuns(db)))
    ensures
      var direct, stored := MergeAll(BundleLocals(subs)), MergeAll(Picked(Nest(StoredRuns(db)), order));
      && (key in direct <==> key in stored)
      && (key in direct ==> StatsOf(direct[key], wilson) == StatsOf(stored[key], wilson))
  {
    var a, b := BundleLocals(subs), Picked(Nest(StoredRuns(db)), order);
    SameCells(db, subs, order, key);
    MergeLookup(a, key);
    MergeLookup(b, key);
    SameSize(CellsIn(a, key), CellsIn(b, key));
    StatsAreOrderFree(CellsIn(a, key), CellsIn(b, key), wilson);
  }

  /**
    Whatever order the stored rows come back in, re-aggregating them gives exactly the
    rows of direct aggregation, key by key.
   */
  lemma PathsAgree(db: Tables, subs: seq<Submission>, wilson: Wilson, rows: map<Key, Row>)
    requires Publishable(subs) && Stores(db, subs) && Reaggregated(db, wilson, rows)
    ensures Consistent(map[], AllModels(subs)) && rows == DirectRows(subs, wilson)
  {
    StoredModelsConsistent(db, subs);
    DirectKnown(subs);
    var order :| RowsInOrder(db, wilson, order, rows);
    var direct, stored := MergeAll(BundleLocals(subs)), MergeAll(Picked(Nest(StoredRuns(db)), order));
    var learned, indexed := Learn(map[], AllModels(subs)), DatabaseIdentities(db);
    forall k ensures SameEntry(direct, learned, stored, indexed, wilson, k) {
      SameRow(db, subs, wilson, order, k);
      if k in direct {
        IdentityAgrees(db, subs, k);
      }
    }
    EntriesDecideRows(direct, learned, stored, indexed, wilson);
  }

  /** Two aggregates show the same row, or none, under a key. */
  ghost predicate SameEntry(a: Groups, known: Identities, b: Groups, found: Identities, wilson: Wilson, k: Key) {
    && (k in a <==> k in b)
    && (k in a && k.configuration in known && k.configuration in found ==>
          StatsOf(a[k], wilson) == StatsOf(b[k], wilson) && known[k.configuration] == found[k.configuration])
  }

  lemma EntriesDecideRows(a: Groups, known: Identities, b: Groups, found: Identities, wilson: Wilson)
    requires Known(a, known) && Known(b, found)
    requires forall k :: SameEntry(a, known, b, found, wilson, k)
    ensures RowsOf(a, known, wilson) == RowsOf(b, found, wilson)
  {
    forall k ensures k in a <==> k in b {
      assert SameEntry(a, known, b, found, wilson, k);
    }
    forall k | k in a ensures RowsOf(a, known, wilson)[k] == RowsOf(b, found, wilson)[k] {
      assert SameEntry(a, known, b, found, wilson, k);
    }
  }

  // ----- the relational path as it runs -----

  ghost predicate Linked(db: Tables) {
    forall i :: 0 <= i < |db.runs| ==> db.runs[i].id.configuration in Index(db.configurations)
  }

  /** Stored tables satisfy their foreign keys. */
  lemma StoredIsLinked(db: Tables, subs: seq<Submission>)
    requires ValidSubmissions(subs) && Stores(db, subs)
    ensures Linked(db)
  {
    forall i | 0 <= i < |db.runs| ensures db.runs[i].id.configuration in Index(db.configurations) {
      assert db.runs[i] in multiset(RunRows(AllRuns(subs)));
      var k := FindMember(RunRows(AllRuns(subs)), db.runs[i]);
      var j := ModelOfRun(subs, k);
      ConfigurationFound(db, subs, j);
    }
  }

  function ItemsAt(m: map<RunId, seq<Item>>, id: RunId): seq<Item> {
    if id in m then m[id] else []
  }

  method GroupItems(items: seq<ItemRow>) returns (byRun: map<RunId, seq<Item>>)
    ensures forall id :: ItemsAt(byRun, id) == ItemsFor(items, id)
  {
    byRun := map[];
    for n := 0 to |items|
      invariant forall id :: ItemsAt(byRun, id) == ItemsFor(items[..n], id)
    {
      assert items[..n + 1] == items[..n] + [items[n]];
      forall id ensures ItemsFor(items[..n + 1], id) == ItemsFor(items[..n], id) + Selecting(id)(items[n]) {
        FlatAppend(items[..n], items[n], Selecting(id));
      }
      byRun := byRun[items[n].run := ItemsAt(byRun, items[n].run) + [items[n].item]];
    }
    assert items[..|items|] == items;
  }

  method IndexConfigurations(rows: seq<ConfigurationRow>) returns (index: map<Id, ConfigurationRow>)
    ensures index == Index(rows)
  {
    index := map[];
    for n := 0 to |rows|
      invariant index == Index(rows[..n])
    {
      assert rows[..n + 1][..n] == rows[..n];
      index := index[rows[n].configuration := rows[n]];
    }
    assert rows[..|rows|] == rows;
  }

  /** The loop over the stored runs; every run finds its configuration and its items. */
  method NestStored(db: Tables, index: map<Id, ConfigurationRow>, byRun: map<RunId, seq<Item>>) returns (nest: Nested)
    requires Linked(db) && index == Index(db.configurations)
    requires forall id :: ItemsAt(byRun, id) == ItemsFor(db.items, id)
    ensures nest == Nest(StoredRuns(db))
  {
    nest := map[];
    ghost var joining := Joining(index, db.items);
    for n := 0 to |db.runs|
      invariant nest == Nest(Flat(db.runs[..n], joining))
    {
      var row := db.runs[n];
      var run := Run(row.id.bundle, row.id.configuration, index[row.id.configuration].identity.name,
                     row.id.ordinal, row.id.round, row.id.pack,
                     row.passed, row.total, row.incomplete, row.manualReview, row.infrastructure,
                     ItemsAt(byRun, row.id));
      NestNext(db, index, n, run);
      nest := NestRun(nest, run);
    }
    assert db.runs[..|db.runs|] == db.runs;
  }

  lemma NestNext(db: Tables, index: map<Id, ConfigurationRow>, n: nat, run: Run)
    requires n < |db.runs| && db.runs[n].id.configuration in index
    requires run == JoinRow(index, db.items, db.runs[n])
    ensures Nest(Flat(db.runs[..n + 1], Joining(index, db.items)))
         == NestRun(Nest(Flat(db.runs[..n], Joining(index, db.items))), run)
  {
    assert db.runs[..n + 1] == db.runs[..n] + [db.runs[n]];
    FlatAppend(db.runs[..n], db.runs[n], Joining(index, db.items));
    NestAppend(Flat(db.runs[..n], Joining(index, db.items)), run);
  }

  lemma NestAppend(runs: seq<Run>, last: Run)
    ensures Nest(runs + [last]) == NestRun(Nest(runs), last)
  {
    assert (runs + [last])[..|runs|] == runs;
  }

  /** The loop over bundle_groups.values(), in whatever order the bundles come. */
  method MergeNested(nest: Nested) returns (groups: Groups, ghost order: seq<Id>)
    ensures Enumerates(order, nest) && groups == MergeAll(Picked(nest, order))
  {
    groups, order := map[], [];
    var todo := nest.Keys;
    while todo != {}
      invariant todo <= nest.Keys && NoDuplicates(order)
      invariant forall b :: b in order <==> b in nest.Keys - todo
      invariant groups == MergeAll(Picked(nest, order))
      decreases |todo|
    {
      var bundle :| bundle in todo;
      NoDuplicatesAppend(order, bundle);
      ghost var next := order + [bundle];
      assert Picked(nest, next)[..|order|] == Picked(nest, order);
      groups := FoldIn(groups, nest[bundle], AddLocal);
      todo := todo - {bundle};
      order := next;
    }
  }

  method AggregateDatabase(db: Tables, wilson: Wilson) returns (rows: map<Key, Row>)
    requires Linked(db)
    ensures Reaggregated(db, wilson, rows)
  {
    var index := IndexConfigurations(db.configurations);
    var byRun := GroupItems(db.items);
    var nest := NestStored(db, index, byRun);
    var groups, order := MergeNested(nest);
    var known := map id | id in index :: index[id].identity;
    assert known == DatabaseIdentities(db);
    StoredKeysKnown(db, order);
    rows := RowsOf(groups, known, wilson);
    assert RowsInOrder(db, wilson, order, rows);
  }

  lemma {:induction false} NestedKeys(runs: seq<Run>, bundle: Id, key: Key) returns (i: nat)
    requires key in LocalsAt(Nest(runs), bundle)
    ensures i < |runs| && KeyOf(runs[i]) == key
    decreases |runs|
  {
    var n := |runs| - 1;
    if runs[n].bundle == bundle && KeyOf(runs[n]) == key {
      i := n;
    } else {
      i := NestedKeys(runs[..n], bundle, key);
    }
  }

  lemma {:induction false} StoredRunConfigured(rows: seq<RunRow>, index: map<Id, ConfigurationRow>,
                                               items: seq<ItemRow>, i: nat)
    requires i < |Flat(rows, Joining(index, items))|
    ensures Flat(rows, Joining(index, items))[i].configuration in index
    decreases |rows|
  {
    var n := |rows| - 1;
    if i < |Flat(rows[..n], Joining(index, items))| {
      StoredRunConfigured(rows[..n], index, items, i);
    }
  }

  lemma StoredKeysKnown(db: Tables, order: seq<Id>)
    ensures Known(MergeAll(Picked(Nest(StoredRuns(db)), order)), DatabaseIdentities(db))
  {
    var nest := Nest(StoredRuns(db));
    forall k | k in MergeAll(Picked(nest, order)) ensures k.configuration in DatabaseIdentities(db) {
      var i := MergeSource(Picked(nest, order), k);
      var j := NestedKeys(StoredRuns(db), order[i], k);
      StoredRunConfigured(db.runs, Index(db.configurations), db.items, j);
    }
  }
}
