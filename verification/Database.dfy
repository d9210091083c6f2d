/**
  The relational form of the bundles and its re-aggregation
  (src/llm_hardtest/community_database.py:215-300, 592-705).
 */
module Database {
  import opened Numbers
  import opened Sequences
  import opened Bundles
  import opened OrderFree
  import opened Aggregation

  /** The run identifier hashes exactly these five values; hashing is taken to be injective. */
  datatype RunId = RunId(bundle: Id, configuration: Id, ordinal: nat, round: nat, pack: Id)

  datatype ConfigurationRow = ConfigurationRow(configuration: Id, identity: Identity, scaffold: Id)

  datatype RunRow = RunRow(
    id: RunId, passed: Option<real>, total: Option<real>,
    incomplete: Option<real>, manualReview: Option<real>, infrastructure: Option<real>)

  datatype ItemRow = ItemRow(run: RunId, item: Item)

  datatype Tables = Tables(configurations: seq<ConfigurationRow>, runs: seq<RunRow>, items: seq<ItemRow>)

  function IdOf(run: Run): RunId {
    RunId(run.bundle, run.configuration, run.ordinal, run.round, run.pack)
  }

  function RunRowOf(run: Run): RunRow {
    RunRow(IdOf(run), run.passed, run.total, run.incomplete, run.manualReview, run.infrastructure)
  }

  function RunRows(runs: seq<Run>): (r: seq<RunRow>)
    ensures |r| == |runs| && forall i :: 0 <= i < |r| ==> r[i] == RunRowOf(runs[i])
  {
    seq(|runs|, i requires 0 <= i < |runs| => RunRowOf(runs[i]))
  }

  function ItemRowsOf(run: Run): (r: seq<ItemRow>)
    ensures |r| == |run.items| && forall i :: 0 <= i < |r| ==> r[i] == ItemRow(IdOf(run), run.items[i])
  {
    seq(|run.items|, i requires 0 <= i < |run.items| => ItemRow(IdOf(run), run.items[i]))
  }

  function ItemRows(runs: seq<Run>): seq<ItemRow> {
    Flat(runs, ItemRowsOf)
  }

  // ----- normalisation -----

  function ConfigurationOf(m: Model): ConfigurationRow {
    ConfigurationRow(m.configuration, m.identity, m.scaffold)
  }

  /** Equal IDs mean equal identities and equal scaffolds. */
  ghost predicate SameConfigurations(models: seq<Model>) {
    forall a, b :: a in models && b in models && a.configuration == b.configuration ==>
      ConfigurationOf(a) == ConfigurationOf(b)
  }

  /** Some entry of the list has this configuration row. */
  ghost predicate Shown(models: seq<Model>, row: ConfigurationRow) {
    exists m :: m in models && ConfigurationOf(m) == row
  }

  /** The tables hold the bundles, in whatever order hash-sorting left the rows. */
  ghost predicate Stores(db: Tables, subs: seq<Submission>)
    requires ValidSubmissions(subs)
  {
    && multiset(db.runs) == multiset(RunRows(AllRuns(subs)))
    && multiset(db.items) == multiset(ItemRows(AllRuns(subs)))
    && DistinctConfigurations(db.configurations)
    && (forall i :: 0 <= i < |AllModels(subs)| ==> ConfigurationOf(AllModels(subs)[i]) in db.configurations)
    && (forall row :: row in db.configurations ==> Shown(AllModels(subs), row))
  }

  // ----- joining the tables back -----

  /** Configuration rows by ID. */
  function Index(rows: seq<ConfigurationRow>): map<Id, ConfigurationRow> {
    if rows == [] then map[] else Index(rows[..|rows| - 1])[rows[|rows| - 1].configuration := rows[|rows| - 1]]
  }

  ghost predicate DistinctConfigurations(rows: seq<ConfigurationRow>) {
    forall i, j :: 0 <= i < j < |rows| ==> rows[i].configuration != rows[j].configuration
  }

  lemma {:induction false} IndexFinds(rows: seq<ConfigurationRow>, i: nat)
    requires DistinctConfigurations(rows) && i < |rows|
    ensures rows[i].configuration in Index(rows) && Index(rows)[rows[i].configuration] == rows[i]
    decreases |rows|
  {
    if i < |rows| - 1 { IndexFinds(rows[..|rows| - 1], i); }
  }

  function Selecting(id: RunId): ItemRow -> seq<Item> {
    (row: ItemRow) => if row.run == id then [row.item] else []
  }

  /** The items of a run, in table order. */
  function ItemsFor(items: seq<ItemRow>, id: RunId): seq<Item> {
    Flat(items, Selecting(id))
  }

  function JoinRow(index: map<Id, ConfigurationRow>, items: seq<ItemRow>, row: RunRow): Run
    requires row.id.configuration in index
  {
    Run(row.id.bundle, row.id.configuration, index[row.id.configuration].identity.name,
        row.id.ordinal, row.id.round, row.id.pack,
        row.passed, row.total, row.incomplete, row.manualReview, row.infrastructure,
        ItemsFor(items, row.id))
  }

  function Joining(index: map<Id, ConfigurationRow>, items: seq<ItemRow>): RunRow -> seq<Run> {
    (row: RunRow) => if row.id.configuration in index then [JoinRow(index, items, row)] else []
  }

  /** Every stored run with its configuration and its items. */
  function StoredRuns(db: Tables): seq<Run> {
    Flat(db.runs, Joining(Index(db.configurations), db.items))
  }

  // ----- items find their runs again -----

  lemma {:induction false} OwnItems(rows: seq<ItemRow>, items: seq<Item>, run: RunId, id: RunId)
    requires |rows| == |items| && forall i :: 0 <= i < |rows| ==> rows[i] == ItemRow(run, items[i])
    ensures ItemsFor(rows, id) == if run == id then items else []
    decreases |rows|
  {
    if rows != [] {
      var n := |rows| - 1;
      OwnItems(rows[..n], items[..n], run, id);
      assert rows == rows[..n] + [rows[n]] && items == items[..n] + [items[n]];
      FlatAppend(rows[..n], rows[n], Selecting(id));
    }
  }

  ghost predicate DistinctIds(runs: seq<Run>) {
    forall i, j :: 0 <= i < j < |runs| ==> IdOf(runs[i]) != IdOf(runs[j])
  }

  lemma ItemsOfLast(init: seq<Run>, last: Run, id: RunId)
    ensures ItemsFor(ItemRows(init + [last]), id)
         == ItemsFor(ItemRows(init), id) + (if IdOf(last) == id then last.items else [])
  {
    FlatAppend(init, last, ItemRowsOf);
    FlatConcat(ItemRows(init), ItemRowsOf(last), Selecting(id));
    OwnItems(ItemRowsOf(last), last.items, IdOf(last), id);
  }

  lemma {:induction false} NoOtherItems(runs: seq<Run>, id: RunId)
    requires forall i :: 0 <= i < |runs| ==> IdOf(runs[i]) != id
    ensures ItemsFor(ItemRows(runs), id) == []
    decreases |runs|
  {
    if runs != [] {
      var init, last := runs[..|runs| - 1], runs[|runs| - 1];
      NoOtherItems(init, id);
      ItemsOfLast(init, last, id);
      assert runs == init + [last];
    }
  }

  lemma {:induction false} ItemsFindTheirRun(runs: seq<Run>, i: nat)
    requires DistinctIds(runs) && i < |runs|
    ensures ItemsFor(ItemRows(runs), IdOf(runs[i])) == runs[i].items
    decreases |runs|
  {
    var n := |runs| - 1;
    var init, last, id := runs[..n], runs[n], IdOf(runs[i]);
    assert runs == init + [last];
    ItemsOfLast(init, last, id);
    if i == n {
      NoOtherItems(init, id);
      assert [] + last.items == last.items;
    } else {
      ItemsFindTheirRun(init, i);
      assert IdOf(last) != id;
      assert init[i].items + [] == init[i].items;
    }
  }

  // ----- run identifiers are distinct -----

  ghost predicate DistinctRounds(m: Model) {
    forall i, j :: 0 <= i < j < |m.rounds| ==> m.rounds[i].round != m.rounds[j].round
  }

  /** What public validation guarantees: distinct bundle IDs, one result per round of a model. */
  ghost predicate Publishable(subs: seq<Submission>) {
    && ValidSubmissions(subs)
    && (forall i, j :: 0 <= i < j < |subs| ==> subs[i].bundle != subs[j].bundle)
    && (forall i, m :: 0 <= i < |subs| && m in subs[i].models ==> DistinctRounds(m))
  }

  lemma {:induction false} RoundRunShape(s: Submission, ordinal: nat, m: Model, k: nat)
    requires k <= |m.rounds| && PacksCover(s.packs, m)
    ensures |RoundRuns(s, ordinal, m, k)| == k
    ensures forall i :: 0 <= i < k ==> RoundRuns(s, ordinal, m, k)[i] == RunOf(s, ordinal, m, m.rounds[i])
  {
    if k > 0 { RoundRunShape(s, ordinal, m, k - 1); }
  }

  lemma DistinctConcat(a: seq<Run>, b: seq<Run>)
    requires DistinctIds(a) && DistinctIds(b)
    requires forall i, j :: 0 <= i < |a| && 0 <= j < |b| ==> IdOf(a[i]) != IdOf(b[j])
    ensures DistinctIds(a + b)
  {
  }

  lemma {:induction false} BundleIdsDistinct(s: Submission, n: nat)
    requires ValidSubmission(s) && n <= |s.models| && forall m :: m in s.models ==> DistinctRounds(m)
    ensures DistinctIds(ModelRuns(s, n))
  {
    if n > 0 {
      var m := s.models[n - 1];
      BundleIdsDistinct(s, n - 1);
      RunsComeFromModels(s, n - 1);
      RoundRunShape(s, n, m, |m.rounds|);
      assert m in s.models;
      DistinctConcat(ModelRuns(s, n - 1), RoundRuns(s, n, m, |m.rounds|));
    }
  }

  lemma {:induction false} RunBundles(subs: seq<Submission>, i: nat) returns (k: nat)
    requires ValidSubmissions(subs) && i < |AllRuns(subs)|
    ensures k < |subs| && FromModel(subs[k], AllRuns(subs)[i])
    decreases |subs|
  {
    var n := |subs| - 1;
    if i < |AllRuns(subs[..n])| {
      k := RunBundles(subs[..n], i);
    } else {
      k := n;
      RunsComeFromModels(subs[n], |subs[n].models|);
    }
  }

  lemma {:induction false} AllIdsDistinct(subs: seq<Submission>)
    requires Publishable(subs)
    ensures DistinctIds(AllRuns(subs))
    decreases |subs|
  {
    if subs != [] {
      var n := |subs| - 1;
      var init, s := subs[..n], subs[n];
      AllIdsDistinct(init);
      BundleIdsDistinct(s, |s.models|);
      RunsComeFromModels(s, |s.models|);
      forall i, j | 0 <= i < |AllRuns(init)| && 0 <= j < |RunsOf(s)|
        ensures IdOf(AllRuns(init)[i]) != IdOf(RunsOf(s)[j])
      {
        var k := RunBundles(init, i);
        assert subs[k] == init[k];
      }
      DistinctConcat(AllRuns(init), RunsOf(s));
    }
  }

  // ----- the joined runs are the original ones -----

  lemma {:induction false} ModelOfRun(subs: seq<Submission>, i: nat) returns (j: nat)
    requires ValidSubmissions(subs) && i < |AllRuns(subs)|
    ensures j < |AllModels(subs)|
    ensures AllModels(subs)[j].configuration == AllRuns(subs)[i].configuration
    ensures AllModels(subs)[j].identity.name == AllRuns(subs)[i].name
    decreases |subs|
  {
    var n := |subs| - 1;
    if i < |AllRuns(subs[..n])| {
      j := ModelOfRun(subs[..n], i);
    } else {
      RunsComeFromModels(subs[n], |subs[n].models|);
      var run := RunsOf(subs[n])[i - |AllRuns(subs[..n])|];
      j := |AllModels(subs[..n])| + run.ordinal - 1;
    }
  }

  lemma ConfigurationFound(db: Tables, subs: seq<Submission>, j: nat)
    requires ValidSubmissions(subs) && Stores(db, subs) && j < |AllModels(subs)|
    ensures
      var m, index := AllModels(subs)[j], Index(db.configurations);
      m.configuration in index && index[m.configuration] == ConfigurationOf(m)
  {
    var row := ConfigurationOf(AllModels(subs)[j]);
    var i :| 0 <= i < |db.configurations| && db.configurations[i] == row;
    IndexFinds(db.configurations, i);
  }

  /** The tables give a run back, up to the order of its items. */
  ghost predicate GivenBack(db: Tables, run: Run) {
    var index := Index(db.configurations);
    run.configuration in index && SameRun(run, JoinRow(index, db.items, RunRowOf(run)))
  }

  lemma JoinedRun(db: Tables, subs: seq<Submission>, i: nat)
    requires Publishable(subs) && Stores(db, subs) && i < |AllRuns(subs)|
    ensures GivenBack(db, AllRuns(subs)[i])
  {
    var run := AllRuns(subs)[i];
    var j := ModelOfRun(subs, i);
    ConfigurationFound(db, subs, j);
    AllIdsDistinct(subs);
    ItemsFindTheirRun(AllRuns(subs), i);
    FlatPermutation(db.items, ItemRows(AllRuns(subs)), Selecting(IdOf(run)));
  }

  /** The runs in bundle order, each joined with what the tables hold for it. */
  function Rejoined(db: Tables, runs: seq<Run>): seq<Run> {
    Flat(RunRows(runs), Joining(Index(db.configurations), db.items))
  }

  lemma {:induction false} RejoinedRuns(db: Tables, runs: seq<Run>)
    requires forall i :: 0 <= i < |runs| ==> GivenBack(db, runs[i])
    ensures SameRuns(runs, Rejoined(db, runs))
    decreases |runs|
  {
    if runs != [] {
      var init, last := runs[..|runs| - 1], runs[|runs| - 1];
      assert runs == init + [last];
      RejoinedRuns(db, init);
      RejoinedAppend(db, init, last);
      SameRunsAppend(init, last, Rejoined(db, init), JoinRow(Index(db.configurations), db.items, RunRowOf(last)));
    }
  }

  lemma SameRunsAppend(a: seq<Run>, x: Run, b: seq<Run>, y: Run)
    requires SameRuns(a, b) && SameRun(x, y)
    ensures SameRuns(a + [x], b + [y])
  {
  }

  lemma RejoinedAppend(db: Tables, runs: seq<Run>, last: Run)
    requires last.configuration in Index(db.configurations)
    ensures Rejoined(db, runs + [last])
         == Rejoined(db, runs) + [JoinRow(Index(db.configurations), db.items, RunRowOf(last))]
  {
    assert RunRows(runs + [last]) == RunRows(runs) + [RunRowOf(last)];
    FlatAppend(RunRows(runs), RunRowOf(last), Joining(Index(db.configurations), db.items));
  }

  /** Storing and joining back gives the same cell for every bundle and key. */
  lemma StoredCell(db: Tables, subs: seq<Submission>, bundle: Id, key: Key)
    requires Publishable(subs) && Stores(db, subs)
    ensures
      var direct, stored := Matching(AllRuns(subs), bundle, key), Matching(StoredRuns(db), bundle, key);
      |direct| == |stored| && CellOf(LocalOf(direct)) == CellOf(LocalOf(stored))
  {
    var runs := AllRuns(subs);
    var again := Rejoined(db, runs);
    forall i | 0 <= i < |runs| ensures GivenBack(db, runs[i]) {
      JoinedRun(db, subs, i);
    }
    RejoinedRuns(db, runs);
    MatchingSameRuns(runs, again, bundle, key);
    ReorderedItems(Matching(runs, bundle, key), Matching(again, bundle, key));
    FlatPermutation(db.runs, RunRows(runs), Joining(Index(db.configurations), db.items));
    MatchingPermutation(again, StoredRuns(db), bundle, key);
    PermutedRuns(Matching(again, bundle, key), Matching(StoredRuns(db), bundle, key));
    SameSize(Matching(again, bundle, key), Matching(StoredRuns(db), bundle, key));
  }
}
