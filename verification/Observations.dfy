/**
  Paired observations, one per bundle, round, pack and configuration, from submissions
  (src/llm_hardtest/paired_comparison.py:24-87) and from the relational rows
  (src/llm_hardtest/community_database.py:708-770).
 */
module Observations {
  import opened Numbers
  import opened Sequences
  import opened Dictionaries
  import opened Bundles
  import opened OrderFree
  import opened Aggregation
  import opened Database
  import opened Reaggregation

  datatype ObservationKey = ObservationKey(bundle: Id, round: nat, pack: Id, configuration: Id)

  /** The tuple order sorted() uses. */
  predicate Precedes(a: ObservationKey, b: ObservationKey) {
    if a.bundle != b.bundle then a.bundle.place < b.bundle.place
    else if a.round != b.round then a.round < b.round
    else if a.pack != b.pack then a.pack.place < b.pack.place
    else a.configuration.place < b.configuration.place
  }

  function ObservationKeyOf(run: Run): ObservationKey {
    ObservationKey(run.bundle, run.round, run.pack, run.configuration)
  }

  datatype Observation = Observation(
    key: ObservationKey, identity: Identity,
    accuracy: Option<real>, completion: Option<real>, latency: Option<real>, throughput: Option<real>)

  type Units = map<ObservationKey, Local>

  function UnitAt(m: Units, key: ObservationKey): Local {
    if key in m then m[key] else EMPTY_LOCAL
  }

  function AddToUnit(m: Units, run: Run): Units {
    m[ObservationKeyOf(run) := Accumulate(UnitAt(m, ObservationKeyOf(run)), run)]
  }

  function UnitsOf(runs: seq<Run>): Units {
    if runs == [] then map[] else AddToUnit(UnitsOf(runs[..|runs| - 1]), runs[|runs| - 1])
  }

  function Mine(key: ObservationKey): Run -> seq<Run> {
    (run: Run) => if ObservationKeyOf(run) == key then [run] else []
  }

  lemma AddedToUnit(m: Units, run: Run, key: ObservationKey)
    ensures key in AddToUnit(m, run) <==> key in m || key == ObservationKeyOf(run)
    ensures UnitAt(AddToUnit(m, run), key)
         == if key == ObservationKeyOf(run) then Accumulate(UnitAt(m, key), run) else UnitAt(m, key)
  {
  }

  lemma {:induction false} UnitsLookup(runs: seq<Run>, key: ObservationKey)
    ensures key in UnitsOf(runs) <==> Flat(runs, Mine(key)) != []
    ensures UnitAt(UnitsOf(runs), key) == LocalOf(Flat(runs, Mine(key)))
    decreases |runs|
  {
    if runs != [] {
      var init, last := runs[..|runs| - 1], runs[|runs| - 1];
      UnitsLookup(init, key);
      AddedToUnit(UnitsOf(init), last, key);
      var found := Flat(init, Mine(key));
      LocalAppend(found, last);
      assert found + [] == found;
    }
  }

  // ----- the published list -----

  function ObservationAt(units: Units, known: Identities, key: ObservationKey): Observation
    requires key in units && key.configuration in known
  {
    var cell := CellOf(units[key]);
    Observation(key, known[key.configuration], cell.accuracy, cell.completion, cell.latency, cell.throughput)
  }

  ghost predicate AllKnown(units: Units, known: Identities) {
    forall k :: k in units ==> k.configuration in known
  }

  ghost predicate InOrder(list: seq<Observation>) {
    forall i, j :: 0 <= i < j < |list| ==> Precedes(list[i].key, list[j].key)
  }

  /** The list shows exactly the units, one observation each, in key order. */
  ghost predicate Listing(list: seq<Observation>, units: Units, known: Identities) {
    && AllKnown(units, known)
    && InOrder(list)
    && (forall i :: 0 <= i < |list| ==> list[i].key in units && list[i] == ObservationAt(units, known, list[i].key))
    && (forall k :: k in units ==> Lists(list, k))
  }

  ghost predicate Lists(list: seq<Observation>, key: ObservationKey) {
    exists i :: 0 <= i < |list| && list[i].key == key
  }

  lemma {:induction false} OrderDecidesList(a: seq<Observation>, b: seq<Observation>)
    requires InOrder(a) && InOrder(b) && forall x :: x in a <==> x in b
    ensures a == b
    decreases |a|
  {
    assert b == [] || b[0] in b;
    if a != [] {
      assert a[0] in a;
      FirstInOrder(a, b[0]);
      FirstInOrder(b, a[0]);
      RestInOrder(a);
      RestInOrder(b);
      OrderDecidesList(a[1..], b[1..]);
    }
  }

  lemma FirstInOrder(a: seq<Observation>, x: Observation)
    requires InOrder(a) && x in a
    ensures x == a[0] || Precedes(a[0].key, x.key)
  {
  }

  lemma RestInOrder(a: seq<Observation>)
    requires InOrder(a) && a != []
    ensures InOrder(a[1..]) && forall x :: x in a[1..] <==> x in a && x != a[0]
  {
    forall x | x in a[1..] ensures x != a[0] {
      var i :| 0 <= i < |a| - 1 && a[1..][i] == x;
      assert Precedes(a[0].key, a[i + 1].key);
    }
  }

  // ----- the two sources agree -----

  lemma {:induction false} MineSameRuns(a: seq<Run>, b: seq<Run>, key: ObservationKey)
    requires SameRuns(a, b)
    ensures SameRuns(Flat(a, Mine(key)), Flat(b, Mine(key)))
    decreases |a|
  {
    if a != [] {
      SameRunFields(a[|a| - 1], b[|b| - 1]);
      MineSameRuns(a[..|a| - 1], b[..|b| - 1], key);
    }
  }

  /** Storing and joining back gives the same unit for every key. */
  lemma StoredUnit(db: Tables, subs: seq<Submission>, key: ObservationKey)
    requires Publishable(subs) && Stores(db, subs)
    ensures
      var direct, stored := UnitsOf(AllRuns(subs)), UnitsOf(StoredRuns(db));
      (key in direct <==> key in stored) && CellOf(UnitAt(direct, key)) == CellOf(UnitAt(stored, key))
  {
    var runs := AllRuns(subs);
    var again := Rejoined(db, runs);
    forall i | 0 <= i < |runs| ensures GivenBack(db, runs[i]) {
      JoinedRun(db, subs, i);
    }
    RejoinedRuns(db, runs);
    MineSameRuns(runs, again, key);
    ReorderedItems(Flat(runs, Mine(key)), Flat(again, Mine(key)));
    FlatPermutation(db.runs, RunRows(runs), Joining(Index(db.configurations), db.items));
    FlatPermutation(again, StoredRuns(db), Mine(key));
    PermutedRuns(Flat(again, Mine(key)), Flat(StoredRuns(db), Mine(key)));
    SameSize(Flat(again, Mine(key)), Flat(StoredRuns(db), Mine(key)));
    UnitsLookup(runs, key);
    UnitsLookup(StoredRuns(db), key);
  }

  lemma {:induction false} UnitKeys(runs: seq<Run>, key: ObservationKey) returns (i: nat)
    requires key in UnitsOf(runs)
    ensures i < |runs| && ObservationKeyOf(runs[i]) == key
    decreases |runs|
  {
    var n := |runs| - 1;
    if ObservationKeyOf(runs[n]) == key {
      i := n;
    } else {
      i := UnitKeys(runs[..n], key);
    }
  }

  lemma UnitIdentity(db: Tables, subs: seq<Submission>, key: ObservationKey)
    requires Publishable(subs) && Stores(db, subs) && key in UnitsOf(AllRuns(subs))
    ensures
      var learned, indexed := Learn(map[], AllModels(subs)), DatabaseIdentities(db);
      && key.configuration in learned && key.configuration in indexed
      && learned[key.configuration] == indexed[key.configuration]
  {
    StoredModelsConsistent(db, subs);
    var i := UnitKeys(AllRuns(subs), key);
    var j := ModelOfRun(subs, i);
    LearnedAgrees(map[], AllModels(subs), j);
    ConfigurationFound(db, subs, j);
  }

  lemma SameObservation(db: Tables, subs: seq<Submission>, key: ObservationKey)
    requires Publishable(subs) && Stores(db, subs) && key in UnitsOf(AllRuns(subs))
    ensures
      var learned, indexed := Learn(map[], AllModels(subs)), DatabaseIdentities(db);
      && key in UnitsOf(StoredRuns(db)) && key.configuration in learned && key.configuration in indexed
      && ObservationAt(UnitsOf(AllRuns(subs)), learned, key) == ObservationAt(UnitsOf(StoredRuns(db)), indexed, key)
  {
    StoredUnit(db, subs, key);
    UnitIdentity(db, subs, key);
  }

  /** The observations rebuilt from stored rows are those of the submissions, as a list. */
  lemma ObservationsAgree(db: Tables, subs: seq<Submission>, direct: seq<Observation>, stored: seq<Observation>)
    requires Publishable(subs) && Stores(db, subs)
    requires Listing(direct, UnitsOf(AllRuns(subs)), Learn(map[], AllModels(subs)))
    requires Listing(stored, UnitsOf(StoredRuns(db)), DatabaseIdentities(db))
    ensures direct == stored
  {
    forall x ensures x in direct <==> x in stored {
      StoredUnit(db, subs, x.key);
      if x.key in UnitsOf(AllRuns(subs)) {
        SameObservation(db, subs, x.key);
        MemberOfListing(direct, UnitsOf(AllRuns(subs)), Learn(map[], AllModels(subs)), x);
        MemberOfListing(stored, UnitsOf(StoredRuns(db)), DatabaseIdentities(db), x);
      }
    }
    OrderDecidesList(direct, stored);
  }

  lemma MemberOfListing(list: seq<Observation>, units: Units, known: Identities, x: Observation)
    requires Listing(list, units, known) && x.key in units
    ensures x in list <==> x == ObservationAt(units, known, x.key)
  {
    assert Lists(list, x.key);
    var i :| 0 <= i < |list| && list[i].key == x.key;
    assert list[i] == ObservationAt(units, known, x.key);
  }

  // ----- building the list -----

  /** Place one observation where sorted() would. */
  function Placed(x: Observation, list: seq<Observation>): (r: seq<Observation>)
    ensures forall y :: y in r <==> y == x || y in list
  {
    if list == [] || Precedes(x.key, list[0].key) then [x] + list
    else
      assert list == [list[0]] + list[1..];
      [list[0]] + Placed(x, list[1..])
  }

  lemma InOrderCons(x: Observation, list: seq<Observation>)
    requires InOrder(list) && forall y :: y in list ==> Precedes(x.key, y.key)
    ensures InOrder([x] + list)
  {
    var all := [x] + list;
    forall i, j | 0 <= i < j < |all| ensures Precedes(all[i].key, all[j].key) {
      assert all[j] == list[j - 1] && list[j - 1] in list;
      if i > 0 { assert all[i] == list[i - 1]; }
    }
  }

  lemma {:induction false} PlacedInOrder(x: Observation, list: seq<Observation>)
    requires InOrder(list) && forall y :: y in list ==> y.key != x.key
    ensures InOrder(Placed(x, list))
    decreases |list|
  {
    if list == [] || Precedes(x.key, list[0].key) {
      forall y | y in list ensures Precedes(x.key, y.key) {
        FirstInOrder(list, y);
      }
      InOrderCons(x, list);
    } else {
      assert list[0] in list;
      RestInOrder(list);
      PlacedInOrder(x, list[1..]);
      forall y | y in Placed(x, list[1..]) ensures Precedes(list[0].key, y.key) {
        if y != x { FirstInOrder(list, y); }
      }
      InOrderCons(list[0], Placed(x, list[1..]));
    }
  }

  /** The list holds the observations of the visited keys, in order. */
  ghost predicate Partly(list: seq<Observation>, units: Units, known: Identities, done: set<ObservationKey>)
    requires AllKnown(units, known) && done <= units.Keys
  {
    InOrder(list) && forall x :: x in list <==> x.key in done && x == ObservationAt(units, known, x.key)
  }

  lemma PartlyNext(list: seq<Observation>, units: Units, known: Identities, done: set<ObservationKey>,
                   key: ObservationKey)
    requires AllKnown(units, known) && done <= units.Keys && key in units.Keys - done
    requires Partly(list, units, known, done)
    ensures Partly(Placed(ObservationAt(units, known, key), list), units, known, done + {key})
  {
    PlacedInOrder(ObservationAt(units, known, key), list);
  }

  lemma PartlyAll(list: seq<Observation>, units: Units, known: Identities)
    requires AllKnown(units, known) && Partly(list, units, known, units.Keys)
    ensures Listing(list, units, known)
  {
    forall i | 0 <= i < |list| ensures list[i].key in units && list[i] == ObservationAt(units, known, list[i].key) {
      assert list[i] in list;
    }
    forall k | k in units ensures Lists(list, k) {
      assert ObservationAt(units, known, k) in list;
    }
  }

  method ListUnits(units: Units, known: Identities) returns (list: seq<Observation>)
    requires AllKnown(units, known)
    ensures Listing(list, units, known)
  {
    list := [];
    var todo := units.Keys;
    ghost var done: set<ObservationKey> := {};
    while todo != {}
      invariant done <= units.Keys && todo == units.Keys - done
      invariant Partly(list, units, known, done)
      decreases |todo|
    {
      var key :| key in todo;
      PartlyNext(list, units, known, done, key);
      VisitNext(units.Keys, done, todo, key);
      list := Placed(ObservationAt(units, known, key), list);
      todo, done := todo - {key}, done + {key};
    }
    VisitedAll(units.Keys, done);
    PartlyAll(list, units, known);
  }

  lemma UnitsAppend(runs: seq<Run>, last: Run)
    ensures UnitsOf(runs + [last]) == AddToUnit(UnitsOf(runs), last)
  {
    assert (runs + [last])[..|runs|] == runs;
  }

  /** The rounds of one model entry. */
  method ObserveEntry(s: Submission, ordinal: nat, before: Units, ghost earlier: seq<Run>) returns (units: Units)
    requires ValidSubmission(s) && 1 <= ordinal <= |s.models| && before == UnitsOf(earlier)
    ensures units == UnitsOf(earlier + EntryRuns(s, ordinal))
  {
    var m := s.models[ordinal - 1];
    assert m in s.models;
    units := before;
    ghost var done := earlier;
    assert earlier + [] == earlier;
    for k := 0 to |m.rounds|
      invariant done == earlier + RoundRuns(s, ordinal, m, k)
      invariant units == UnitsOf(done)
    {
      var run := RunOf(s, ordinal, m, m.rounds[k]);
      UnitsAppend(done, run);
      AppendRight(earlier, RoundRuns(s, ordinal, m, k), run);
      units := AddToUnit(units, run);
      done := done + [run];
    }
  }

  lemma AppendEntry(earlier: seq<Run>, s: Submission, j: nat)
    requires ValidSubmission(s) && j < |s.models|
    ensures (earlier + ModelRuns(s, j)) + EntryRuns(s, j + 1) == earlier + ModelRuns(s, j + 1)
  {
  }

  method ObserveBundle(s: Submission, known: Identities, before: Units, ghost earlier: seq<Run>)
    returns (ok: bool, next: Identities, units: Units)
    requires ValidSubmission(s) && before == UnitsOf(earlier)
    ensures ok <==> Consistent(known, s.models)
    ensures ok ==> next == Learn(known, s.models) && units == UnitsOf(earlier + RunsOf(s))
  {
    units, next := before, known;
    assert earlier + [] == earlier;
    for j := 0 to |s.models|
      invariant Consistent(known, s.models[..j]) && next == Learn(known, s.models[..j])
      invariant units == UnitsOf(earlier + ModelRuns(s, j))
    {
      var m := s.models[j];
      LearnNext(known, s.models, j);
      if m.configuration in next && next[m.configuration] != m.identity {
        PrefixContradicts(known, s.models, j + 1);
        return false, next, units;
      }
      if m.configuration !in next {
        next := next[m.configuration := m.identity];
      }
      AppendEntry(earlier, s, j);
      units := ObserveEntry(s, j + 1, units, earlier + ModelRuns(s, j));
    }
    assert s.models[..|s.models|] == s.models;
    ok := true;
  }

  lemma DirectUnitsKnown(subs: seq<Submission>)
    requires ValidSubmissions(subs) && Consistent(map[], AllModels(subs))
    ensures AllKnown(UnitsOf(AllRuns(subs)), Learn(map[], AllModels(subs)))
  {
    forall k | k in UnitsOf(AllRuns(subs)) ensures k.configuration in Learn(map[], AllModels(subs)) {
      var i := UnitKeys(AllRuns(subs), k);
      var j := ModelOfRun(subs, i);
      LearnedAgrees(map[], AllModels(subs), j);
    }
  }

  method BundleObservations(subs: seq<Submission>) returns (list: Option<seq<Observation>>)
    requires ValidSubmissions(subs)
    ensures list.Some? <==> SameIdentities(AllModels(subs))
    ensures list.Some? ==> Listing(list.value, UnitsOf(AllRuns(subs)), Learn(map[], AllModels(subs)))
  {
    ConsistentMeansSame(AllModels(subs));
    var units: Units, known: Identities := map[], map[];
    for n := 0 to |subs|
      invariant units == UnitsOf(AllRuns(subs[..n]))
      invariant known == Learn(map[], AllModels(subs[..n])) && Consistent(map[], AllModels(subs[..n]))
    {
      BundleNext(subs, n);
      RunsNext(subs, n);
      var ok, next, more := ObserveBundle(subs[n], known, units, AllRuns(subs[..n]));
      if !ok {
        PrefixConsistent(subs, n + 1);
        return None;
      }
      units, known := more, next;
    }
    assert subs[..|subs|] == subs;
    DirectUnitsKnown(subs);
    var sorted := ListUnits(units, known);
    list := Some(sorted);
  }

  lemma RunsNext(subs: seq<Submission>, n: nat)
    requires ValidSubmissions(subs) && n < |subs|
    ensures AllRuns(subs[..n + 1]) == AllRuns(subs[..n]) + RunsOf(subs[n])
  {
    assert subs[..n + 1][..n] == subs[..n];
  }

  lemma StoredUnitsKnown(db: Tables)
    ensures AllKnown(UnitsOf(StoredRuns(db)), DatabaseIdentities(db))
  {
    forall k | k in UnitsOf(StoredRuns(db)) ensures k.configuration in DatabaseIdentities(db) {
      var i := UnitKeys(StoredRuns(db), k);
      StoredRunConfigured(db.runs, Index(db.configurations), db.items, i);
    }
  }

  lemma StoredNext(db: Tables, index: map<Id, ConfigurationRow>, n: nat, run: Run)
    requires n < |db.runs| && db.runs[n].id.configuration in index
    requires run == JoinRow(index, db.items, db.runs[n])
    ensures UnitsOf(Flat(db.runs[..n + 1], Joining(index, db.items)))
         == AddToUnit(UnitsOf(Flat(db.runs[..n], Joining(index, db.items))), run)
  {
    assert db.runs[..n + 1] == db.runs[..n] + [db.runs[n]];
    FlatAppend(db.runs[..n], db.runs[n], Joining(index, db.items));
    UnitsAppend(Flat(db.runs[..n], Joining(index, db.items)), run);
  }

  method PairedDatabaseObservations(db: Tables) returns (list: seq<Observation>)
    requires Linked(db)
    ensures Listing(list, UnitsOf(StoredRuns(db)), DatabaseIdentities(db))
  {
    var index := IndexConfigurations(db.configurations);
    var byRun := GroupItems(db.items);
    var units: Units := map[];
    for n := 0 to |db.runs|
      invariant units == UnitsOf(Flat(db.runs[..n], Joining(index, db.items)))
    {
      var row := db.runs[n];
      var run := Run(row.id.bundle, row.id.configuration, index[row.id.configuration].identity.name,
                     row.id.ordinal, row.id.round, row.id.pack,
                     row.passed, row.total, row.incomplete, row.manualReview, row.infrastructure,
                     ItemsAt(byRun, row.id));
      StoredNext(db, index, n, run);
      units := AddToUnit(units, run);
    }
    assert db.runs[..|db.runs|] == db.runs;
    var known := map id | id in index :: index[id].identity;
    assert known == DatabaseIdentities(db);
    StoredUnitsKnown(db);
    list := ListUnits(units, known);
  }
}
