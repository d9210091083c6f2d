/**
  The two evidence paths side by side: bundles used directly, and bundles normalised to
  relational rows and read back (docs/COMMUNITY_DATABASE.md:158-160).
 */
module BothPaths {
  import opened Numbers
  import opened Bundles
  import opened Aggregation
  import opened Database
  import opened Reaggregation
  import opened Normalization
  import opened Observations
  import opened RowLists
  import opened Scores

  /** Aggregating bundles and aggregating their stored rows gives the same rows, whatever the hash order. */
  method AggregateBothWays(subs: seq<Submission>, wilson: Wilson, configurationPlace: ConfigurationRow -> int,
                           runPlace: RunRow -> int, itemPlace: ItemRow -> int)
    returns (direct: Option<map<Key, Row>>, stored: Option<map<Key, Row>>)
    requires Publishable(subs)
    ensures direct.Some? <==> SameIdentities(AllModels(subs))
    ensures stored.Some? <==> SameIdentities(AllModels(subs)) && SameScaffolds(AllModels(subs))
    ensures direct.Some? ==> Consistent(map[], AllModels(subs)) && direct.value == DirectRows(subs, wilson)
    ensures stored.Some? ==> direct == stored
    ensures direct.Some? ==> forall key ::
      && (key in direct.value <==> Recorded(subs, key))
      && (key in direct.value ==> ShowsTotals(direct.value[key].stats, subs, key)
                                  && ShowsMeasures(direct.value[key].stats, subs, key, wilson))
  {
    direct := AggregateSubmissions(subs, wilson);
    if direct.Some? {
      forall key
        ensures key in direct.value <==> Recorded(subs, key)
        ensures key in direct.value ==> ShowsTotals(direct.value[key].stats, subs, key)
                                        && ShowsMeasures(direct.value[key].stats, subs, key, wilson)
      {
        RowsShowTheBundles(subs, wilson, key);
      }
    }
    var db := NormalizeSubmissions(subs, configurationPlace, runPlace, itemPlace);
    OnlyScaffoldsSeparateThePaths(AllModels(subs));
    stored := None;
    if db.Some? {
      StoredIsLinked(db.value, subs);
      var rows := AggregateDatabase(db.value, wilson);
      PathsAgree(db.value, subs, wilson, rows);
      stored := Some(rows);
    }
  }

  /** The published lists agree too, up to the order of rows that differ only in pack. */
  method PublishBothWays(subs: seq<Submission>, wilson: Wilson, fold: Folding,
                         configurationPlace: ConfigurationRow -> int,
                         runPlace: RunRow -> int, itemPlace: ItemRow -> int)
    returns (direct: Option<seq<Line>>, stored: Option<seq<Line>>)
    requires Publishable(subs)
    ensures direct.Some? <==> SameIdentities(AllModels(subs))
    ensures stored.Some? <==> SameIdentities(AllModels(subs)) && SameScaffolds(AllModels(subs))
    ensures direct.Some? ==>
      Consistent(map[], AllModels(subs)) && Published(direct.value, DirectRows(subs, wilson), fold)
    ensures stored.Some? ==>
      && Sorted(stored.value, fold)
      && |direct.value| == |stored.value| && multiset(direct.value) == multiset(stored.value)
      && (forall i :: 0 <= i < |direct.value| ==> SameButPack(direct.value[i].key, stored.value[i].key))
      && ((forall k, l :: k in direct.value && l in direct.value && SameButPack(k.key, l.key) ==> k == l) ==>
          direct == stored)
  {
    var rows, again := AggregateBothWays(subs, wilson, configurationPlace, runPlace, itemPlace);
    direct, stored := None, None;
    if rows.Some? {
      ConsistentMeansSame(AllModels(subs));
      var list := PublishRows(rows.value, fold);
      direct := Some(list);
      if again.Some? {
        var copy := PublishRows(again.value, fold);
        stored := Some(copy);
        SameLists(subs, wilson, rows.value, list, copy, fold);
      }
    }
  }

  lemma SameLists(subs: seq<Submission>, wilson: Wilson, rows: map<Key, Row>, a: seq<Line>, b: seq<Line>, fold: Folding)
    requires ValidSubmissions(subs) && Consistent(map[], AllModels(subs)) && rows == DirectRows(subs, wilson)
    requires Published(a, rows, fold) && Published(b, rows, fold)
    ensures |a| == |b| && multiset(a) == multiset(b)
    ensures forall i :: 0 <= i < |a| ==> SameButPack(a[i].key, b[i].key)
    ensures (forall k, l :: k in a && l in a && SameButPack(k.key, l.key) ==> k == l) ==> a == b
  {
    DirectRowsAreNamed(subs, wilson);
    PublishedAlike(a, b, rows, fold);
    OnePackLines(a, rows);
  }

  lemma OnePackLines(a: seq<Line>, rows: map<Key, Row>)
    requires Shows(a, rows)
    ensures (forall k, l :: k in a && l in a && SameButPack(k.key, l.key) ==> k == l) ==> OnePackEach(rows)
  {
    if forall k, l :: k in a && l in a && SameButPack(k.key, l.key) ==> k == l {
      forall k, l | k in rows && l in rows && SameButPack(k, l) ensures k == l {
        assert Line(k, rows[k]) in a && Line(l, rows[l]) in a;
        assert SameButPack(Line(k, rows[k]).key, Line(l, rows[l]).key);
      }
    }
  }

  /** Likewise for the paired observations, as lists. */
  method ObserveBothWays(subs: seq<Submission>, configurationPlace: ConfigurationRow -> int,
                         runPlace: RunRow -> int, itemPlace: ItemRow -> int)
    returns (direct: Option<seq<Observation>>, stored: Option<seq<Observation>>)
    requires Publishable(subs)
    ensures direct.Some? <==> SameIdentities(AllModels(subs))
    ensures stored.Some? <==> SameIdentities(AllModels(subs)) && SameScaffolds(AllModels(subs))
    ensures stored.Some? ==> direct == stored
    ensures direct.Some? ==> forall x :: x in direct.value ==> ShowsUnit(x, subs)
  {
    direct := BundleObservations(subs);
    if direct.Some? {
      ObservationsShowTheBundles(subs, Learn(map[], AllModels(subs)), direct.value);
    }
    var db := NormalizeSubmissions(subs, configurationPlace, runPlace, itemPlace);
    OnlyScaffoldsSeparateThePaths(AllModels(subs));
    stored := None;
    if db.Some? {
      StoredIsLinked(db.value, subs);
      var list := PairedDatabaseObservations(db.value);
      ObservationsAgree(db.value, subs, direct.value, list);
      stored := Some(list);
    }
  }

  // ----- the one family of inputs on which the paths differ -----

  /** One bundle that holds an entry and the same entry under another scaffold, sharing its ID. */
  function TwoScaffolds(bundle: Id, packs: map<nat, Id>, entry: Model, other: Id): seq<Submission> {
    [Submission(bundle, [entry, entry.(scaffold := other)], packs)]
  }

  lemma OneBundleModels(s: Submission)
    ensures AllModels([s]) == s.models
  {
    assert [s][..0] == [];
    assert AllModels([]) + s.models == s.models;
  }

  lemma ScaffoldsCollide(bundle: Id, packs: map<nat, Id>, entry: Model, other: Id)
    requires PacksCover(packs, entry) && DistinctRounds(entry) && entry.scaffold != other
    ensures
      var subs := TwoScaffolds(bundle, packs, entry, other);
      Publishable(subs) && SameIdentities(AllModels(subs)) && !SameScaffolds(AllModels(subs))
  {
    var again := entry.(scaffold := other);
    var s := Submission(bundle, [entry, again], packs);
    OneBundleModels(s);
    EntriesCollide(entry, again);
    OneIsPublishable(s);
  }

  lemma EntriesCollide(entry: Model, again: Model)
    requires entry.configuration == again.configuration && entry.identity == again.identity
    requires entry.scaffold != again.scaffold
    ensures SameIdentities([entry, again]) && !SameScaffolds([entry, again])
  {
    assert entry in [entry, again] && again in [entry, again];
  }

  lemma OneIsPublishable(s: Submission)
    requires forall m :: m in s.models ==> PacksCover(s.packs, m) && DistinctRounds(m)
    ensures Publishable([s])
  {
  }

  /** Direct aggregation merges the two, normalisation refuses them. */
  method CollisionSeparatesThePaths(bundle: Id, packs: map<nat, Id>, entry: Model, other: Id, wilson: Wilson)
    returns (direct: Option<map<Key, Row>>, stored: Option<Tables>)
    requires PacksCover(packs, entry) && DistinctRounds(entry) && entry.scaffold != other
    ensures direct.Some? && stored.None?
  {
    var subs := TwoScaffolds(bundle, packs, entry, other);
    ScaffoldsCollide(bundle, packs, entry, other);
    OnlyScaffoldsSeparateThePaths(AllModels(subs));
    direct := AggregateSubmissions(subs, wilson);
    stored := NormalizeSubmissions(subs, _ => 0, _ => 0, _ => 0);
  }
}
