/**
  Flattening validated bundles to relational rows
  (src/llm_hardtest/community_database.py:215-300).
 */
module Normalization {
  import opened Numbers
  import opened Sequences
  import opened Bundles
  import opened Database

  // ----- the order in which bundles and rounds are visited -----

  function RoundPlace(r: RoundResult): int { r.round }

  function BundlePlace(s: Submission): int { s.bundle.place }

  /** A model entry with its rounds in ascending order. */
  function InRoundOrder(m: Model): Model {
    m.(rounds := SortBy(m.rounds, RoundPlace))
  }

  function Tidied(s: Submission): (r: Submission)
    ensures |r.models| == |s.models| && forall i :: 0 <= i < |s.models| ==> r.models[i] == InRoundOrder(s.models[i])
  {
    s.(models := seq(|s.models|, i requires 0 <= i < |s.models| => InRoundOrder(s.models[i])))
  }

  function TidiedAll(subs: seq<Submission>): (r: seq<Submission>)
    ensures |r| == |subs| && forall i :: 0 <= i < |r| ==> r[i] == Tidied(subs[i])
  {
    seq(|subs|, i requires 0 <= i < |subs| => Tidied(subs[i]))
  }

  /** Bundles by ID, rounds by number. */
  function Ordered(subs: seq<Submission>): seq<Submission> {
    TidiedAll(SortBy(subs, BundlePlace))
  }

  lemma SortedMembers<T>(s: seq<T>, rank: T -> int, x: T)
    ensures x in SortBy(s, rank) <==> x in s
  {
    assert x in SortBy(s, rank) <==> x in multiset(SortBy(s, rank));
    assert x in s <==> x in multiset(s);
  }

  lemma TidiedCovers(packs: map<nat, Id>, m: Model)
    requires PacksCover(packs, m)
    ensures PacksCover(packs, InRoundOrder(m))
  {
    forall r | r in InRoundOrder(m).rounds ensures r.round in packs {
      SortedMembers(m.rounds, RoundPlace, r);
    }
  }

  lemma TidiedIsValid(s: Submission)
    requires ValidSubmission(s)
    ensures ValidSubmission(Tidied(s))
  {
    forall m | m in Tidied(s).models ensures PacksCover(s.packs, m) {
      var i :| 0 <= i < |s.models| && Tidied(s).models[i] == m;
      assert s.models[i] in s.models;
      TidiedCovers(s.packs, s.models[i]);
    }
  }

  lemma OrderedIsValid(subs: seq<Submission>)
    requires ValidSubmissions(subs)
    ensures ValidSubmissions(Ordered(subs))
  {
    var sorted := SortBy(subs, BundlePlace);
    forall i | 0 <= i < |sorted| ensures ValidSubmission(Tidied(sorted[i])) && ValidSubmission(sorted[i]) {
      SortedMembers(subs, BundlePlace, sorted[i]);
      var j :| 0 <= j < |subs| && subs[j] == sorted[i];
      TidiedIsValid(sorted[i]);
    }
  }

  // ----- visiting order does not change the rows -----

  function MakeRun(s: Submission, ordinal: nat, m: Model): RoundResult -> seq<Run> {
    (r: RoundResult) => if r.round in s.packs then [RunOf(s, ordinal, m, r)] else []
  }

  lemma {:induction false} RoundRunsAreFlat(s: Submission, ordinal: nat, m: Model, k: nat)
    requires k <= |m.rounds| && PacksCover(s.packs, m)
    ensures RoundRuns(s, ordinal, m, k) == Flat(m.rounds[..k], MakeRun(s, ordinal, m))
  {
    if k > 0 {
      RoundRunsAreFlat(s, ordinal, m, k - 1);
      assert m.rounds[..k] == m.rounds[..k - 1] + [m.rounds[k - 1]];
      FlatAppend(m.rounds[..k - 1], m.rounds[k - 1], MakeRun(s, ordinal, m));
    }
  }

  lemma WholeEntry(s: Submission, ordinal: nat, m: Model)
    requires PacksCover(s.packs, m)
    ensures RoundRuns(s, ordinal, m, |m.rounds|) == Flat(m.rounds, MakeRun(s, ordinal, m))
  {
    RoundRunsAreFlat(s, ordinal, m, |m.rounds|);
    assert m.rounds[..|m.rounds|] == m.rounds;
  }

  /** The same entry with its rounds in another order. */
  ghost predicate Reordered(m: Model, n: Model) {
    && n.configuration == m.configuration && n.identity == m.identity && n.scaffold == m.scaffold
    && multiset(n.rounds) == multiset(m.rounds)
  }

  /** The same bundle with the rounds of its entries in other orders. */
  ghost predicate Rearranged(s: Submission, t: Submission) {
    && t.bundle == s.bundle && t.packs == s.packs && |t.models| == |s.models|
    && forall i :: 0 <= i < |s.models| ==> Reordered(s.models[i], t.models[i])
  }

  lemma {:induction false} SameMaker(s: Submission, t: Submission, ordinal: nat, m: Model, n: Model,
                                     rounds: seq<RoundResult>)
    requires t.bundle == s.bundle && t.packs == s.packs && Reordered(m, n)
    ensures Flat(rounds, MakeRun(t, ordinal, n)) == Flat(rounds, MakeRun(s, ordinal, m))
    decreases |rounds|
  {
    if rounds != [] { SameMaker(s, t, ordinal, m, n, rounds[..|rounds| - 1]); }
  }

  lemma ReorderedRuns(s: Submission, t: Submission, ordinal: nat, m: Model, n: Model)
    requires t.bundle == s.bundle && t.packs == s.packs && Reordered(m, n)
    requires PacksCover(s.packs, m) && PacksCover(s.packs, n)
    ensures multiset(RoundRuns(t, ordinal, n, |n.rounds|)) == multiset(RoundRuns(s, ordinal, m, |m.rounds|))
  {
    WholeEntry(t, ordinal, n);
    WholeEntry(s, ordinal, m);
    SameMaker(s, t, ordinal, m, n, n.rounds);
    FlatPermutation(n.rounds, m.rounds, MakeRun(s, ordinal, m));
  }

  lemma RearrangedEntry(s: Submission, t: Submission, ordinal: nat)
    requires ValidSubmission(s) && ValidSubmission(t) && Rearranged(s, t) && 1 <= ordinal <= |s.models|
    ensures multiset(EntryRuns(t, ordinal)) == multiset(EntryRuns(s, ordinal))
  {
    var m, n := s.models[ordinal - 1], t.models[ordinal - 1];
    assert m in s.models && n in t.models;
    ReorderedRuns(s, t, ordinal, m, n);
  }

  lemma {:induction false} RearrangedRuns(s: Submission, t: Submission, k: nat)
    requires ValidSubmission(s) && ValidSubmission(t) && Rearranged(s, t) && k <= |s.models|
    ensures multiset(ModelRuns(t, k)) == multiset(ModelRuns(s, k))
  {
    if k > 0 {
      RearrangedRuns(s, t, k - 1);
      RearrangedEntry(s, t, k);
      MultisetConcat(ModelRuns(t, k - 1), EntryRuns(t, k), ModelRuns(s, k - 1), EntryRuns(s, k));
    }
  }

  ghost function RunsIfValid(s: Submission): seq<Run> {
    if ValidSubmission(s) then RunsOf(s) else []
  }

  lemma {:induction false} AllRunsAreFlat(subs: seq<Submission>)
    requires ValidSubmissions(subs)
    ensures AllRuns(subs) == Flat(subs, RunsIfValid)
    decreases |subs|
  {
    if subs != [] { AllRunsAreFlat(subs[..|subs| - 1]); }
  }

  lemma TidiedAllRuns(subs: seq<Submission>)
    requires ValidSubmissions(subs) && ValidSubmissions(TidiedAll(subs))
    ensures multiset(AllRuns(TidiedAll(subs))) == multiset(AllRuns(subs))
  {
    AllRunsAreFlat(subs);
    AllRunsAreFlat(TidiedAll(subs));
    forall i | 0 <= i < |subs| ensures multiset(RunsIfValid(TidiedAll(subs)[i])) == multiset(RunsIfValid(subs[i])) {
      assert TidiedAll(subs)[i] == Tidied(subs[i]);
      assert Rearranged(subs[i], Tidied(subs[i]));
      RearrangedRuns(subs[i], Tidied(subs[i]), |subs[i].models|);
    }
    FlatPointwise(TidiedAll(subs), subs, RunsIfValid);
  }

  /** Sorting bundles and rounds permutes the runs. */
  lemma OrderedRuns(subs: seq<Submission>)
    requires ValidSubmissions(subs)
    ensures ValidSubmissions(Ordered(subs))
    ensures multiset(AllRuns(Ordered(subs))) == multiset(AllRuns(subs))
  {
    OrderedIsValid(subs);
    var sorted := SortBy(subs, BundlePlace);
    forall i | 0 <= i < |sorted| ensures ValidSubmission(sorted[i]) {
      SortedMembers(subs, BundlePlace, sorted[i]);
    }
    TidiedAllRuns(sorted);
    AllRunsAreFlat(sorted);
    AllRunsAreFlat(subs);
    FlatPermutation(sorted, subs, RunsIfValid);
  }

  lemma RowsFollowRuns(a: seq<Run>, b: seq<Run>)
    requires multiset(a) == multiset(b)
    ensures multiset(RunRows(a)) == multiset(RunRows(b)) && multiset(ItemRows(a)) == multiset(ItemRows(b))
  {
    RunRowsAreFlat(a);
    RunRowsAreFlat(b);
    FlatPermutation(a, b, OneRunRow);
    FlatPermutation(a, b, ItemRowsOf);
  }

  function OneRunRow(run: Run): seq<RunRow> { [RunRowOf(run)] }

  lemma {:induction false} RunRowsAreFlat(runs: seq<Run>)
    ensures RunRows(runs) == Flat(runs, OneRunRow)
    decreases |runs|
  {
    if runs != [] {
      var n := |runs| - 1;
      RunRowsAreFlat(runs[..n]);
      assert RunRows(runs) == RunRows(runs[..n]) + [RunRowOf(runs[n])];
    }
  }

  // ----- configurations -----

  ghost predicate SameShown(a: seq<Model>, b: seq<Model>) {
    forall row :: Shown(a, row) <==> Shown(b, row)
  }

  lemma SameShownSameCollisions(a: seq<Model>, b: seq<Model>)
    requires SameShown(a, b) && SameConfigurations(a)
    ensures SameConfigurations(b)
  {
    forall x, y | x in b && y in b && x.configuration == y.configuration
      ensures ConfigurationOf(x) == ConfigurationOf(y)
    {
      assert Shown(b, ConfigurationOf(x)) && Shown(b, ConfigurationOf(y));
      var m :| m in a && ConfigurationOf(m) == ConfigurationOf(x);
      var n :| n in a && ConfigurationOf(n) == ConfigurationOf(y);
    }
  }

  lemma {:induction false} ModelsOfAll(subs: seq<Submission>, m: Model)
    ensures m in AllModels(subs) <==> exists s :: s in subs && m in s.models
    decreases |subs|
  {
    if subs != [] {
      var init, last := subs[..|subs| - 1], subs[|subs| - 1];
      assert subs == init + [last];
      ModelsOfAll(init, m);
      assert AllModels(subs) == AllModels(init) + last.models;
    }
  }

  lemma TidiedShows(s: Submission, row: ConfigurationRow)
    ensures Shown(Tidied(s).models, row) <==> Shown(s.models, row)
  {
    if Shown(s.models, row) {
      var m :| m in s.models && ConfigurationOf(m) == row;
      var i :| 0 <= i < |s.models| && s.models[i] == m;
      assert Tidied(s).models[i] in Tidied(s).models;
    }
    if Shown(Tidied(s).models, row) {
      var m :| m in Tidied(s).models && ConfigurationOf(m) == row;
      var i :| 0 <= i < |s.models| && Tidied(s).models[i] == m;
      assert s.models[i] in s.models;
    }
  }

  lemma ShownSomewhere(subs: seq<Submission>, row: ConfigurationRow)
    ensures Shown(AllModels(subs), row) <==> exists s :: s in subs && Shown(s.models, row)
  {
    if Shown(AllModels(subs), row) {
      var m :| m in AllModels(subs) && ConfigurationOf(m) == row;
      ModelsOfAll(subs, m);
      var s :| s in subs && m in s.models;
      assert Shown(s.models, row);
    }
    if s :| s in subs && Shown(s.models, row) {
      var m :| m in s.models && ConfigurationOf(m) == row;
      ModelsOfAll(subs, m);
      assert Shown(AllModels(subs), row);
    }
  }

  lemma OrderedMember(subs: seq<Submission>, s: Submission)
    requires s in subs
    ensures Tidied(s) in Ordered(subs)
  {
    SortedMembers(subs, BundlePlace, s);
    var i :| 0 <= i < |SortBy(subs, BundlePlace)| && SortBy(subs, BundlePlace)[i] == s;
    assert Ordered(subs)[i] == Tidied(s);
  }

  lemma MemberOrdered(subs: seq<Submission>, t: Submission) returns (s: Submission)
    requires t in Ordered(subs)
    ensures s in subs && t == Tidied(s)
  {
    var sorted := SortBy(subs, BundlePlace);
    var i :| 0 <= i < |sorted| && Ordered(subs)[i] == t;
    s := sorted[i];
    SortedMembers(subs, BundlePlace, s);
  }

  /** Sorting changes no configuration row. */
  lemma OrderedShows(subs: seq<Submission>)
    ensures SameShown(AllModels(Ordered(subs)), AllModels(subs))
  {
    forall row ensures Shown(AllModels(Ordered(subs)), row) <==> Shown(AllModels(subs), row) {
      ShownSomewhere(Ordered(subs), row);
      ShownSomewhere(subs, row);
      if s :| s in subs && Shown(s.models, row) {
        OrderedMember(subs, s);
        TidiedShows(s, row);
      }
      if t :| t in Ordered(subs) && Shown(t.models, row) {
        var s := MemberOrdered(subs, t);
        TidiedShows(s, row);
      }
    }
  }

  /** The configuration rows collected so far, as a list and as a dictionary. */
  ghost predicate Table(listed: seq<ConfigurationRow>, known: map<Id, ConfigurationRow>, seen: seq<Model>) {
    && DistinctConfigurations(listed)
    && (forall id :: id in known ==> known[id] in listed && known[id].configuration == id)
    && (forall row :: row in listed ==>
          row.configuration in known && known[row.configuration] == row && Shown(seen, row))
    && (forall m :: m in seen ==> ConfigurationOf(m) in listed)
  }

  lemma ShownMore(seen: seq<Model>, m: Model, row: ConfigurationRow)
    ensures Shown(seen + [m], row) <==> Shown(seen, row) || ConfigurationOf(m) == row
  {
    if Shown(seen, row) {
      var x :| x in seen && ConfigurationOf(x) == row;
      assert x in seen + [m];
    }
    assert m in seen + [m];
  }

  lemma TableKnown(listed: seq<ConfigurationRow>, known: map<Id, ConfigurationRow>, seen: seq<Model>, m: Model)
    requires Table(listed, known, seen) && m.configuration in known && known[m.configuration] == ConfigurationOf(m)
    ensures Table(listed, known, seen + [m])
  {
    forall row | row in listed ensures Shown(seen + [m], row) {
      ShownMore(seen, m, row);
    }
  }

  lemma TableNew(listed: seq<ConfigurationRow>, known: map<Id, ConfigurationRow>, seen: seq<Model>, m: Model)
    requires Table(listed, known, seen) && m.configuration !in known
    ensures Table(listed + [ConfigurationOf(m)], known[m.configuration := ConfigurationOf(m)], seen + [m])
  {
    var more := listed + [ConfigurationOf(m)];
    forall i, j | 0 <= i < j < |more| ensures more[i].configuration != more[j].configuration {
      assert listed[i] in listed;
    }
    forall row | row in more ensures Shown(seen + [m], row) {
      ShownMore(seen, m, row);
    }
  }

  lemma TableCollision(listed: seq<ConfigurationRow>, known: map<Id, ConfigurationRow>, seen: seq<Model>, m: Model,
                       later: seq<Model>)
    requires Table(listed, known, seen) && m.configuration in known && known[m.configuration] != ConfigurationOf(m)
    ensures !SameConfigurations(seen + [m] + later)
  {
    assert Shown(seen, known[m.configuration]);
    var x :| x in seen && ConfigurationOf(x) == known[m.configuration];
    assert x in seen + [m] + later && m in seen + [m] + later;
  }

  lemma TableAccepts(listed: seq<ConfigurationRow>, known: map<Id, ConfigurationRow>, seen: seq<Model>)
    requires Table(listed, known, seen)
    ensures SameConfigurations(seen)
  {
    forall a, b | a in seen && b in seen && a.configuration == b.configuration
      ensures ConfigurationOf(a) == ConfigurationOf(b)
    {
      assert ConfigurationOf(a) in listed && ConfigurationOf(b) in listed;
    }
  }

  // ----- the loops -----

  lemma RowsAppend(runs: seq<Run>, more: seq<Run>)
    ensures RunRows(runs + more) == RunRows(runs) + RunRows(more)
    ensures ItemRows(runs + more) == ItemRows(runs) + ItemRows(more)
  {
    FlatConcat(runs, more, ItemRowsOf);
  }

  /** The rows of one model entry, round by round. */
  method EntryRows(s: Submission, ordinal: nat) returns (runs: seq<RunRow>, items: seq<ItemRow>)
    requires 1 <= ordinal <= |s.models| && ValidSubmission(s)
    ensures runs == RunRows(EntryRuns(s, ordinal)) && items == ItemRows(EntryRuns(s, ordinal))
  {
    var m := s.models[ordinal - 1];
    assert m in s.models;
    runs, items := [], [];
    for k := 0 to |m.rounds|
      invariant runs == RunRows(RoundRuns(s, ordinal, m, k)) && items == ItemRows(RoundRuns(s, ordinal, m, k))
    {
      var run := RunOf(s, ordinal, m, m.rounds[k]);
      RowsAppend(RoundRuns(s, ordinal, m, k), [run]);
      FlatAppend([], run, ItemRowsOf);
      assert [] + [run] == [run];
      runs := runs + [RunRowOf(run)];
      items := items + ItemRowsOf(run);
    }
  }

  /** setdefault of one configuration row, refusing a different row under the same ID. */
  method Register(m: Model, listed: seq<ConfigurationRow>, known: map<Id, ConfigurationRow>, ghost seen: seq<Model>)
    returns (ok: bool, listed': seq<ConfigurationRow>, known': map<Id, ConfigurationRow>)
    requires Table(listed, known, seen)
    ensures ok ==> Table(listed', known', seen + [m])
    ensures !ok ==> forall later :: !SameConfigurations(seen + [m] + later)
  {
    ok, listed', known' := true, listed, known;
    if m.configuration in known {
      if known[m.configuration] != ConfigurationOf(m) {
        forall later ensures !SameConfigurations(seen + [m] + later) {
          TableCollision(listed, known, seen, m, later);
        }
        return false, listed, known;
      }
      TableKnown(listed, known, seen, m);
    } else {
      TableNew(listed, known, seen, m);
      listed', known' := listed + [ConfigurationOf(m)], known[m.configuration := ConfigurationOf(m)];
    }
  }

  /** The row tables hold exactly these runs and their items. */
  ghost predicate Holds(runs: seq<RunRow>, items: seq<ItemRow>, done: seq<Run>) {
    runs == RunRows(done) && items == ItemRows(done)
  }

  lemma HoldsMore(runs: seq<RunRow>, items: seq<ItemRow>, done: seq<Run>,
                  moreRuns: seq<RunRow>, moreItems: seq<ItemRow>, more: seq<Run>)
    requires Holds(runs, items, done) && Holds(moreRuns, moreItems, more)
    ensures Holds(runs + moreRuns, items + moreItems, done + more)
  {
    RowsAppend(done, more);
  }

  lemma PrefixNext(seen: seq<Model>, models: seq<Model>, j: nat)
    requires j < |models|
    ensures (seen + models[..j]) + [models[j]] == seen + models[..j + 1]
    ensures (seen + models[..j]) + [models[j]] + models[j + 1..] == seen + models
  {
  }

  method NormalizeBundle(s: Submission, listed: seq<ConfigurationRow>, known: map<Id, ConfigurationRow>,
                         ghost seen: seq<Model>)
    returns (ok: bool, runs: seq<RunRow>, items: seq<ItemRow>, listed': seq<ConfigurationRow>,
             known': map<Id, ConfigurationRow>)
    requires ValidSubmission(s) && Table(listed, known, seen)
    ensures ok ==> Holds(runs, items, RunsOf(s)) && Table(listed', known', seen + s.models)
    ensures !ok ==> !SameConfigurations(seen + s.models)
  {
    runs, items, listed', known' := [], [], listed, known;
    assert seen + s.models[..0] == seen;
    for j := 0 to |s.models|
      invariant Holds(runs, items, ModelRuns(s, j))
      invariant Table(listed', known', seen + s.models[..j])
    {
      PrefixNext(seen, s.models, j);
      ok, listed', known' := Register(s.models[j], listed', known', seen + s.models[..j]);
      if !ok {
        return;
      }
      var moreRuns, moreItems := EntryRows(s, j + 1);
      HoldsMore(runs, items, ModelRuns(s, j), moreRuns, moreItems, EntryRuns(s, j + 1));
      runs, items := runs + moreRuns, items + moreItems;
    }
    assert s.models[..|s.models|] == s.models;
    ok := true;
  }

  /**
    The whole pass. The three places stand for the hash order in which rows are finally
    sorted; nothing is known about them.
   */
  method NormalizeSubmissions(subs: seq<Submission>, configurationPlace: ConfigurationRow -> int,
                              runPlace: RunRow -> int, itemPlace: ItemRow -> int) returns (db: Option<Tables>)
    requires ValidSubmissions(subs)
    ensures db.Some? <==> SameConfigurations(AllModels(subs))
    ensures db.Some? ==> Stores(db.value, subs)
  {
    OrderedRuns(subs);
    OrderedShows(subs);
    var ok, runs, items, listed, known := Flatten(Ordered(subs));
    if ok {
      db := Some(Tables(SortBy(listed, configurationPlace), SortBy(runs, runPlace), SortBy(items, itemPlace)));
      RowsFollowRuns(AllRuns(Ordered(subs)), AllRuns(subs));
      StoredTable(subs, Ordered(subs), listed, known, configurationPlace);
    } else {
      if SameConfigurations(AllModels(subs)) {
        SameShownSameCollisions(AllModels(subs), AllModels(Ordered(subs)));
      }
      db := None;
    }
  }

  method Flatten(ordered: seq<Submission>)
    returns (ok: bool, runs: seq<RunRow>, items: seq<ItemRow>, listed: seq<ConfigurationRow>,
             known: map<Id, ConfigurationRow>)
    requires ValidSubmissions(ordered)
    ensures ok ==> Holds(runs, items, AllRuns(ordered)) && Table(listed, known, AllModels(ordered))
    ensures !ok ==> !SameConfigurations(AllModels(ordered))
  {
    runs, items, listed, known := [], [], [], map[];
    for n := 0 to |ordered|
      invariant Holds(runs, items, AllRuns(ordered[..n]))
      invariant Table(listed, known, AllModels(ordered[..n]))
    {
      BundleAfter(ordered, n);
      var moreRuns, moreItems;
      ok, moreRuns, moreItems, listed, known := NormalizeBundle(ordered[n], listed, known, AllModels(ordered[..n]));
      if !ok {
        RefusedEarly(ordered, n + 1);
        return;
      }
      HoldsMore(runs, items, AllRuns(ordered[..n]), moreRuns, moreItems, RunsOf(ordered[n]));
      runs, items := runs + moreRuns, items + moreItems;
    }
    assert ordered[..|ordered|] == ordered;
    ok := true;
  }

  lemma BundleAfter(subs: seq<Submission>, n: nat)
    requires ValidSubmissions(subs) && n < |subs|
    ensures AllRuns(subs[..n + 1]) == AllRuns(subs[..n]) + RunsOf(subs[n])
    ensures AllModels(subs[..n + 1]) == AllModels(subs[..n]) + subs[n].models
  {
    assert subs[..n + 1][..n] == subs[..n];
  }

  lemma {:induction false} RefusedEarly(subs: seq<Submission>, n: nat)
    requires n <= |subs| && !SameConfigurations(AllModels(subs[..n]))
    ensures !SameConfigurations(AllModels(subs))
    decreases |subs|
  {
    if n < |subs| {
      var init := subs[..|subs| - 1];
      assert init[..n] == subs[..n];
      RefusedEarly(init, n);
      assert forall m :: m in AllModels(init) ==> m in AllModels(subs);
    } else {
      assert subs[..n] == subs;
    }
  }

  lemma {:induction false} StillDistinct(listed: seq<ConfigurationRow>, place: ConfigurationRow -> int)
    requires DistinctConfigurations(listed)
    ensures DistinctConfigurations(SortBy(listed, place))
  {
    var sorted := SortBy(listed, place);
    assert NoDuplicates(listed);
    forall i, j | 0 <= i < j < |sorted| ensures sorted[i].configuration != sorted[j].configuration {
      SortedMembers(listed, place, sorted[i]);
      SortedMembers(listed, place, sorted[j]);
      CountInDistinct(listed, sorted[i]);
      if sorted[i] == sorted[j] {
        TwiceCounted(sorted, i, j);
      }
    }
  }

  lemma StoredTable(subs: seq<Submission>, ordered: seq<Submission>, listed: seq<ConfigurationRow>,
                    known: map<Id, ConfigurationRow>, place: ConfigurationRow -> int)
    requires SameShown(AllModels(ordered), AllModels(subs)) && Table(listed, known, AllModels(ordered))
    ensures SameConfigurations(AllModels(subs))
    ensures DistinctConfigurations(SortBy(listed, place))
    ensures forall i :: 0 <= i < |AllModels(subs)| ==> ConfigurationOf(AllModels(subs)[i]) in SortBy(listed, place)
    ensures forall row :: row in SortBy(listed, place) ==> Shown(AllModels(subs), row)
  {
    forall row | row in SortBy(listed, place) ensures Shown(AllModels(subs), row) {
      SortedMembers(listed, place, row);
      assert Shown(AllModels(ordered), row);
    }
    TableAccepts(listed, known, AllModels(ordered));
    SameShownSameCollisions(AllModels(ordered), AllModels(subs));
    StillDistinct(listed, place);
    forall i | 0 <= i < |AllModels(subs)| ensures ConfigurationOf(AllModels(subs)[i]) in SortBy(listed, place) {
      var row := ConfigurationOf(AllModels(subs)[i]);
      assert Shown(AllModels(subs), row);
      var m :| m in AllModels(ordered) && ConfigurationOf(m) == row;
      SortedMembers(listed, place, row);
    }
  }
}
