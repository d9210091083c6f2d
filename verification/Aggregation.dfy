/**
  Direct aggregation of public bundles (src/llm_hardtest/community_results.py:121-217).
 */
module Aggregation {
  import opened Numbers
  import opened Bundles
  import opened OrderFree
  import opened Dictionaries

  // ----- identities -----

  type Identities = map<Id, Identity>

  /** setdefault over the model entries: the first identity seen under an ID stays. */
  function Learn(known: Identities, models: seq<Model>): Identities {
    if models == [] then known
    else
      var before, m := Learn(known, models[..|models| - 1]), models[|models| - 1];
      if m.configuration in before then before else before[m.configuration := m.identity]
  }

  /** No entry contradicts an identity already stored under its configuration ID. */
  predicate Consistent(known: Identities, models: seq<Model>) {
    models == [] ||
    var before, m := Learn(known, models[..|models| - 1]), models[|models| - 1];
    Consistent(known, models[..|models| - 1])
    && (m.configuration in before ==> before[m.configuration] == m.identity)
  }

  ghost predicate Agrees(known: Identities, m: Model) {
    m.configuration in known && known[m.configuration] == m.identity
  }

  lemma {:induction false} LearnConcat(known: Identities, a: seq<Model>, b: seq<Model>)
    ensures Learn(known, a + b) == Learn(Learn(known, a), b)
    ensures Consistent(known, a + b) <==> Consistent(known, a) && Consistent(Learn(known, a), b)
    decreases |b|
  {
    if b == [] {
      assert a + b == a;
    } else {
      assert (a + b)[..|a + b| - 1] == a + b[..|b| - 1];
      LearnConcat(known, a, b[..|b| - 1]);
    }
  }

  /** After a consistent pass, every entry finds its own identity under its ID. */
  lemma {:induction false} LearnedAgrees(known: Identities, models: seq<Model>, i: nat)
    requires Consistent(known, models) && i < |models|
    ensures Agrees(Learn(known, models), models[i])
    decreases |models|
  {
    if i < |models| - 1 {
      LearnedAgrees(known, models[..|models| - 1], i);
    }
  }

  ghost predicate SameIdentities(models: seq<Model>) {
    forall i, j :: 0 <= i < j < |models| && models[i].configuration == models[j].configuration ==>
      models[i].identity == models[j].identity
  }

  lemma {:induction false} LearnedFrom(models: seq<Model>, id: Id)
    requires id in Learn(map[], models)
    ensures exists i :: 0 <= i < |models| && models[i].configuration == id
             && models[i].identity == Learn(map[], models)[id]
    decreases |models|
  {
    var n := |models| - 1;
    if id in Learn(map[], models[..n]) {
      LearnedFrom(models[..n], id);
      var i :| 0 <= i < n && models[..n][i].configuration == id
               && models[..n][i].identity == Learn(map[], models[..n])[id];
      assert models[i] == models[..n][i];
    } else {
      assert models[n].configuration == id;
    }
  }

  /** The running check accepts exactly the lists in which equal IDs mean equal identities. */
  lemma {:induction false} ConsistentMeansSame(models: seq<Model>)
    ensures Consistent(map[], models) <==> SameIdentities(models)
    decreases |models|
  {
    if models != [] {
      var n := |models| - 1;
      var init, last := models[..n], models[n];
      ConsistentMeansSame(init);
      if Consistent(map[], models) {
        forall i, j | 0 <= i < j < |models| && models[i].configuration == models[j].configuration
          ensures models[i].identity == models[j].identity
        {
          LearnedAgrees(map[], models, i);
          LearnedAgrees(map[], models, j);
        }
      }
      if SameIdentities(models) {
        assert SameIdentities(init);
        if last.configuration in Learn(map[], init) {
          LearnedFrom(init, last.configuration);
          var i :| 0 <= i < n && init[i].configuration == last.configuration
                   && init[i].identity == Learn(map[], init)[last.configuration];
          assert models[i] == init[i];
        }
      }
    }
  }

  // ----- one bundle -----

  type Locals = map<Key, Local>

  function LocalAt(m: Locals, key: Key): Local {
    if key in m then m[key] else EMPTY_LOCAL
  }

  function AddRun(m: Locals, run: Run): Locals {
    m[KeyOf(run) := Accumulate(LocalAt(m, KeyOf(run)), run)]
  }

  function LocalsOf(runs: seq<Run>): Locals {
    if runs == [] then map[] else AddRun(LocalsOf(runs[..|runs| - 1]), runs[|runs| - 1])
  }

  ghost predicate OneBundle(runs: seq<Run>, bundle: Id) {
    forall i :: 0 <= i < |runs| ==> runs[i].bundle == bundle
  }

  lemma AddedRun(m: Locals, run: Run, key: Key)
    ensures key in AddRun(m, run) <==> key in m || key == KeyOf(run)
    ensures LocalAt(AddRun(m, run), key)
         == if key == KeyOf(run) then Accumulate(LocalAt(m, key), run) else LocalAt(m, key)
  {
  }

  lemma MatchingLast(init: seq<Run>, last: Run, bundle: Id, key: Key)
    ensures
      var found := Matching(init, bundle, key);
      var mine := last.bundle == bundle && KeyOf(last) == key;
      && Matching(init + [last], bundle, key) == (if mine then found + [last] else found)
      && LocalOf(found + [last]) == Accumulate(LocalOf(found), last)
  {
    MatchingConcat(init, [last], bundle, key);
    MatchingOne(last, bundle, key);
    LocalAppend(Matching(init, bundle, key), last);
    assert Matching(init, bundle, key) + [] == Matching(init, bundle, key);
  }

  /** A bundle's accumulators under a key are those of its runs with that key. */
  lemma {:induction false} LocalsLookup(runs: seq<Run>, bundle: Id, key: Key)
    requires OneBundle(runs, bundle)
    ensures key in LocalsOf(runs) <==> Matching(runs, bundle, key) != []
    ensures LocalAt(LocalsOf(runs), key) == LocalOf(Matching(runs, bundle, key))
    decreases |runs|
  {
    if runs != [] {
      var init, last := runs[..|runs| - 1], runs[|runs| - 1];
      assert runs == init + [last];
      LocalsLookup(init, bundle, key);
      AddedRun(LocalsOf(init), last, key);
      MatchingLast(init, last, bundle, key);
    }
  }

  lemma MatchingOne(run: Run, bundle: Id, key: Key)
    ensures Matching([run], bundle, key) == if run.bundle == bundle && KeyOf(run) == key then [run] else []
  {
    assert [run][1..] == [];
  }

  lemma LocalAppend(runs: seq<Run>, last: Run)
    ensures LocalOf(runs + [last]) == Accumulate(LocalOf(runs), last)
  {
    assert (runs + [last])[..|runs|] == runs;
  }

  lemma LocalsAppend(runs: seq<Run>, last: Run)
    ensures LocalsOf(runs + [last]) == AddRun(LocalsOf(runs), last)
  {
    assert (runs + [last])[..|runs|] == runs;
  }

  // ----- across bundles -----

  type Groups = map<Key, Group>

  function GroupAt(m: Groups, key: Key): Group {
    if key in m then m[key] else EMPTY_GROUP
  }

  /** One bundle's accumulators join the group of their key. */
  function AddLocal(g: Option<Group>, local: Local): Group {
    AddCell(if g.Some? then g.value else EMPTY_GROUP, CellOf(local))
  }

  function Merge(groups: Groups, locals: Locals): Groups {
    FoldedIn(groups, locals, locals.Keys, AddLocal)
  }

  function MergeAll(list: seq<Locals>): Groups {
    if list == [] then map[] else Merge(MergeAll(list[..|list| - 1]), list[|list| - 1])
  }

  /** What one bundle holds for a key: one cell, or nothing. */
  function CellHere(locals: Locals, key: Key): seq<Cell> {
    if key in locals then [CellOf(locals[key])] else []
  }

  /** The cells a key has, bundle by bundle. */
  function CellsIn(list: seq<Locals>, key: Key): seq<Cell> {
    if list == [] then [] else CellsIn(list[..|list| - 1], key) + CellHere(list[|list| - 1], key)
  }

  lemma {:induction false} MergeLookup(list: seq<Locals>, key: Key)
    ensures key in MergeAll(list) <==> CellsIn(list, key) != []
    ensures GroupAt(MergeAll(list), key) == GroupOf(CellsIn(list, key))
    decreases |list|
  {
    if list != [] {
      var init, last := list[..|list| - 1], list[|list| - 1];
      MergeLookup(init, key);
      var cells := CellsIn(init, key);
      assert cells + [] == cells;
      if key in last {
        GroupAppend(cells, CellOf(last[key]));
      }
    }
  }

  lemma GroupAppend(cells: seq<Cell>, last: Cell)
    ensures GroupOf(cells + [last]) == AddCell(GroupOf(cells), last)
  {
    assert (cells + [last])[..|cells|] == cells;
  }

  // ----- the direct path -----

  datatype Row = Row(identity: Identity, stats: Stats)

  function BundleLocals(subs: seq<Submission>): (r: seq<Locals>)
    requires ValidSubmissions(subs)
    ensures |r| == |subs| && forall i :: 0 <= i < |r| ==> r[i] == LocalsOf(RunsOf(subs[i]))
  {
    seq(|subs|, i requires 0 <= i < |subs| => LocalsOf(RunsOf(subs[i])))
  }

  /** Every key's configuration has a known identity. */
  ghost predicate Known(groups: Groups, known: Identities) {
    forall k :: k in groups ==> k.configuration in known
  }

  function RowsOf(groups: Groups, known: Identities, wilson: Wilson): map<Key, Row>
    requires Known(groups, known)
  {
    map k | k in groups :: Row(known[k.configuration], StatsOf(groups[k], wilson))
  }

  lemma {:induction false} RoundRunFacts(s: Submission, ordinal: nat, m: Model, k: nat)
    requires k <= |m.rounds| && PacksCover(s.packs, m)
    ensures forall i :: 0 <= i < |RoundRuns(s, ordinal, m, k)| ==>
      var run := RoundRuns(s, ordinal, m, k)[i];
      && run.bundle == s.bundle && run.configuration == m.configuration && run.name == m.identity.name
      && run.ordinal == ordinal
  {
    if k > 0 { RoundRunFacts(s, ordinal, m, k - 1); }
  }

  ghost predicate FromModel(s: Submission, run: Run) {
    && run.bundle == s.bundle
    && 1 <= run.ordinal <= |s.models|
    && run.configuration == s.models[run.ordinal - 1].configuration
    && run.name == s.models[run.ordinal - 1].identity.name
  }

  lemma {:induction false} RunsComeFromModels(s: Submission, n: nat)
    requires ValidSubmission(s) && n <= |s.models|
    ensures forall i :: 0 <= i < |ModelRuns(s, n)| ==>
      FromModel(s, ModelRuns(s, n)[i]) && ModelRuns(s, n)[i].ordinal <= n
  {
    if n > 0 {
      RunsComeFromModels(s, n - 1);
      RoundRunFacts(s, n, s.models[n - 1], |s.models[n - 1].rounds|);
    }
  }

  lemma {:induction false} LocalKeys(runs: seq<Run>, key: Key)
    requires key in LocalsOf(runs)
    ensures exists i :: 0 <= i < |runs| && KeyOf(runs[i]) == key
    decreases |runs|
  {
    var n := |runs| - 1;
    if key != KeyOf(runs[n]) {
      LocalKeys(runs[..n], key);
      var i :| 0 <= i < n && KeyOf(runs[..n][i]) == key;
      assert runs[i] == runs[..n][i];
    }
  }

  /** Some entry has this key's configuration and name. */
  ghost predicate Configured(models: seq<Model>, key: Key) {
    exists i :: 0 <= i < |models| && models[i].configuration == key.configuration && models[i].identity.name == key.name
  }

  lemma BundleKeysConfigured(s: Submission, key: Key)
    requires ValidSubmission(s) && key in LocalsOf(RunsOf(s))
    ensures Configured(s.models, key)
  {
    LocalKeys(RunsOf(s), key);
    var i :| 0 <= i < |RunsOf(s)| && KeyOf(RunsOf(s)[i]) == key;
    RunsComeFromModels(s, |s.models|);
    assert FromModel(s, RunsOf(s)[i]);
    var entry := s.models[RunsOf(s)[i].ordinal - 1];
    assert entry.configuration == key.configuration && entry.identity.name == key.name;
  }

  lemma ConfiguredConcat(a: seq<Model>, b: seq<Model>, key: Key)
    requires Configured(a, key) || Configured(b, key)
    ensures Configured(a + b, key)
  {
    if i :| 0 <= i < |a| && a[i].configuration == key.configuration && a[i].identity.name == key.name {
      assert (a + b)[i] == a[i];
    } else {
      var j :| 0 <= j < |b| && b[j].configuration == key.configuration && b[j].identity.name == key.name;
      assert (a + b)[|a| + j] == b[j];
    }
  }

  /** A merged key came from some bundle. */
  lemma {:induction false} MergeSource(list: seq<Locals>, key: Key) returns (i: nat)
    requires key in MergeAll(list)
    ensures i < |list| && key in list[i]
    decreases |list|
  {
    var n := |list| - 1;
    if key in list[n] {
      i := n;
    } else {
      i := MergeSource(list[..n], key);
    }
  }

  lemma {:induction false} ConfiguredIn(subs: seq<Submission>, i: nat, key: Key)
    requires i < |subs| && Configured(subs[i].models, key)
    ensures Configured(AllModels(subs), key)
    decreases |subs|
  {
    var n := |subs| - 1;
    if i < n { ConfiguredIn(subs[..n], i, key); }
    ConfiguredConcat(AllModels(subs[..n]), subs[n].models, key);
  }

  /** Every aggregated key belongs to some model entry. */
  lemma DirectKeysKnown(subs: seq<Submission>, key: Key)
    requires ValidSubmissions(subs) && key in MergeAll(BundleLocals(subs))
    ensures Configured(AllModels(subs), key)
  {
    var i := MergeSource(BundleLocals(subs), key);
    BundleKeysConfigured(subs[i], key);
    ConfiguredIn(subs, i, key);
  }

  lemma DirectKnown(subs: seq<Submission>)
    requires ValidSubmissions(subs) && Consistent(map[], AllModels(subs))
    ensures Known(MergeAll(BundleLocals(subs)), Learn(map[], AllModels(subs)))
    ensures forall k :: k in MergeAll(BundleLocals(subs)) ==>
      Learn(map[], AllModels(subs))[k.configuration].name == k.name
  {
    forall k | k in MergeAll(BundleLocals(subs))
      ensures k.configuration in Learn(map[], AllModels(subs))
      ensures Learn(map[], AllModels(subs))[k.configuration].name == k.name
    {
      DirectKeysKnown(subs, k);
      var i :| 0 <= i < |AllModels(subs)| && AllModels(subs)[i].configuration == k.configuration
               && AllModels(subs)[i].identity.name == k.name;
      LearnedAgrees(map[], AllModels(subs), i);
    }
  }

  function DirectRows(subs: seq<Submission>, wilson: Wilson): map<Key, Row>
    requires ValidSubmissions(subs) && Consistent(map[], AllModels(subs))
  {
    DirectKnown(subs);
    RowsOf(MergeAll(BundleLocals(subs)), Learn(map[], AllModels(subs)), wilson)
  }

  /** A row shows the identity of its configuration, whose name is the one it is grouped under. */
  lemma RowsShowTheirIdentity(subs: seq<Submission>, wilson: Wilson, k: Key)
    requires ValidSubmissions(subs) && Consistent(map[], AllModels(subs)) && k in DirectRows(subs, wilson)
    ensures k.configuration in Learn(map[], AllModels(subs))
    ensures DirectRows(subs, wilson)[k].identity == Learn(map[], AllModels(subs))[k.configuration]
    ensures DirectRows(subs, wilson)[k].identity.name == k.name
  {
    DirectKnown(subs);
  }

  method AggregateSubmissions(subs: seq<Submission>, wilson: Wilson) returns (rows: Option<map<Key, Row>>)
    requires ValidSubmissions(subs)
    ensures rows.Some? <==> SameIdentities(AllModels(subs))
    ensures rows.Some? ==> Consistent(map[], AllModels(subs)) && rows.value == DirectRows(subs, wilson)
  {
    ConsistentMeansSame(AllModels(subs));
    var groups: Groups, known: Identities := map[], map[];
    for n := 0 to |subs|
      invariant Progress(subs, n, groups, known)
    {
      var ok, locals, next := AddBundle(subs[n], known);
      if !ok {
        BundleNext(subs, n);
        PrefixConsistent(subs, n + 1);
        return None;
      }
      ProgressNext(subs, n, groups, known, locals, next);
      groups := FoldIn(groups, locals, AddLocal);
      known := next;
    }
    assert subs[..|subs|] == subs;
    DirectKnown(subs);
    rows := Some(RowsOf(groups, known, wilson));
  }

  /** The accumulators after the first n bundles. */
  ghost predicate Progress(subs: seq<Submission>, n: nat, groups: Groups, known: Identities)
    requires ValidSubmissions(subs)
  {
    && n <= |subs|
    && groups == MergeAll(BundleLocals(subs[..n]))
    && known == Learn(map[], AllModels(subs[..n]))
    && Consistent(map[], AllModels(subs[..n]))
  }

  lemma ProgressNext(subs: seq<Submission>, n: nat, groups: Groups, known: Identities, locals: Locals, next: Identities)
    requires ValidSubmissions(subs) && n < |subs| && Progress(subs, n, groups, known)
    requires Consistent(known, subs[n].models) && next == Learn(known, subs[n].models)
    requires locals == LocalsOf(RunsOf(subs[n]))
    ensures Progress(subs, n + 1, FoldedIn(groups, locals, locals.Keys, AddLocal), next)
  {
    BundleNext(subs, n);
  }

  lemma BundleNext(subs: seq<Submission>, n: nat)
    requires ValidSubmissions(subs) && n < |subs|
    ensures
      var before, after := subs[..n], subs[..n + 1];
      && MergeAll(BundleLocals(after)) == Merge(MergeAll(BundleLocals(before)), LocalsOf(RunsOf(subs[n])))
      && Learn(map[], AllModels(after)) == Learn(Learn(map[], AllModels(before)), subs[n].models)
      && (Consistent(map[], AllModels(after)) <==>
            Consistent(map[], AllModels(before)) && Consistent(Learn(map[], AllModels(before)), subs[n].models))
  {
    assert subs[..n + 1][..n] == subs[..n];
    assert BundleLocals(subs[..n + 1])[..n] == BundleLocals(subs[..n]);
    LearnConcat(map[], AllModels(subs[..n]), subs[n].models);
  }

  lemma {:induction false} PrefixConsistent(subs: seq<Submission>, n: nat)
    requires n <= |subs| && !Consistent(map[], AllModels(subs[..n]))
    ensures !Consistent(map[], AllModels(subs))
    decreases |subs|
  {
    if n < |subs| {
      var init := subs[..|subs| - 1];
      assert init[..n] == subs[..n];
      PrefixConsistent(init, n);
      LearnConcat(map[], AllModels(init), subs[|subs| - 1].models);
    } else {
      assert subs[..n] == subs;
    }
  }

  lemma PrefixContradicts(known: Identities, models: seq<Model>, n: nat)
    requires n <= |models| && !Consistent(known, models[..n])
    ensures !Consistent(known, models)
  {
    assert models == models[..n] + models[n..];
    LearnConcat(known, models[..n], models[n..]);
  }

  /** The loops over one payload's models and rounds. */
  method AddBundle(s: Submission, known: Identities) returns (ok: bool, locals: Locals, next: Identities)
    requires ValidSubmission(s)
    ensures ok <==> Consistent(known, s.models)
    ensures ok ==> locals == LocalsOf(RunsOf(s)) && next == Learn(known, s.models)
  {
    locals, next := map[], known;
    for j := 0 to |s.models|
      invariant Consistent(known, s.models[..j]) && next == Learn(known, s.models[..j])
      invariant locals == LocalsOf(ModelRuns(s, j))
    {
      var m := s.models[j];
      LearnNext(known, s.models, j);
      if m.configuration in next && next[m.configuration] != m.identity {
        PrefixContradicts(known, s.models, j + 1);
        return false, locals, next;
      }
      if m.configuration !in next {
        next := next[m.configuration := m.identity];
      }
      locals := AddRounds(s, j, locals);
    }
    assert s.models[..|s.models|] == s.models;
    ok := true;
  }

  lemma LearnNext(known: Identities, models: seq<Model>, j: nat)
    requires j < |models|
    ensures
      var before, m := Learn(known, models[..j]), models[j];
      && Learn(known, models[..j + 1])
         == (if m.configuration in before then before else before[m.configuration := m.identity])
      && (Consistent(known, models[..j + 1]) <==>
            Consistent(known, models[..j]) && (m.configuration in before ==> before[m.configuration] == m.identity))
  {
    assert models[..j + 1][..j] == models[..j];
  }

  method AddRounds(s: Submission, j: nat, before: Locals) returns (locals: Locals)
    requires ValidSubmission(s) && j < |s.models| && before == LocalsOf(ModelRuns(s, j))
    ensures locals == LocalsOf(ModelRuns(s, j + 1))
  {
    var m := s.models[j];
    locals := before;
    ghost var done := ModelRuns(s, j);
    assert done + [] == done;
    for k := 0 to |m.rounds|
      invariant done == ModelRuns(s, j) + RoundRuns(s, j + 1, m, k)
      invariant locals == LocalsOf(done)
    {
      var run := RunOf(s, j + 1, m, m.rounds[k]);
      LocalsAppend(done, run);
      locals := AddRun(locals, run);
      AppendRight(ModelRuns(s, j), RoundRuns(s, j + 1, m, k), run);
      done := done + [run];
    }
  }

  lemma AppendRight(a: seq<Run>, b: seq<Run>, run: Run)
    ensures (a + b) + [run] == a + (b + [run])
  {
  }
}
