/**
  What following the Round 5 evidence plan achieves: when the stated attempts make a
  configuration ready, and when nothing can (src/llm_hardtest/pilot_analysis.py:803-970).
 */
module PlanOutcome {
  import opened Numbers
  import opened Sequences
  import opened PilotPlan
  import opened EvidencePlan

  // ----- histories -----

  /** The pilots whose history must be replaced by a fresh cohort. */
  function FreshPilots(c: Configuration, pilots: seq<Id>): set<Id> {
    set p | p in pilots && FirstState(c, p).status == FreshCohort
  }

  /** The attempts outside those pilots. */
  function Kept(s: seq<Attempt>, dropped: set<Id>): (r: seq<Attempt>)
    ensures forall a :: a in r <==> a in s && a.pilot !in dropped
  {
    if s == [] then []
    else
      var init, last := s[..|s| - 1], s[|s| - 1];
      assert s == init + [last];
      Kept(init, dropped) + (if last.pilot !in dropped then [last] else [])
  }

  lemma {:induction false} KeptOn(s: seq<Attempt>, dropped: set<Id>, p: Id)
    ensures OnKept(s, dropped, p)
    decreases |s|
  {
    if s == [] {
      KeptOnNone(dropped, p);
    } else {
      var init, last := s[..|s| - 1], s[|s| - 1];
      KeptOn(init, dropped, p);
      KeptOnNext(init, last, dropped, p);
      assert s == init + [last];
    }
  }

  lemma KeptOnNone(dropped: set<Id>, p: Id)
    ensures OnKept([], dropped, p)
  {
  }

  ghost predicate OnKept(s: seq<Attempt>, dropped: set<Id>, p: Id) {
    On(Kept(s, dropped), p) == if p in dropped then [] else On(s, p)
  }

  lemma KeptOnNext(init: seq<Attempt>, last: Attempt, dropped: set<Id>, p: Id)
    requires OnKept(init, dropped, p)
    ensures OnKept(init + [last], dropped, p)
  {
    KeptAppend(init, last, dropped);
    OnAppend(init, last, p);
    OnAppend(Kept(init, dropped), last, p);
    assert Kept(init, dropped) + [] == Kept(init, dropped);
  }

  lemma KeptAppend(s: seq<Attempt>, a: Attempt, dropped: set<Id>)
    ensures Kept(s + [a], dropped) == Kept(s, dropped) + (if a.pilot !in dropped then [a] else [])
  {
    assert (s + [a])[..|s|] == s;
  }

  lemma OnAppend(s: seq<Attempt>, a: Attempt, p: Id)
    ensures On(s + [a], p) == On(s, p) + (if a.pilot == p then [a] else [])
  {
    assert (s + [a])[..|s|] == s;
  }

  lemma {:induction false} OnConcat(s: seq<Attempt>, t: seq<Attempt>, p: Id)
    ensures On(s + t, p) == On(s, p) + On(t, p)
    decreases |t|
  {
    if t == [] {
      assert s + t == s;
    } else {
      var init, last := t[..|t| - 1], t[|t| - 1];
      assert s + t == (s + init) + [last];
      OnConcat(s, init, p);
      OnAppend(s + init, last, p);
    }
  }

  ghost predicate AllClean(s: seq<Attempt>) {
    forall a :: a in s ==> Clean(a)
  }

  /** One pilot after collecting clean attempts: ready exactly from the stated number on. */
  lemma PilotAfterCollecting(s: seq<Attempt>, dropped: set<Id>, extra: seq<Attempt>, p: Id)
    requires AllClean(extra) && !TwoPacks(s, p) && (p in dropped <==> Standing(s, p).status == FreshCohort)
    requires !TwoPacks(Kept(s, dropped) + extra, p)
    ensures Standing(Kept(s, dropped) + extra, p).status == Ready <==> |On(extra, p)| >= Standing(s, p).additional.value
  {
    KeptOn(s, dropped, p);
    OnConcat(Kept(s, dropped), extra, p);
    CleanConcat(if p in dropped then [] else On(s, p), On(extra, p));
    ReadyMeans(Kept(s, dropped) + extra, p);
    SettledMeans(s, p);
  }

  lemma CleanConcat(s: seq<Attempt>, t: seq<Attempt>)
    ensures AllClean(s + t) <==> AllClean(s) && AllClean(t)
  {
    assert forall a :: a in s + t <==> a in s || a in t;
  }

  lemma ReadyMeans(s: seq<Attempt>, p: Id)
    requires !TwoPacks(s, p)
    ensures Standing(s, p).status == Ready <==> AllClean(On(s, p)) && |On(s, p)| >= COMPLETE_REPEATS
  {
  }

  /** What the stated number counts: clean attempts short of the target, or all of it when starting afresh. */
  lemma SettledMeans(s: seq<Attempt>, p: Id)
    requires !TwoPacks(s, p)
    ensures Standing(s, p).status == FreshCohort <==> !AllClean(On(s, p))
    ensures Standing(s, p).additional
         == Some(if !AllClean(On(s, p)) then COMPLETE_REPEATS
                 else if |On(s, p)| < COMPLETE_REPEATS then COMPLETE_REPEATS - |On(s, p)| else 0)
  {
  }

  lemma ConflictFree(configs: seq<Configuration>, attempts: seq<seq<Attempt>>, pilots: seq<Id>, c: nat, p: Id)
    requires Portfolio(configs, attempts, pilots) && c < |configs|
    requires !Conflict(configs, p)
    ensures !TwoPacks(attempts[c], p)
  {
    FirstStateIsStanding(configs[c], attempts[c], p);
    if TwoPacks(attempts[c], p) {
      var s := attempts[c];
      var a, b :| a in s && b in s && a.pilot == p && b.pilot == p && a.pack != b.pack;
      assert a in On(s, p) && b in On(s, p);
      assert a.pack in FirstState(configs[c], p).packs && b.pack in FirstState(configs[c], p).packs;
      assert a.pack in GlobalPacks(configs, p) && b.pack in GlobalPacks(configs, p);
      MoreThanOne(GlobalPacks(configs, p));
    }
  }

  // ----- packs -----

  /** The packs the other configurations hold on a pilot. */
  function PacksElsewhere(configs: seq<Configuration>, c: nat, p: Id): set<Id> {
    set d, pack | 0 <= d < |configs| && d != c && pack in FirstState(configs[d], p).packs :: pack
  }

  function PacksOn(s: seq<Attempt>, p: Id): set<Id> {
    set a | a in On(s, p) :: a.pack
  }

  lemma StandingPacks(c: Configuration, s: seq<Attempt>, p: Id)
    requires Describes(c, s)
    ensures FirstState(c, p).packs == PacksOn(s, p)
  {
    FirstStateIsStanding(c, s, p);
  }

  /** All packs of a pilot, once one configuration has these attempts. */
  lemma PacksAfter(configs: seq<Configuration>, c: nat, next: Configuration, s: seq<Attempt>, p: Id)
    requires c < |configs| && Describes(next, s)
    ensures GlobalPacks(configs[c := next], p) == PacksElsewhere(configs, c, p) + PacksOn(s, p)
  {
    var later := configs[c := next];
    StandingPacks(next, s, p);
    forall pack ensures pack in GlobalPacks(later, p) <==> pack in PacksElsewhere(configs, c, p) + PacksOn(s, p) {
      if pack in GlobalPacks(later, p) {
        var d :| 0 <= d < |later| && pack in FirstState(later[d], p).packs;
        assert d != c ==> later[d] == configs[d];
      }
      if pack in PacksElsewhere(configs, c, p) {
        var d :| 0 <= d < |configs| && d != c && pack in FirstState(configs[d], p).packs;
        assert later[d] == configs[d];
      }
      if pack in PacksOn(s, p) { assert later[c] == next; }
    }
  }

  /** The attempts a configuration ends up with: its plan's fresh cohorts dropped, the new ones added. */
  function Collected(configs: seq<Configuration>, attempts: seq<seq<Attempt>>, pilots: seq<Id>, c: nat,
                     extra: seq<Attempt>): seq<Attempt>
    requires c < |configs| && c < |attempts|
  {
    Kept(attempts[c], FreshPilots(configs[c], pilots)) + extra
  }

  /** Together with what the other configurations hold, these attempts use one pack per pilot. */
  ghost predicate OnePackEach(configs: seq<Configuration>, c: nat, s: seq<Attempt>, pilots: seq<Id>) {
    forall p :: p in pilots ==> |PacksElsewhere(configs, c, p) + PacksOn(s, p)| <= 1
  }

  ghost predicate StatedNumbers(c: Configuration, extra: seq<Attempt>, pilots: seq<Id>) {
    forall p :: p in pilots ==> FirstState(c, p).additional.Some? && |On(extra, p)| >= FirstState(c, p).additional.value
  }

  /** For a configuration that needs no alignment: after dropping the histories marked for a fresh cohort
      and adding clean attempts, its plan is ready exactly when every pilot got its stated number and
      the attempts and the other configurations use one pack per pilot. */
  lemma CollectExactly(configs: seq<Configuration>, attempts: seq<seq<Attempt>>, pilots: seq<Id>, c: nat,
                       extra: seq<Attempt>, next: Configuration)
    requires Portfolio(configs, attempts, pilots) && c < |configs|
    requires !NeedsAlignment(FinalStates(configs, c, pilots), pilots)
    requires AllClean(extra) && OnKnownPilots(extra, pilots)
    requires Describes(next, Collected(configs, attempts, pilots, c, extra))
    ensures PlansReady(configs[c := next], c, pilots)
       <==> StatedNumbers(configs[c], extra, pilots)
            && OnePackEach(configs, c, Collected(configs, attempts, pilots, c, extra), pilots)
  {
    var after := Collected(configs, attempts, pilots, c, extra);
    var later, histories := configs[c := next], attempts[c := after];
    assert Portfolio(later, histories, pilots);
    forall p | p in pilots
      ensures FirstState(configs[c], p).additional.Some?
      ensures FinalState(later, c, p).status == Ready
         <==> && |On(extra, p)| >= FirstState(configs[c], p).additional.value
              && |PacksElsewhere(configs, c, p) + PacksOn(after, p)| <= 1
    {
      PacksAfter(configs, c, next, after, p);
      PilotCollected(configs, attempts, pilots, c, extra, later, histories, p);
    }
  }

  /** One pilot of one configuration, in any later portfolio where it has followed its plan. */
  lemma PilotCollected(configs: seq<Configuration>, attempts: seq<seq<Attempt>>, pilots: seq<Id>, c: nat,
                       extra: seq<Attempt>, later: seq<Configuration>, histories: seq<seq<Attempt>>, p: Id)
    requires Portfolio(configs, attempts, pilots) && Portfolio(later, histories, pilots)
    requires c < |configs| == |later| && p in pilots
    requires !NeedsAlignment(FinalStates(configs, c, pilots), pilots)
    requires AllClean(extra) && histories[c] == Collected(configs, attempts, pilots, c, extra)
    ensures FirstState(configs[c], p).additional.Some?
    ensures FinalState(later, c, p).status == Ready
       <==> |On(extra, p)| >= FirstState(configs[c], p).additional.value && !Conflict(later, p)
  {
    NotAmbiguous(configs, c, pilots, p);
    ReadyHasPacks(later, c, p);
    if !Conflict(later, p) {
      ConflictFree(later, histories, pilots, c, p);
      FirstStateIsStanding(configs[c], attempts[c], p);
      PilotAfterCollecting(attempts[c], FreshPilots(configs[c], pilots), extra, p);
      FirstStateIsStanding(later[c], histories[c], p);
    }
  }

  lemma NotAmbiguous(configs: seq<Configuration>, c: nat, pilots: seq<Id>, p: Id)
    requires c < |configs| && p in pilots && !NeedsAlignment(FinalStates(configs, c, pilots), pilots)
    ensures FirstState(configs[c], p).status != Ambiguous && FirstState(configs[c], p).additional.Some?
    ensures FinalState(configs, c, p) == FirstState(configs[c], p)
  {
    FirstStateShape(configs[c], p);
    assert FinalStates(configs, c, pilots)[p] == FinalState(configs, c, p);
    UnalignedIsKept(FirstState(configs[c], p), Conflict(configs, p));
  }

  lemma UnalignedIsKept(state: State, conflict: bool)
    requires KindOf(Overwritten(state, conflict).status) != AlignVersion
    ensures state.status != Ambiguous && Overwritten(state, conflict) == state
  {
  }

  lemma {:induction false} KeptSplits(s: seq<Attempt>, p: Id)
    ensures |s| == |Kept(s, {p})| + |On(s, p)|
    decreases |s|
  {
    if s != [] { KeptSplits(s[..|s| - 1], p); }
  }

  lemma {:induction false} NeededAtMost(states: States, pilots: seq<Id>, extra: seq<Attempt>)
    requires NoDuplicates(pilots) && Covers(states, pilots)
    requires forall p :: p in pilots ==> states[p].additional.Some? && states[p].additional.value <= |On(extra, p)|
    ensures Needed(states, pilots).Some? && Needed(states, pilots).value <= |extra|
    decreases |pilots|
  {
    if pilots != [] {
      var init, last := pilots[..|pilots| - 1], pilots[|pilots| - 1];
      var others := Kept(extra, {last});
      KeptSplits(extra, last);
      forall p | p in init ensures On(others, p) == On(extra, p) {
        KeptOn(extra, {last}, p);
      }
      NeededAtMost(states, init, others);
    }
  }

  /** No smaller collection than the stated total makes the configuration ready. */
  lemma StatedTotalIsLeast(configs: seq<Configuration>, attempts: seq<seq<Attempt>>, pilots: seq<Id>, c: nat,
                           extra: seq<Attempt>, next: Configuration)
    requires Portfolio(configs, attempts, pilots) && c < |configs| && NoDuplicates(pilots)
    requires !NeedsAlignment(FinalStates(configs, c, pilots), pilots)
    requires AllClean(extra) && OnKnownPilots(extra, pilots)
    requires Describes(next, Collected(configs, attempts, pilots, c, extra))
    requires PlansReady(configs[c := next], c, pilots)
    ensures
      var stated := Needed(FinalStates(configs, c, pilots), pilots);
      stated.Some? && stated.value <= |extra|
  {
    CollectExactly(configs, attempts, pilots, c, extra, next);
    var states := FinalStates(configs, c, pilots);
    forall p | p in pilots ensures states[p] == FirstState(configs[c], p) {
      NotAmbiguous(configs, c, pilots, p);
    }
    NeededAtMost(states, pilots, extra);
  }

  /** Where all packs agree and the new attempts use them, the stated numbers are exactly what it takes. */
  lemma CollectOnAgreedPacks(configs: seq<Configuration>, attempts: seq<seq<Attempt>>, pilots: seq<Id>, c: nat,
                             extra: seq<Attempt>, next: Configuration, agreed: map<Id, Id>)
    requires Portfolio(configs, attempts, pilots) && c < |configs|
    requires !NeedsAlignment(FinalStates(configs, c, pilots), pilots)
    requires AllClean(extra) && OnKnownPilots(extra, pilots)
    requires Describes(next, Collected(configs, attempts, pilots, c, extra))
    requires OnAgreedPacks(extra, agreed) && forall d: nat :: d < |attempts| ==> OnAgreedPacks(attempts[d], agreed)
    ensures PlansReady(configs[c := next], c, pilots) <==> StatedNumbers(configs[c], extra, pilots)
  {
    CollectExactly(configs, attempts, pilots, c, extra, next);
    AgreementLasts(configs, attempts, pilots, c, extra, agreed);
  }

  lemma AgreementLasts(configs: seq<Configuration>, attempts: seq<seq<Attempt>>, pilots: seq<Id>, c: nat,
                       extra: seq<Attempt>, agreed: map<Id, Id>)
    requires Portfolio(configs, attempts, pilots) && c < |configs|
    requires OnAgreedPacks(extra, agreed) && forall d: nat :: d < |attempts| ==> OnAgreedPacks(attempts[d], agreed)
    ensures OnePackEach(configs, c, Collected(configs, attempts, pilots, c, extra), pilots)
  {
    var after := Collected(configs, attempts, pilots, c, extra);
    assert OnAgreedPacks(attempts[c], agreed);
    assert OnAgreedPacks(after, agreed);
    forall p | p in pilots ensures |PacksElsewhere(configs, c, p) + PacksOn(after, p)| <= 1 {
      AgreedPacks(configs, attempts, pilots, agreed, c, after, p);
    }
  }

  ghost predicate OnAgreedPacks(s: seq<Attempt>, agreed: map<Id, Id>) {
    forall a :: a in s ==> a.pilot in agreed && agreed[a.pilot] == a.pack
  }

  lemma AgreedPacks(configs: seq<Configuration>, attempts: seq<seq<Attempt>>, pilots: seq<Id>, agreed: map<Id, Id>,
                    c: nat, s: seq<Attempt>, p: Id)
    requires Portfolio(configs, attempts, pilots) && OnAgreedPacks(s, agreed)
    requires forall d: nat :: d < |attempts| ==> OnAgreedPacks(attempts[d], agreed)
    ensures |PacksElsewhere(configs, c, p) + PacksOn(s, p)| <= 1
  {
    var packs := PacksElsewhere(configs, c, p) + PacksOn(s, p);
    forall pack | pack in packs ensures p in agreed && pack == agreed[p] {
      if pack in PacksElsewhere(configs, c, p) {
        var d :| 0 <= d < |configs| && d != c && pack in FirstState(configs[d], p).packs;
        StandingPacks(configs[d], attempts[d], p);
        assert OnAgreedPacks(attempts[d], agreed);
      }
    }
    MoreThanOne(packs);
  }

  /** Appending cannot erase invalid history: a configuration that keeps an unclean attempt is never ready. */
  lemma AppendingCannotErase(configs: seq<Configuration>, pilots: seq<Id>, c: nat, s: seq<Attempt>, bad: Attempt)
    requires c < |configs| && Describes(configs[c], s) && bad in s && bad.pilot in pilots && !Clean(bad)
    ensures !PlansReady(configs, c, pilots)
  {
    FirstStateIsStanding(configs[c], s, bad.pilot);
    assert bad in On(s, bad.pilot);
    ReadyHasPacks(configs, c, bad.pilot);
  }

  // ----- whether anything can make it ready -----

  /** Some clean collection makes the configuration ready. */
  ghost predicate Reachable(configs: seq<Configuration>, attempts: seq<seq<Attempt>>, pilots: seq<Id>, c: nat)
    requires c < |configs| && c < |attempts|
  {
    exists extra, next :: Succeeds(configs, attempts, pilots, c, extra, next)
  }

  ghost predicate Succeeds(configs: seq<Configuration>, attempts: seq<seq<Attempt>>, pilots: seq<Id>, c: nat,
                           extra: seq<Attempt>, next: Configuration)
    requires c < |configs| && c < |attempts|
  {
    && AllClean(extra) && OnKnownPilots(extra, pilots)
    && Describes(next, Collected(configs, attempts, pilots, c, extra))
    && PlansReady(configs[c := next], c, pilots)
  }

  /** Packs on which the other configurations disagree, or that one of them mixes, cannot be collected away. */
  lemma DisagreementElsewhereBlocks(configs: seq<Configuration>, attempts: seq<seq<Attempt>>, pilots: seq<Id>, c: nat,
                                    p: Id)
    requires c < |configs| == |attempts| && p in pilots && |PacksElsewhere(configs, c, p)| > 1
    ensures !Reachable(configs, attempts, pilots, c)
  {
    forall extra, next ensures !Succeeds(configs, attempts, pilots, c, extra, next) {
      if Succeeds(configs, attempts, pilots, c, extra, next) {
        var after := Collected(configs, attempts, pilots, c, extra);
        PacksAfter(configs, c, next, after, p);
        MoreThanOne(PacksElsewhere(configs, c, p));
        MoreThanOne(GlobalPacks(configs[c := next], p));
        ReadyHasPacks(configs[c := next], c, p);
      }
    }
  }

  /** A conflict on a pilot where this configuration needs no alignment lies among the others. */
  lemma ConflictIsElsewhere(configs: seq<Configuration>, pilots: seq<Id>, c: nat, p: Id)
    requires c < |configs| && p in pilots && !NeedsAlignment(FinalStates(configs, c, pilots), pilots)
    requires Conflict(configs, p)
    ensures FirstState(configs[c], p).packs == {} && PacksElsewhere(configs, c, p) == GlobalPacks(configs, p)
  {
    NotAmbiguous(configs, c, pilots, p);
    forall pack ensures pack in PacksElsewhere(configs, c, p) <==> pack in GlobalPacks(configs, p) {
      if pack in GlobalPacks(configs, p) {
        var d :| 0 <= d < |configs| && pack in FirstState(configs[d], p).packs;
        assert d != c;
      }
    }
  }

  ghost function AgreedPack(configs: seq<Configuration>, p: Id): Id {
    if GlobalPacks(configs, p) == {} then Bundles.Id(0)
    else
      var pack :| pack in GlobalPacks(configs, p);
      pack
  }

  ghost function AgreedOn(configs: seq<Configuration>, pilots: seq<Id>): map<Id, Id> {
    map p | p in pilots :: AgreedPack(configs, p)
  }

  lemma NoConflictMeansAgreed(configs: seq<Configuration>, attempts: seq<seq<Attempt>>, pilots: seq<Id>, d: nat)
    requires Portfolio(configs, attempts, pilots) && d < |configs| && forall p :: p in pilots ==> !Conflict(configs, p)
    ensures OnAgreedPacks(attempts[d], AgreedOn(configs, pilots))
  {
    forall a | a in attempts[d] ensures a.pilot in pilots && a.pack == AgreedPack(configs, a.pilot) {
      StandingPacks(configs[d], attempts[d], a.pilot);
      assert a in On(attempts[d], a.pilot);
      assert a.pack in FirstState(configs[d], a.pilot).packs;
      assert a.pack in GlobalPacks(configs, a.pilot);
      MoreThanOne(GlobalPacks(configs, a.pilot));
    }
  }

  /** n clean attempts on one pilot and pack. */
  function Repeats(p: Id, pack: Id, n: nat): (r: seq<Attempt>)
    ensures |r| == n && forall i :: 0 <= i < n ==> r[i] == Attempt(p, pack, true, true)
  {
    seq(n, _ => Attempt(p, pack, true, true))
  }

  /** The attempts a plan states, on given packs. */
  function Stated(states: States, pilots: seq<Id>, packs: map<Id, Id>): seq<Attempt>
    requires forall p :: p in pilots ==> p in states && states[p].additional.Some? && p in packs
  {
    if pilots == [] then []
    else
      var p := pilots[|pilots| - 1];
      Stated(states, pilots[..|pilots| - 1], packs) + Repeats(p, packs[p], states[p].additional.value)
  }

  lemma {:induction false} StatedAttempts(states: States, pilots: seq<Id>, packs: map<Id, Id>, all: seq<Id>)
    requires forall p :: p in pilots ==> p in states && states[p].additional.Some? && p in packs && p in all
    ensures var extra := Stated(states, pilots, packs);
      AllClean(extra) && OnKnownPilots(extra, all) && OnAgreedPacks(extra, packs)
    ensures Covers(states, pilots) && Needed(states, pilots) == Some(|Stated(states, pilots, packs)|)
    decreases |pilots|
  {
    if pilots != [] { StatedAttempts(states, pilots[..|pilots| - 1], packs, all); }
  }

  lemma {:induction false} OnRepeats(s: seq<Attempt>, p: Id)
    requires forall i :: 0 <= i < |s| ==> s[i].pilot == p
    ensures On(s, p) == s
    decreases |s|
  {
    if s != [] {
      OnRepeats(s[..|s| - 1], p);
      assert s == s[..|s| - 1] + [s[|s| - 1]];
    }
  }

  lemma {:induction false} StatedReaches(states: States, pilots: seq<Id>, packs: map<Id, Id>, p: Id)
    requires forall q :: q in pilots ==> q in states && states[q].additional.Some? && q in packs
    requires p in pilots
    ensures |On(Stated(states, pilots, packs), p)| >= states[p].additional.value
    decreases |pilots|
  {
    var init, last := pilots[..|pilots| - 1], pilots[|pilots| - 1];
    var before, repeats := Stated(states, init, packs), Repeats(last, packs[last], states[last].additional.value);
    OnAtLeast(before, repeats, p);
    assert pilots == init + [last];
    if p == last {
      OnRepeats(repeats, p);
    } else {
      StatedReaches(states, init, packs, p);
    }
  }

  lemma OnAtLeast(s: seq<Attempt>, t: seq<Attempt>, p: Id)
    ensures |On(s + t, p)| >= |On(s, p)| && |On(s + t, p)| >= |On(t, p)|
  {
    OnConcat(s, t, p);
  }

  /** Without conflicts the stated attempts on the agreed packs make the configuration ready. */
  lemma StatedIsEnough(configs: seq<Configuration>, attempts: seq<seq<Attempt>>, pilots: seq<Id>,
                       c: nat) returns (extra: seq<Attempt>, next: Configuration)
    requires Portfolio(configs, attempts, pilots) && c < |configs|
    requires !NeedsAlignment(FinalStates(configs, c, pilots), pilots) && forall p :: p in pilots ==>
      !Conflict(configs, p)
    ensures Succeeds(configs, attempts, pilots, c, extra, next)
    ensures Needed(FinalStates(configs, c, pilots), pilots) == Some(|extra|)
  {
    var states, packs := FinalStates(configs, c, pilots), AgreedOn(configs, pilots);
    forall p | p in pilots ensures states[p] == FirstState(configs[c], p) && states[p].additional.Some? {
      NotAmbiguous(configs, c, pilots, p);
    }
    extra := Stated(states, pilots, packs);
    StatedAttempts(states, pilots, packs, pilots);
    forall d: nat | d < |attempts| ensures OnAgreedPacks(attempts[d], packs) {
      NoConflictMeansAgreed(configs, attempts, pilots, d);
    }
    forall p | p in pilots ensures |On(extra, p)| >= FirstState(configs[c], p).additional.value {
      StatedReaches(states, pilots, packs, p);
    }
    next := Describable(Collected(configs, attempts, pilots, c, extra));
    CollectOnAgreedPacks(configs, attempts, pilots, c, extra, next, packs);
  }

  /** Known when the plan is issued: a configuration that needs no alignment can be made ready if and only
      if no pilot's packs conflict anywhere. */
  lemma ReachableExactly(configs: seq<Configuration>, attempts: seq<seq<Attempt>>, pilots: seq<Id>, c: nat)
    requires Portfolio(configs, attempts, pilots) && c < |configs|
    requires !NeedsAlignment(FinalStates(configs, c, pilots), pilots)
    ensures Reachable(configs, attempts, pilots, c) <==> forall p :: p in pilots ==> !Conflict(configs, p)
  {
    if forall p :: p in pilots ==> !Conflict(configs, p) {
      var extra, next := StatedIsEnough(configs, attempts, pilots, c);
    } else {
      var p :| p in pilots && Conflict(configs, p);
      ConflictIsElsewhere(configs, pilots, c, p);
      DisagreementElsewhereBlocks(configs, attempts, pilots, c, p);
    }
  }

  // ----- inputs on which the plan states a number in vain -----

  /** A configuration whose attempts are all on a pilot of its own, beside a conflict on another pilot. */
  lemma Bystander(configs: seq<Configuration>, attempts: seq<seq<Attempt>>, pilots: seq<Id>, c: nat, own: Id, p: Id)
    requires Portfolio(configs, attempts, pilots) && c < |configs| && p in pilots && p != own
    requires !TwoPacks(attempts[c], own) && forall a :: a in attempts[c] ==> a.pilot == own
    requires forall d: nat, a :: d < |attempts| && d != c && a in attempts[d] ==> a.pilot != own
    requires Conflict(configs, p)
    ensures !NeedsAlignment(FinalStates(configs, c, pilots), pilots)
    ensures FinalState(configs, c, p) == State(Missing, Some(COMPLETE_REPEATS), {})
    ensures Needed(FinalStates(configs, c, pilots), pilots).Some?
    ensures !Reachable(configs, attempts, pilots, c)
  {
    var states := FinalStates(configs, c, pilots);
    forall q | q in pilots
      ensures KindOf(states[q].status) != AlignVersion && states[q] == FirstState(configs[c], q)
      ensures states[q].additional.Some?
    {
      OwnPilotIsAligned(configs, attempts, pilots, c, own, q);
    }
    NothingOn(attempts[c], p);
    NothingHeld(configs[c], attempts[c], p);
    NeededIsKnown(states, pilots);
    ReachableExactly(configs, attempts, pilots, c);
  }

  lemma {:induction false} NothingOn(s: seq<Attempt>, p: Id)
    requires forall a :: a in s ==> a.pilot != p
    ensures On(s, p) == []
    decreases |s|
  {
    if s != [] {
      assert s == s[..|s| - 1] + [s[|s| - 1]];
      NothingOn(s[..|s| - 1], p);
    }
  }

  lemma {:induction false} NeededIsKnown(states: States, pilots: seq<Id>)
    requires Covers(states, pilots) && forall p :: p in pilots ==> states[p].additional.Some?
    ensures Needed(states, pilots).Some?
    decreases |pilots|
  {
    if pilots != [] { NeededIsKnown(states, pilots[..|pilots| - 1]); }
  }

  lemma OwnPilotIsAligned(configs: seq<Configuration>, attempts: seq<seq<Attempt>>, pilots: seq<Id>, c: nat, own: Id,
                          q: Id)
    requires Portfolio(configs, attempts, pilots) && c < |configs|
    requires !TwoPacks(attempts[c], own) && forall a :: a in attempts[c] ==> a.pilot == own
    requires forall d: nat, a :: d < |attempts| && d != c && a in attempts[d] ==> a.pilot != own
    ensures FinalState(configs, c, q) == FirstState(configs[c], q)
    ensures KindOf(FirstState(configs[c], q).status) != AlignVersion && FirstState(configs[c], q).additional.Some?
  {
    FirstStateShape(configs[c], q);
    if q != own {
      NothingOn(attempts[c], q);
      NothingHeld(configs[c], attempts[c], q);
    } else {
      OwnPacks(configs, attempts, pilots, c, own);
      NotAmbiguousOn(configs[c], attempts[c], own);
    }
  }

  lemma NothingHeld(c: Configuration, s: seq<Attempt>, p: Id)
    requires Describes(c, s) && On(s, p) == []
    ensures FirstState(c, p) == State(Missing, Some(COMPLETE_REPEATS), {})
  {
    FirstStateIsStanding(c, s, p);
    forall a | a in s ensures a.pilot != p {
      assert a !in On(s, p);
    }
  }

  lemma NotAmbiguousOn(c: Configuration, s: seq<Attempt>, p: Id)
    requires Describes(c, s) && !TwoPacks(s, p)
    ensures FirstState(c, p).status != Ambiguous
  {
    FirstStateIsStanding(c, s, p);
  }

  lemma OwnPacks(configs: seq<Configuration>, attempts: seq<seq<Attempt>>, pilots: seq<Id>, c: nat, own: Id)
    requires Portfolio(configs, attempts, pilots) && c < |configs| && !TwoPacks(attempts[c], own)
    requires forall d: nat, a :: d < |attempts| && d != c && a in attempts[d] ==> a.pilot != own
    ensures !Conflict(configs, own)
  {
    forall d: nat | d < |configs|
      ensures FirstState(configs[d], own).packs == if d == c then PacksOn(attempts[c], own) else {} {
      StandingPacks(configs[d], attempts[d], own);
      if d != c { NothingOn(attempts[d], own); }
    }
    OnePackOnly(attempts[c], own);
    MoreThanOne(GlobalPacks(configs, own));
  }

  lemma OnePackOnly(s: seq<Attempt>, p: Id)
    requires !TwoPacks(s, p)
    ensures forall x, y :: x in PacksOn(s, p) && y in PacksOn(s, p) ==> x == y
  {
  }

  lemma TwoPacksConflict(configs: seq<Configuration>, attempts: seq<seq<Attempt>>, pilots: seq<Id>, i: nat, j: nat,
                         a: Attempt, b: Attempt)
    requires Portfolio(configs, attempts, pilots) && i < |configs| && j < |configs|
    requires a in attempts[i] && b in attempts[j] && a.pilot == b.pilot && a.pack != b.pack
    ensures Conflict(configs, a.pilot)
  {
    PackIsHeld(configs, attempts, pilots, i, a);
    PackIsHeld(configs, attempts, pilots, j, b);
    MoreThanOne(GlobalPacks(configs, a.pilot));
  }

  lemma PackIsHeld(configs: seq<Configuration>, attempts: seq<seq<Attempt>>, pilots: seq<Id>, d: nat, a: Attempt)
    requires Portfolio(configs, attempts, pilots) && d < |configs| && a in attempts[d]
    ensures a.pack in GlobalPacks(configs, a.pilot)
  {
    StandingPacks(configs[d], attempts[d], a.pilot);
    assert a in On(attempts[d], a.pilot);
    assert a.pack in FirstState(configs[d], a.pilot).packs;
  }

  /** The plan states a number for this configuration, and nothing it collects makes it ready. */
  ghost predicate StatedInVain(configs: seq<Configuration>, attempts: seq<seq<Attempt>>, pilots: seq<Id>, c: nat) {
    && c < |configs| && Portfolio(configs, attempts, pilots) && (forall d: nat :: d < |attempts| ==> attempts[d] != [])
    && !NeedsAlignment(FinalStates(configs, c, pilots), pilots)
    && Needed(FinalStates(configs, c, pilots), pilots).Some?
    && !Reachable(configs, attempts, pilots, c)
  }

  lemma InVain(configs: seq<Configuration>, attempts: seq<seq<Attempt>>, pilots: seq<Id>, c: nat, own: Id, i: nat,
               j: nat, a: Attempt, b: Attempt)
    requires Portfolio(configs, attempts, pilots) && c < |configs| && i < |configs| && j < |configs|
    requires forall d: nat :: d < |attempts| ==> attempts[d] != []
    requires !TwoPacks(attempts[c], own) && forall x :: x in attempts[c] ==> x.pilot == own
    requires forall d: nat, x :: d < |attempts| && d != c && x in attempts[d] ==> x.pilot != own
    requires a in attempts[i] && b in attempts[j] && a.pilot == b.pilot && a.pack != b.pack && a.pilot in pilots
    requires a.pilot != own
    ensures StatedInVain(configs, attempts, pilots, c)
  {
    TwoPacksConflict(configs, attempts, pilots, i, j, a, b);
    Bystander(configs, attempts, pilots, c, own, a.pilot);
  }

  lemma {:induction false} DescribableAll(attempts: seq<seq<Attempt>>,
                                          pilots: seq<Id>) returns (configs: seq<Configuration>)
    requires forall d: nat :: d < |attempts| ==> OnKnownPilots(attempts[d], pilots)
    ensures Portfolio(configs, attempts, pilots)
    decreases |attempts|
  {
    configs := [];
    if attempts != [] {
      var rest := DescribableAll(attempts[..|attempts| - 1], pilots);
      var last := Describable(attempts[|attempts| - 1]);
      configs := rest + [last];
      PortfolioAppend(rest, attempts[..|attempts| - 1], last, attempts[|attempts| - 1], pilots);
      assert attempts == attempts[..|attempts| - 1] + [attempts[|attempts| - 1]];
    }
  }

  lemma PortfolioAppend(configs: seq<Configuration>, attempts: seq<seq<Attempt>>, c: Configuration, s: seq<Attempt>,
                        pilots: seq<Id>)
    requires Portfolio(configs, attempts, pilots) && Describes(c, s) && OnKnownPilots(s, pilots)
    ensures Portfolio(configs + [c], attempts + [s], pilots)
  {
  }

  lemma SameAttempts(p: Id, pack: Id, n: nat)
    ensures forall a :: a in Repeats(p, pack, n) ==> a == Attempt(p, pack, true, true)
    ensures !TwoPacks(Repeats(p, pack, n), p)
  {
  }

  /** Two configurations complete on different packs of a pilot, and a third with attempts on another pilot only. */
  function Standoff(p: Id, own: Id, one: Id, other: Id, third: Id): (r: seq<seq<Attempt>>)
    ensures |r| == 3 && r[0] == Repeats(p, one, 2) && r[1] == Repeats(p, other, 2) && r[2] == Repeats(own, third, 1)
  {
    [Repeats(p, one, 2), Repeats(p, other, 2), Repeats(own, third, 1)]
  }

  lemma CollectInVain(pilots: seq<Id>, p: Id, own: Id, one: Id, other: Id,
                      third: Id) returns (configs: seq<Configuration>)
    requires p in pilots && own in pilots && p != own && one != other
    ensures StatedInVain(configs, Standoff(p, own, one, other, third), pilots, 2)
  {
    var attempts := Standoff(p, own, one, other, third);
    SameAttempts(p, one, 2);
    SameAttempts(p, other, 2);
    SameAttempts(own, third, 1);
    configs := DescribableAll(attempts, pilots);
    InVain(configs, attempts, pilots, 2, own, 0, 1, attempts[0][0], attempts[1][0]);
  }

  /** One configuration that mixes two packs of a pilot, and a second with attempts on another pilot only. */
  function Mixture(p: Id, own: Id, one: Id, other: Id, third: Id): (r: seq<seq<Attempt>>)
    ensures |r| == 2 && r[0] == Repeats(p, one, 1) + Repeats(p, other, 1) && r[1] == Repeats(own, third, 1)
  {
    [Repeats(p, one, 1) + Repeats(p, other, 1), Repeats(own, third, 1)]
  }

  lemma CollectInVainBesideAMixture(pilots: seq<Id>, p: Id, own: Id, one: Id, other: Id,
                                    third: Id) returns (configs: seq<Configuration>)
    requires p in pilots && own in pilots && p != own && one != other
    ensures StatedInVain(configs, Mixture(p, own, one, other, third), pilots, 1)
  {
    var attempts := Mixture(p, own, one, other, third);
    SameAttempts(p, one, 1);
    SameAttempts(p, other, 1);
    SameAttempts(own, third, 1);
    configs := DescribableAll(attempts, pilots);
    InVain(configs, attempts, pilots, 1, own, 0, 0, attempts[0][0], attempts[0][1]);
  }
}
