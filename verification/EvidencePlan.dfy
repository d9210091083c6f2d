/**
  The cross-configuration part of the Round 5 evidence plan
  (src/llm_hardtest/pilot_analysis.py:855-970).
 */
module EvidencePlan {
  import opened Numbers
  import opened PilotPlan

  // ----- version alignment across configurations -----

  function GlobalPacks(configs: seq<Configuration>, p: Id): set<Id> {
    set c, pack | 0 <= c < |configs| && pack in FirstState(configs[c], p).packs :: pack
  }

  predicate Conflict(configs: seq<Configuration>, p: Id) {
    |GlobalPacks(configs, p)| > 1
  }

  function Overwritten(state: State, conflict: bool): State {
    if conflict && state.packs != {} then State(Alignment, None, state.packs) else state
  }

  function FinalState(configs: seq<Configuration>, c: nat, p: Id): State
    requires c < |configs|
  {
    Overwritten(FirstState(configs[c], p), Conflict(configs, p))
  }

  type States = map<Id, State>

  /** A configuration's states once the pilots in `done` have been aligned. */
  function StatesAfter(configs: seq<Configuration>, c: nat, pilots: seq<Id>, done: seq<Id>): States
    requires c < |configs|
  {
    map p | p in pilots :: if p in done then FinalState(configs, c, p) else FirstState(configs[c], p)
  }

  function FinalStates(configs: seq<Configuration>, c: nat, pilots: seq<Id>): (r: States)
    requires c < |configs|
    ensures r.Keys == set p | p in pilots
  {
    map p | p in pilots :: FinalState(configs, c, p)
  }

  ghost predicate Table(states: seq<States>, configs: seq<Configuration>, pilots: seq<Id>, done: seq<Id>) {
    |states| == |configs| && forall c: nat :: c < |configs| ==> states[c] == StatesAfter(configs, c, pilots, done)
  }

  method FirstStates(c: Configuration, pilots: seq<Id>) returns (states: States)
    ensures states == map p | p in pilots :: FirstState(c, p)
  {
    states := map[];
    ghost var done: seq<Id> := [];
    for n := 0 to |pilots|
      invariant done == pilots[..n]
      invariant states == map p | p in done :: FirstState(c, p)
    {
      states := states[pilots[n] := FirstState(c, pilots[n])];
      done := done + [pilots[n]];
    }
    assert done == pilots;
  }

  ghost predicate Filled(states: seq<States>, configs: seq<Configuration>, pilots: seq<Id>) {
    |states| <= |configs| && forall c: nat :: c < |states| ==> states[c] == StatesAfter(configs, c, pilots, [])
  }

  lemma FilledNext(states: seq<States>, configs: seq<Configuration>, pilots: seq<Id>, mine: States)
    requires Filled(states, configs, pilots) && |states| < |configs|
    requires mine == map p | p in pilots :: FirstState(configs[|states|], p)
    ensures Filled(states + [mine], configs, pilots)
  {
    NothingAligned(configs, |states|, pilots);
  }

  lemma NothingAligned(configs: seq<Configuration>, c: nat, pilots: seq<Id>)
    requires c < |configs|
    ensures StatesAfter(configs, c, pilots, []) == map p | p in pilots :: FirstState(configs[c], p)
  {
    var after, plain := StatesAfter(configs, c, pilots, []), map p | p in pilots :: FirstState(configs[c], p);
    forall p | p in pilots ensures after[p] == plain[p] {
    }
  }

  method FillStates(configs: seq<Configuration>, pilots: seq<Id>) returns (states: seq<States>)
    ensures Table(states, configs, pilots, [])
  {
    states := [];
    for n := 0 to |configs|
      invariant |states| == n && Filled(states, configs, pilots)
    {
      var mine := FirstStates(configs[n], pilots);
      FilledNext(states, configs, pilots, mine);
      states := states + [mine];
    }
  }

  /** The packs in the table of one pilot. */
  function HeldPacks(states: seq<States>, p: Id): set<Id>
    requires forall c :: 0 <= c < |states| ==> p in states[c]
  {
    set c, pack | 0 <= c < |states| && pack in states[c][p].packs :: pack
  }

  lemma SamePacks(states: seq<States>, configs: seq<Configuration>, pilots: seq<Id>, done: seq<Id>, p: Id)
    requires Table(states, configs, pilots, done) && p in pilots
    ensures forall c: nat :: c < |configs| ==> p in states[c]
    ensures HeldPacks(states, p) == GlobalPacks(configs, p)
  {
    forall c: nat | c < |configs| ensures p in states[c] && states[c][p].packs == FirstState(configs[c], p).packs {
      assert states[c] == StatesAfter(configs, c, pilots, done);
    }
    var held := HeldPacks(states, p);
    forall pack ensures pack in held <==> pack in GlobalPacks(configs, p) {
      if pack in held {
        var c :| 0 <= c < |states| && pack in states[c][p].packs;
        assert pack in FirstState(configs[c], p).packs;
      }
      if pack in GlobalPacks(configs, p) {
        var c :| 0 <= c < |configs| && pack in FirstState(configs[c], p).packs;
        assert pack in states[c][p].packs;
      }
    }
  }

  method PacksHeld(states: seq<States>, p: Id) returns (packs: set<Id>)
    requires forall c :: 0 <= c < |states| ==> p in states[c]
    ensures packs == HeldPacks(states, p)
  {
    packs := {};
    for n := 0 to |states|
      invariant packs == set c, pack | 0 <= c < n && pack in states[c][p].packs :: pack
    {
      packs := packs + states[n][p].packs;
    }
  }

  /** Overwrite the states of one pilot where its packs conflict. */
  method AlignPilot(before: seq<States>, p: Id, conflict: bool) returns (states: seq<States>)
    requires forall c :: 0 <= c < |before| ==> p in before[c]
    ensures |states| == |before|
    ensures forall c :: 0 <= c < |before| ==> states[c] == before[c][p := Overwritten(before[c][p], conflict)]
  {
    states := before;
    if !conflict {
      assert forall c :: 0 <= c < |before| ==> before[c] == before[c][p := Overwritten(before[c][p], conflict)];
      return;
    }
    for c := 0 to |before|
      invariant |states| == |before|
      invariant forall d :: 0 <= d < c ==> states[d] == before[d][p := Overwritten(before[d][p], conflict)]
      invariant forall d :: c <= d < |before| ==> states[d] == before[d]
    {
      if states[c][p].packs != {} {
        states := states[c := states[c][p := State(Alignment, None, states[c][p].packs)]];
      } else {
        assert before[c] == before[c][p := Overwritten(before[c][p], conflict)];
      }
    }
  }

  lemma AlignedOnce(before: seq<States>, states: seq<States>, configs: seq<Configuration>, pilots: seq<Id>,
                    done: seq<Id>, p: Id)
    requires Table(before, configs, pilots, done) && p in pilots && |states| == |before|
    requires forall c :: 0 <= c < |before| ==>
      states[c] == before[c][p := Overwritten(before[c][p], Conflict(configs, p))]
    ensures Table(states, configs, pilots, done + [p])
  {
  }

  method AlignStates(configs: seq<Configuration>, pilots: seq<Id>) returns (states: seq<States>)
    ensures Table(states, configs, pilots, pilots)
  {
    states := FillStates(configs, pilots);
    ghost var done: seq<Id> := [];
    for n := 0 to |pilots|
      invariant done == pilots[..n]
      invariant Table(states, configs, pilots, done)
    {
      var p := pilots[n];
      SamePacks(states, configs, pilots, done, p);
      var packs := PacksHeld(states, p);
      var next := AlignPilot(states, p, |packs| > 1);
      AlignedOnce(states, next, configs, pilots, done, p);
      states, done := next, done + [p];
    }
    assert done == pilots;
  }

  // ----- one plan per configuration -----

  datatype Kind = AlignVersion | CollectMissing | RecollectCohort | CollectRepeat

  datatype Action = Action(pilot: Id, kind: Kind, additional: Option<nat>, packs: set<Id>)

  datatype PlanStatus = PlanReady | AlignmentRequired | CollectionNeeded

  datatype Plan = Plan(status: PlanStatus, additional: Option<nat>, actions: seq<Action>)

  function KindOf(status: Status): Kind {
    match status
    case Ambiguous => AlignVersion
    case Alignment => AlignVersion
    case Missing => CollectMissing
    case FreshCohort => RecollectCohort
    case _ => CollectRepeat
  }

  function Plus(a: Option<nat>, b: Option<nat>): Option<nat> {
    if a.None? || b.None? then None else Some(a.value + b.value)
  }

  ghost predicate Covers(states: States, pilots: seq<Id>) {
    forall p :: p in pilots ==> p in states
  }

  /** The attempts still needed over these pilots. */
  ghost function Needed(states: States, pilots: seq<Id>): Option<nat>
    requires Covers(states, pilots)
  {
    if pilots == [] then Some(0)
    else Plus(Needed(states, pilots[..|pilots| - 1]), states[pilots[|pilots| - 1]].additional)
  }

  ghost predicate AllReady(states: States, pilots: seq<Id>)
    requires Covers(states, pilots)
  {
    forall p :: p in pilots ==> states[p].status == Ready
  }

  ghost predicate NeedsAlignment(states: States, pilots: seq<Id>)
    requires Covers(states, pilots)
  {
    exists p :: p in pilots && KindOf(states[p].status) == AlignVersion
  }

  function ActionOf(p: Id, state: State): Action {
    Action(p, KindOf(state.status), state.additional, state.packs)
  }

  /** Exactly the pilots that are not ready have an action, the one their state calls for. */
  ghost predicate ActionsFor(actions: seq<Action>, states: States, pilots: seq<Id>)
    requires Covers(states, pilots)
  {
    forall x :: x in actions <==>
      x.pilot in pilots && states[x.pilot].status != Ready && x == ActionOf(x.pilot, states[x.pilot])
  }

  ghost predicate PlanFor(plan: Plan, states: States, pilots: seq<Id>)
    requires Covers(states, pilots)
  {
    && (plan.status == PlanReady <==> AllReady(states, pilots))
    && (plan.status == AlignmentRequired <==> NeedsAlignment(states, pilots))
    && plan.additional == Needed(states, pilots)
    && ActionsFor(plan.actions, states, pilots)
  }

  /** A ready state asks for nothing. */
  ghost predicate Sound(states: States) {
    forall p :: p in states && states[p].status == Ready ==> states[p].additional == Some(0)
  }

  /** The plan of one configuration, as one scan over its states. */
  method PlanConfiguration(states: States, pilots: seq<Id>) returns (plan: Plan)
    requires Covers(states, pilots) && Sound(states)
    ensures PlanFor(plan, states, pilots)
  {
    var actions: seq<Action> := [];
    var alignment, total := false, Some(0);
    ghost var done: seq<Id> := [];
    for n := 0 to |pilots|
      invariant done == pilots[..n]
      invariant Scanned(states, done, alignment, total, actions)
    {
      var p := pilots[n];
      var state := states[p];
      ScanNext(states, done, p, alignment, total, actions);
      if state.status != Ready {
        actions := actions + [ActionOf(p, state)];
        alignment := alignment || KindOf(state.status) == AlignVersion;
        total := Plus(total, state.additional);
      }
      done := done + [p];
    }
    assert done == pilots;
    ScannedAll(states, pilots, alignment, total, actions);
    plan := Plan(if actions == [] then PlanReady else if alignment then AlignmentRequired else CollectionNeeded,
                 total, actions);
  }

  /** What the scan knows after these pilots. */
  ghost predicate Scanned(states: States, done: seq<Id>, alignment: bool, total: Option<nat>, actions: seq<Action>) {
    && Covers(states, done)
    && (alignment <==> NeedsAlignment(states, done))
    && total == Needed(states, done)
    && ActionsFor(actions, states, done)
  }

  lemma ScanNext(states: States, done: seq<Id>, p: Id, alignment: bool, total: Option<nat>, actions: seq<Action>)
    requires p in states && Sound(states) && Scanned(states, done, alignment, total, actions)
    ensures states[p].status == Ready ==> Scanned(states, done + [p], alignment, total, actions)
    ensures states[p].status != Ready ==>
      Scanned(states, done + [p], alignment || KindOf(states[p].status) == AlignVersion,
              Plus(total, states[p].additional), actions + [ActionOf(p, states[p])])
  {
    AlignmentNext(states, done, p);
    NeededNext(states, done, p);
    ActionsNext(states, done, p, actions);
  }

  lemma AlignmentNext(states: States, done: seq<Id>, p: Id)
    requires Covers(states, done) && p in states
    ensures Covers(states, done + [p])
    ensures NeedsAlignment(states, done + [p])
       <==> NeedsAlignment(states, done) || KindOf(states[p].status) == AlignVersion
  {
    assert p in done + [p];
    if NeedsAlignment(states, done) {
      var q :| q in done && KindOf(states[q].status) == AlignVersion;
      assert q in done + [p];
    }
  }

  lemma NeededNext(states: States, done: seq<Id>, p: Id)
    requires Covers(states, done) && Covers(states, done + [p]) && p in states && Sound(states)
    ensures Needed(states, done + [p]) == Plus(Needed(states, done), states[p].additional)
    ensures states[p].status == Ready ==> Needed(states, done + [p]) == Needed(states, done)
  {
    assert (done + [p])[..|done|] == done;
  }

  lemma ActionsNext(states: States, done: seq<Id>, p: Id, actions: seq<Action>)
    requires Covers(states, done) && Covers(states, done + [p]) && p in states && ActionsFor(actions, states, done)
    ensures ActionsFor(if states[p].status == Ready then actions else actions + [ActionOf(p, states[p])],
                       states, done + [p])
  {
  }

  lemma ScannedAll(states: States, pilots: seq<Id>, alignment: bool, total: Option<nat>, actions: seq<Action>)
    requires Scanned(states, pilots, alignment, total, actions)
    ensures Covers(states, pilots)
    ensures PlanFor(Plan(if actions == [] then PlanReady else if alignment then AlignmentRequired else CollectionNeeded,
                         total, actions),
                    states, pilots)
  {
    NoActionsMeansReady(actions, states, pilots);
  }

  lemma NoActionsMeansReady(actions: seq<Action>, states: States, pilots: seq<Id>)
    requires Covers(states, pilots) && ActionsFor(actions, states, pilots)
    ensures actions == [] <==> AllReady(states, pilots)
  {
    if actions == [] {
      forall p | p in pilots ensures states[p].status == Ready {
        assert ActionOf(p, states[p]) !in actions;
      }
    } else {
      assert actions[0] in actions;
    }
  }

  method PlanAll(states: seq<States>, pilots: seq<Id>) returns (plans: seq<Plan>)
    requires forall c :: 0 <= c < |states| ==> Covers(states[c], pilots) && Sound(states[c])
    ensures |plans| == |states|
    ensures forall c :: 0 <= c < |states| ==> PlanFor(plans[c], states[c], pilots)
  {
    plans := [];
    for n := 0 to |states|
      invariant |plans| == n
      invariant forall c :: 0 <= c < n ==> PlanFor(plans[c], states[c], pilots)
    {
      var plan := PlanConfiguration(states[n], pilots);
      plans := plans + [plan];
    }
  }

  method BuildPlans(configs: seq<Configuration>, pilots: seq<Id>) returns (plans: seq<Plan>)
    ensures |plans| == |configs|
    ensures forall c: nat :: c < |configs| ==> PlanFor(plans[c], FinalStates(configs, c, pilots), pilots)
  {
    var states := AlignStates(configs, pilots);
    forall c: nat | c < |configs|
      ensures states[c] == FinalStates(configs, c, pilots) && Covers(states[c], pilots) && Sound(states[c])
    {
      AlignedStates(states, configs, pilots, c);
    }
    plans := PlanAll(states, pilots);
  }

  lemma AlignedStates(states: seq<States>, configs: seq<Configuration>, pilots: seq<Id>, c: nat)
    requires Table(states, configs, pilots, pilots) && c < |configs|
    ensures states[c] == FinalStates(configs, c, pilots) && Covers(states[c], pilots) && Sound(states[c])
  {
    assert states[c] == StatesAfter(configs, c, pilots, pilots);
  }

  ghost predicate PlansReady(configs: seq<Configuration>, c: nat, pilots: seq<Id>)
    requires c < |configs|
  {
    AllReady(FinalStates(configs, c, pilots), pilots)
  }

  // ----- ready means gated and aligned -----

  /** Configurations as the portfolio reports them for their attempts. */
  ghost predicate Portfolio(configs: seq<Configuration>, attempts: seq<seq<Attempt>>, pilots: seq<Id>) {
    && |configs| == |attempts|
    && forall c: nat :: c < |configs| ==> Describes(configs[c], attempts[c]) && OnKnownPilots(attempts[c], pilots)
  }

  /** A pilot needs cross-configuration alignment for a configuration that has packs on it. */
  ghost predicate Misaligned(configs: seq<Configuration>, c: nat, p: Id)
    requires c < |configs|
  {
    Conflict(configs, p) && FirstState(configs[c], p).packs != {}
  }

  /** A plan is ready exactly when every coverage gate holds and no pilot needs alignment. */
  lemma PlanReadyExactly(configs: seq<Configuration>, attempts: seq<seq<Attempt>>, pilots: seq<Id>, c: nat)
    requires Portfolio(configs, attempts, pilots) && c < |configs|
    ensures PlansReady(configs, c, pilots)
       <==> AllHold(GatesOf(configs[c], attempts[c], pilots)) && forall p :: p in pilots ==> !Misaligned(configs, c, p)
  {
    GatesMeanAllReady(configs[c], attempts[c], pilots);
    if PlansReady(configs, c, pilots) {
      forall p | p in pilots ensures FirstState(configs[c], p).status == Ready && !Misaligned(configs, c, p) {
        assert FinalState(configs, c, p).status == Ready;
      }
    }
  }

  lemma ReadyHasPacks(configs: seq<Configuration>, c: nat, p: Id)
    requires c < |configs|
    ensures FinalState(configs, c, p).status == Ready
       <==> FirstState(configs[c], p).status == Ready && !Conflict(configs, p)
  {
    if FirstState(configs[c], p).status == Ready {
      assert RowsFor(configs[c].rows, p)[0].scenario.pack in FirstState(configs[c], p).packs;
    }
  }
}
