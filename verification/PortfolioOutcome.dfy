/**
  The total the Round 5 plan states for the whole portfolio, and what collecting it achieves
  (src/llm_hardtest/pilot_analysis.py:972-987).
 */
module PortfolioOutcome {
  import opened Numbers
  import opened Sequences
  import opened PilotPlan
  import opened EvidencePlan
  import opened PlanOutcome

  // ----- the summary of the plans -----

  datatype Summary = Summary(ready: nat, manual: nat, total: Option<nat>)

  function ReadyPlans(plans: seq<Plan>): nat {
    if plans == [] then 0
    else ReadyPlans(plans[..|plans| - 1]) + (if plans[|plans| - 1].status == PlanReady then 1 else 0)
  }

  function ManualPlans(plans: seq<Plan>): nat {
    if plans == [] then 0
    else ManualPlans(plans[..|plans| - 1]) + (if plans[|plans| - 1].status == AlignmentRequired then 1 else 0)
  }

  /** The numbers that are known, added up. */
  function KnownTotal(plans: seq<Plan>): nat {
    if plans == [] then 0
    else
      var last := plans[|plans| - 1].additional;
      KnownTotal(plans[..|plans| - 1]) + (if last.Some? then last.value else 0)
  }

  lemma CountNext(done: seq<Plan>, plan: Plan)
    ensures ReadyPlans(done + [plan]) == ReadyPlans(done) + (if plan.status == PlanReady then 1 else 0)
    ensures ManualPlans(done + [plan]) == ManualPlans(done) + (if plan.status == AlignmentRequired then 1 else 0)
    ensures KnownTotal(done + [plan]) == KnownTotal(done) + (if plan.additional.Some? then plan.additional.value else 0)
  {
    assert (done + [plan])[..|done|] == done;
  }

  method SummarisePlans(plans: seq<Plan>) returns (summary: Summary)
    ensures summary.ready == ReadyPlans(plans) && summary.manual == ManualPlans(plans)
    ensures summary.total == if summary.manual > 0 then None else Some(KnownTotal(plans))
  {
    var ready, manual, finite := 0, 0, 0;
    ghost var done: seq<Plan> := [];
    for n := 0 to |plans|
      invariant done == plans[..n]
      invariant ready == ReadyPlans(done) && manual == ManualPlans(done) && finite == KnownTotal(done)
    {
      var plan := plans[n];
      CountNext(done, plan);
      ready := ready + (if plan.status == PlanReady then 1 else 0);
      manual := manual + (if plan.status == AlignmentRequired then 1 else 0);
      finite := finite + (if plan.additional.Some? then plan.additional.value else 0);
      done := done + [plan];
    }
    assert done == plans;
    summary := Summary(ready, manual, if manual > 0 then None else Some(finite));
  }

  // ----- when the total is stated -----

  ghost predicate NoneNeedsAlignment(configs: seq<Configuration>, pilots: seq<Id>) {
    forall c: nat :: c < |configs| ==> !NeedsAlignment(FinalStates(configs, c, pilots), pilots)
  }

  /** The plans BuildPlans makes for a portfolio. */
  ghost predicate PlansFor(plans: seq<Plan>, configs: seq<Configuration>, pilots: seq<Id>) {
    |plans| == |configs| && forall c: nat :: c < |configs| ==>
      PlanFor(plans[c], FinalStates(configs, c, pilots), pilots)
  }

  lemma {:induction false} ManualMeans(plans: seq<Plan>)
    ensures ManualPlans(plans) == 0 <==> forall c :: 0 <= c < |plans| ==> plans[c].status != AlignmentRequired
    decreases |plans|
  {
    if plans != [] { ManualMeans(plans[..|plans| - 1]); }
  }

  /** No plan needs alignment exactly when no pilot's packs conflict. */
  lemma AlignedExactly(configs: seq<Configuration>, attempts: seq<seq<Attempt>>, pilots: seq<Id>)
    requires Portfolio(configs, attempts, pilots)
    ensures NoneNeedsAlignment(configs, pilots) <==> forall p :: p in pilots ==> !Conflict(configs, p)
  {
    if NoneNeedsAlignment(configs, pilots) {
      forall p | p in pilots ensures !Conflict(configs, p) {
        AlignedPilot(configs, pilots, p);
      }
    }
    if forall p :: p in pilots ==> !Conflict(configs, p) {
      forall c: nat | c < |configs| ensures !NeedsAlignment(FinalStates(configs, c, pilots), pilots) {
        UndisputedIsAligned(configs, attempts, pilots, c);
      }
    }
  }

  lemma AlignedPilot(configs: seq<Configuration>, pilots: seq<Id>, p: Id)
    requires NoneNeedsAlignment(configs, pilots) && p in pilots
    ensures !Conflict(configs, p)
  {
    if Conflict(configs, p) {
      MoreThanOne(GlobalPacks(configs, p));
      var pack :| pack in GlobalPacks(configs, p);
      var c :| 0 <= c < |configs| && pack in FirstState(configs[c], p).packs;
      ConflictIsElsewhere(configs, pilots, c, p);
    }
  }

  lemma UndisputedIsAligned(configs: seq<Configuration>, attempts: seq<seq<Attempt>>, pilots: seq<Id>, c: nat)
    requires Portfolio(configs, attempts, pilots) && c < |configs|
    requires forall p :: p in pilots ==> !Conflict(configs, p)
    ensures !NeedsAlignment(FinalStates(configs, c, pilots), pilots)
  {
    forall p | p in pilots ensures KindOf(FinalStates(configs, c, pilots)[p].status) != AlignVersion {
      ConflictFree(configs, attempts, pilots, c, p);
      NotAmbiguousOn(configs[c], attempts[c], p);
      FirstStateShape(configs[c], p);
      Unaligned(FirstState(configs[c], p), Conflict(configs, p));
      assert FinalStates(configs, c, pilots)[p] == FinalState(configs, c, p);
    }
  }

  lemma Unaligned(state: State, conflict: bool)
    requires state.status != Ambiguous && state.status != Alignment && !conflict
    ensures KindOf(Overwritten(state, conflict).status) != AlignVersion
  {
  }

  /** The plan states a total for the portfolio exactly when no pilot's packs conflict, and it is then the
      sum of what the configurations need. */
  lemma TotalIsStatedExactly(plans: seq<Plan>, configs: seq<Configuration>, attempts: seq<seq<Attempt>>,
                             pilots: seq<Id>)
    requires Portfolio(configs, attempts, pilots) && PlansFor(plans, configs, pilots)
    ensures ManualPlans(plans) == 0 <==> forall p :: p in pilots ==> !Conflict(configs, p)
    ensures ManualPlans(plans) == 0 ==> forall c: nat :: c < |configs| ==> plans[c].additional.Some?
  {
    ManualMeans(plans);
    forall c: nat | c < |configs|
      ensures plans[c].status == AlignmentRequired <==> NeedsAlignment(FinalStates(configs, c, pilots), pilots)
    {
      assert PlanFor(plans[c], FinalStates(configs, c, pilots), pilots);
    }
    AlignedExactly(configs, attempts, pilots);
    if ManualPlans(plans) == 0 {
      forall c: nat | c < |configs| ensures plans[c].additional.Some? {
        PlanHasNumber(plans[c], configs, pilots, c);
      }
    }
  }

  lemma PlanHasNumber(plan: Plan, configs: seq<Configuration>, pilots: seq<Id>, c: nat)
    requires c < |configs| && PlanFor(plan, FinalStates(configs, c, pilots), pilots)
    requires !NeedsAlignment(FinalStates(configs, c, pilots), pilots)
    ensures plan.additional.Some?
  {
    var states := FinalStates(configs, c, pilots);
    forall p | p in pilots ensures states[p].additional.Some? {
      NotAmbiguous(configs, c, pilots, p);
    }
    NeededIsKnown(states, pilots);
  }

  // ----- everybody collects -----

  /** What every configuration holds after following its plan. */
  function AllCollected(configs: seq<Configuration>, attempts: seq<seq<Attempt>>, pilots: seq<Id>,
                        extra: seq<seq<Attempt>>)
    : (histories: seq<seq<Attempt>>)
    requires |configs| == |attempts| == |extra|
    ensures |histories| == |configs|
    ensures forall c: nat :: c < |configs| ==> histories[c] == Collected(configs, attempts, pilots, c, extra[c])
  {
    seq(|configs|, c requires 0 <= c < |configs| => Collected(configs, attempts, pilots, c, extra[c]))
  }

  function Size(extra: seq<seq<Attempt>>): nat {
    if extra == [] then 0 else Size(extra[..|extra| - 1]) + |extra[|extra| - 1]|
  }

  /** These clean attempts, one list per configuration, lead to this portfolio. */
  ghost predicate Follows(configs: seq<Configuration>, attempts: seq<seq<Attempt>>, pilots: seq<Id>,
                          extra: seq<seq<Attempt>>, later: seq<Configuration>) {
    && |configs| == |attempts| == |extra|
    && (forall c: nat :: c < |extra| ==> AllClean(extra[c]) && OnKnownPilots(extra[c], pilots))
    && Portfolio(later, AllCollected(configs, attempts, pilots, extra), pilots)
  }

  ghost predicate AllPlansReady(configs: seq<Configuration>, pilots: seq<Id>) {
    forall c: nat :: c < |configs| ==> PlansReady(configs, c, pilots)
  }

  /** The packs all histories together use on a pilot. */
  function PacksAcross(histories: seq<seq<Attempt>>, p: Id): set<Id> {
    set c, pack | 0 <= c < |histories| && pack in PacksOn(histories[c], p) :: pack
  }

  ghost predicate OnePackPerPilot(histories: seq<seq<Attempt>>, pilots: seq<Id>) {
    forall p :: p in pilots ==> |PacksAcross(histories, p)| <= 1
  }

  ghost predicate AllStatedNumbers(configs: seq<Configuration>, extra: seq<seq<Attempt>>, pilots: seq<Id>)
    requires |configs| == |extra|
  {
    forall c: nat :: c < |configs| ==> StatedNumbers(configs[c], extra[c], pilots)
  }

  lemma GlobalIsAcross(configs: seq<Configuration>, histories: seq<seq<Attempt>>, pilots: seq<Id>, p: Id)
    requires Portfolio(configs, histories, pilots)
    ensures GlobalPacks(configs, p) == PacksAcross(histories, p)
  {
    forall c: nat | c < |configs| ensures FirstState(configs[c], p).packs == PacksOn(histories[c], p) {
      StandingPacks(configs[c], histories[c], p);
    }
  }

  /** When no configuration needs alignment: the whole portfolio is ready exactly when every configuration got
      its stated number on every pilot and all of them use one pack per pilot. */
  lemma PortfolioExactly(configs: seq<Configuration>, attempts: seq<seq<Attempt>>, pilots: seq<Id>,
                         extra: seq<seq<Attempt>>, later: seq<Configuration>)
    requires Portfolio(configs, attempts, pilots) && NoneNeedsAlignment(configs, pilots)
    requires Follows(configs, attempts, pilots, extra, later)
    ensures AllPlansReady(later, pilots)
       <==> && AllStatedNumbers(configs, extra, pilots)
            && OnePackPerPilot(AllCollected(configs, attempts, pilots, extra), pilots)
  {
    var histories := AllCollected(configs, attempts, pilots, extra);
    forall c: nat, p | c < |configs| && p in pilots
      ensures FirstState(configs[c], p).additional.Some?
      ensures FinalState(later, c, p).status == Ready
         <==> |On(extra[c], p)| >= FirstState(configs[c], p).additional.value && |PacksAcross(histories, p)| <= 1
    {
      PilotCollected(configs, attempts, pilots, c, extra[c], later, histories, p);
      GlobalIsAcross(later, histories, pilots, p);
    }
    if AllPlansReady(later, pilots) {
      forall p | p in pilots ensures |PacksAcross(histories, p)| <= 1 {
        if configs == [] {
          assert PacksAcross(histories, p) == {};
        } else {
          assert PlansReady(later, 0, pilots);
          assert FinalState(later, 0, p).status == Ready;
        }
      }
      forall c: nat | c < |configs| ensures StatedNumbers(configs[c], extra[c], pilots) {
        assert PlansReady(later, c, pilots);
        assert forall p :: p in pilots ==> FinalState(later, c, p).status == Ready;
      }
    }
    if AllStatedNumbers(configs, extra, pilots) && OnePackPerPilot(histories, pilots) {
      forall c: nat | c < |configs| ensures PlansReady(later, c, pilots) {
        assert StatedNumbers(configs[c], extra[c], pilots);
      }
    }
  }

  // ----- the total is the least that does it -----

  lemma NumberIsLeast(plan: Plan, configs: seq<Configuration>, pilots: seq<Id>, c: nat, extra: seq<Attempt>)
    requires c < |configs| && PlanFor(plan, FinalStates(configs, c, pilots), pilots) && NoDuplicates(pilots)
    requires !NeedsAlignment(FinalStates(configs, c, pilots), pilots) && StatedNumbers(configs[c], extra, pilots)
    ensures plan.additional.Some? && plan.additional.value <= |extra|
  {
    var states := FinalStates(configs, c, pilots);
    forall p | p in pilots ensures states[p] == FirstState(configs[c], p) {
      NotAmbiguous(configs, c, pilots, p);
    }
    NeededAtMost(states, pilots, extra);
  }

  lemma {:induction false} TotalAtMostSize(plans: seq<Plan>, extra: seq<seq<Attempt>>)
    requires |plans| == |extra|
    requires forall c :: 0 <= c < |plans| ==> plans[c].additional.Some? && plans[c].additional.value <= |extra[c]|
    ensures KnownTotal(plans) <= Size(extra)
    decreases |plans|
  {
    if plans != [] { TotalAtMostSize(plans[..|plans| - 1], extra[..|extra| - 1]); }
  }

  /** No collection smaller than the stated total makes the whole portfolio ready. */
  lemma PortfolioTotalIsLeast(plans: seq<Plan>, configs: seq<Configuration>, attempts: seq<seq<Attempt>>,
                              pilots: seq<Id>,
                              extra: seq<seq<Attempt>>, later: seq<Configuration>)
    requires Portfolio(configs, attempts, pilots) && PlansFor(plans, configs, pilots) && NoDuplicates(pilots)
    requires ManualPlans(plans) == 0
    requires Follows(configs, attempts, pilots, extra, later) && AllPlansReady(later, pilots)
    ensures KnownTotal(plans) <= Size(extra)
  {
    TotalIsStatedExactly(plans, configs, attempts, pilots);
    AlignedExactly(configs, attempts, pilots);
    PortfolioExactly(configs, attempts, pilots, extra, later);
    forall c: nat | c < |configs| ensures plans[c].additional.Some? && plans[c].additional.value <= |extra[c]| {
      NumberIsLeast(plans[c], configs, pilots, c, extra[c]);
    }
    TotalAtMostSize(plans, extra);
  }

  /** Every state of a configuration names a number. */
  ghost predicate Statable(configs: seq<Configuration>, pilots: seq<Id>, c: nat)
    requires c < |configs|
  {
    forall p :: p in pilots ==> FinalStates(configs, c, pilots)[p].additional.Some?
  }

  ghost function StatedFor(configs: seq<Configuration>, pilots: seq<Id>, c: nat): seq<Attempt>
    requires c < |configs| && Statable(configs, pilots, c)
  {
    Stated(FinalStates(configs, c, pilots), pilots, AgreedOn(configs, pilots))
  }

  lemma AlignedIsStatable(configs: seq<Configuration>, pilots: seq<Id>, c: nat)
    requires c < |configs| && NoneNeedsAlignment(configs, pilots)
    ensures Statable(configs, pilots, c)
  {
    forall p | p in pilots ensures FinalStates(configs, c, pilots)[p].additional.Some? {
      NotAmbiguous(configs, c, pilots, p);
    }
  }

  /** What each plan states, on the agreed packs. */
  ghost function AllStated(configs: seq<Configuration>, pilots: seq<Id>): (extra: seq<seq<Attempt>>)
    requires forall c: nat :: c < |configs| ==> Statable(configs, pilots, c)
    ensures |extra| == |configs| && forall c: nat :: c < |configs| ==> extra[c] == StatedFor(configs, pilots, c)
  {
    seq(|configs|, c requires 0 <= c < |configs| => StatedFor(configs, pilots, c))
  }

  lemma StatedFits(configs: seq<Configuration>, pilots: seq<Id>, c: nat)
    requires c < |configs| && NoneNeedsAlignment(configs, pilots)
    ensures Statable(configs, pilots, c)
    ensures
      var extra := StatedFor(configs, pilots, c);
      && AllClean(extra) && OnKnownPilots(extra, pilots) && OnAgreedPacks(extra, AgreedOn(configs, pilots))
      && StatedNumbers(configs[c], extra, pilots)
      && Needed(FinalStates(configs, c, pilots), pilots) == Some(|extra|)
  {
    var states, packs := FinalStates(configs, c, pilots), AgreedOn(configs, pilots);
    AlignedIsStatable(configs, pilots, c);
    forall p | p in pilots ensures states[p] == FirstState(configs[c], p) {
      NotAmbiguous(configs, c, pilots, p);
    }
    StatedAttempts(states, pilots, packs, pilots);
    forall p | p in pilots
      ensures |On(Stated(states, pilots, packs), p)| >= FirstState(configs[c], p).additional.value {
      StatedReaches(states, pilots, packs, p);
    }
  }

  lemma AgreedAcross(histories: seq<seq<Attempt>>, agreed: map<Id, Id>, pilots: seq<Id>)
    requires forall c: nat :: c < |histories| ==> OnAgreedPacks(histories[c], agreed)
    ensures OnePackPerPilot(histories, pilots)
  {
    forall p | p in pilots ensures |PacksAcross(histories, p)| <= 1 {
      forall pack | pack in PacksAcross(histories, p) ensures p in agreed && pack == agreed[p] {
        var c :| 0 <= c < |histories| && pack in PacksOn(histories[c], p);
        assert OnAgreedPacks(histories[c], agreed);
      }
      MoreThanOne(PacksAcross(histories, p));
    }
  }

  lemma {:induction false} SizeIsTotal(plans: seq<Plan>, extra: seq<seq<Attempt>>)
    requires |plans| == |extra| && forall c :: 0 <= c < |plans| ==> plans[c].additional == Some(|extra[c]|)
    ensures KnownTotal(plans) == Size(extra)
    decreases |plans|
  {
    if plans != [] { SizeIsTotal(plans[..|plans| - 1], extra[..|extra| - 1]); }
  }

  /** A stated total is enough: collecting exactly that many attempts makes the whole portfolio ready at once. */
  lemma PortfolioTotalIsEnough(plans: seq<Plan>, configs: seq<Configuration>, attempts: seq<seq<Attempt>>,
                               pilots: seq<Id>)
    returns (extra: seq<seq<Attempt>>, later: seq<Configuration>)
    requires Portfolio(configs, attempts, pilots) && PlansFor(plans, configs, pilots) && ManualPlans(plans) == 0
    ensures Follows(configs, attempts, pilots, extra, later) && AllPlansReady(later, pilots)
    ensures Size(extra) == KnownTotal(plans)
  {
    TotalIsStatedExactly(plans, configs, attempts, pilots);
    AlignedExactly(configs, attempts, pilots);
    forall c: nat | c < |configs| ensures Statable(configs, pilots, c) {
      AlignedIsStatable(configs, pilots, c);
    }
    extra := AllStated(configs, pilots);
    var histories, agreed := AllCollected(configs, attempts, pilots, extra), AgreedOn(configs, pilots);
    forall c: nat | c < |configs|
      ensures AllClean(extra[c]) && OnKnownPilots(extra[c], pilots) && StatedNumbers(configs[c], extra[c], pilots)
      ensures plans[c].additional == Some(|extra[c]|)
      ensures OnAgreedPacks(histories[c], agreed) && OnKnownPilots(histories[c], pilots)
    {
      StatedFits(configs, pilots, c);
      NoConflictMeansAgreed(configs, attempts, pilots, c);
    }
    SizeIsTotal(plans, extra);
    later := DescribableAll(histories, pilots);
    AgreedAcross(histories, agreed, pilots);
    PortfolioExactly(configs, attempts, pilots, extra, later);
  }
}
