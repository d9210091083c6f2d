/**
  What the Round 5 plan asks of a configuration, gate by gate and pilot by pilot, in terms of its attempts
  (src/llm_hardtest/pilot_analysis.py:809-970, 991-1035).
 */
module PlanActions {
  import opened Numbers
  import opened Sequences
  import opened PilotPlan
  import opened EvidencePlan

  // ----- what a scenario row counts -----

  function InScenario(k: Scenario, of: Attempt -> bool): Attempt -> bool {
    (a: Attempt) => a.pilot == k.pilot && a.pack == k.pack && of(a)
  }

  function IsComplete(): Attempt -> bool { (a: Attempt) => a.complete }
  function IsIncomplete(): Attempt -> bool { (a: Attempt) => !a.complete }
  function EditsEarly(): Attempt -> bool { (a: Attempt) => !a.noEdit }

  lemma OfLast(init: seq<Attempt>, last: Attempt, k: Scenario)
    ensures Of(init + [last], k) == Of(init, k) + (if Scenario(last.pilot, last.pack) == k then [last] else [])
  {
    assert (init + [last])[..|init|] == init;
  }

  lemma OneMoreCounted(s: seq<Attempt>, a: Attempt)
    ensures CompleteIn(s + [a]) == CompleteIn(s) + (if a.complete then 1 else 0)
    ensures IncompleteIn(s + [a]) == IncompleteIn(s) + (if a.complete then 0 else 1)
    ensures ViolationsIn(s + [a]) == ViolationsIn(s) + (if a.noEdit then 0 else 1)
  {
    assert (s + [a])[..|s|] == s;
  }

  ghost predicate Counted(row: ScenarioRow, s: seq<Attempt>) {
    && row.complete == Count(s, InScenario(row.scenario, IsComplete()))
    && row.incomplete == Count(s, InScenario(row.scenario, IsIncomplete()))
    && row.violations == Count(s, InScenario(row.scenario, EditsEarly()))
  }

  lemma RowNext(init: seq<Attempt>, last: Attempt, k: Scenario)
    ensures
      var before, after := RowFor(init, k), RowFor(init + [last], k);
      var mine := last.pilot == k.pilot && last.pack == k.pack;
      && after.complete == before.complete + (if mine && last.complete then 1 else 0)
      && after.incomplete == before.incomplete + (if mine && !last.complete then 1 else 0)
      && after.violations == before.violations + (if mine && !last.noEdit then 1 else 0)
  {
    OfLast(init, last, k);
    OneMoreCounted(Of(init, k), last);
    assert Of(init, k) + [] == Of(init, k);
  }

  lemma CountedNext(init: seq<Attempt>, last: Attempt, before: ScenarioRow, after: ScenarioRow)
    requires Counted(before, init) && after.scenario == before.scenario
    requires
      var k := before.scenario;
      var mine := last.pilot == k.pilot && last.pack == k.pack;
      && after.complete == before.complete + (if mine && last.complete then 1 else 0)
      && after.incomplete == before.incomplete + (if mine && !last.complete then 1 else 0)
      && after.violations == before.violations + (if mine && !last.noEdit then 1 else 0)
    ensures Counted(after, init + [last])
  {
    CountAppend(init, last, InScenario(before.scenario, IsComplete()));
    CountAppend(init, last, InScenario(before.scenario, IsIncomplete()));
    CountAppend(init, last, InScenario(before.scenario, EditsEarly()));
  }

  lemma {:induction false} RowCounts(s: seq<Attempt>, k: Scenario)
    ensures Counted(RowFor(s, k), s)
    decreases |s|
  {
    if s != [] {
      var init, last := s[..|s| - 1], s[|s| - 1];
      assert s == init + [last];
      RowCounts(init, k);
      RowNext(init, last, k);
      CountedNext(init, last, RowFor(init, k), RowFor(s, k));
    }
  }

  /** A scenario row counts its attempts that completed, that did not, and that edited before approval. */
  lemma RowMeans(s: seq<Attempt>, k: Scenario)
    ensures
      var row := RowFor(s, k);
      && row.complete == |set i | 0 <= i < |s| && s[i].pilot == k.pilot && s[i].pack == k.pack && s[i].complete|
      && row.incomplete == |set i | 0 <= i < |s| && s[i].pilot == k.pilot && s[i].pack == k.pack && !s[i].complete|
      && row.violations == |set i | 0 <= i < |s| && s[i].pilot == k.pilot && s[i].pack == k.pack && !s[i].noEdit|
  {
    RowCounts(s, k);
    CountMeans(s, InScenario(k, IsComplete()));
    CountMeans(s, InScenario(k, IsIncomplete()));
    CountMeans(s, InScenario(k, EditsEarly()));
    assert Where(s, InScenario(k, IsComplete()))
        == set i | 0 <= i < |s| && s[i].pilot == k.pilot && s[i].pack == k.pack && s[i].complete;
    assert Where(s, InScenario(k, IsIncomplete()))
        == set i | 0 <= i < |s| && s[i].pilot == k.pilot && s[i].pack == k.pack && !s[i].complete;
    assert Where(s, InScenario(k, EditsEarly()))
        == set i | 0 <= i < |s| && s[i].pilot == k.pilot && s[i].pack == k.pack && !s[i].noEdit;
  }

  // ----- complete attempts of a pilot, over all its packs -----

  /** The complete attempts in these scenarios of a pilot. */
  function CompleteOver(scenarios: seq<Scenario>, s: seq<Attempt>, p: Id): nat {
    if scenarios == [] then 0
    else
      var k := scenarios[|scenarios| - 1];
      CompleteOver(scenarios[..|scenarios| - 1], s, p) + (if k.pilot == p then CompleteIn(Of(s, k)) else 0)
  }

  function ScenariosOf(rows: seq<ScenarioRow>): (r: seq<Scenario>)
    ensures |r| == |rows| && forall i :: 0 <= i < |r| ==> r[i] == rows[i].scenario
  {
    seq(|rows|, i requires 0 <= i < |rows| => rows[i].scenario)
  }

  lemma {:induction false} RowsCompleteOver(rows: seq<ScenarioRow>, s: seq<Attempt>, p: Id)
    requires forall i :: 0 <= i < |rows| ==> rows[i] == RowFor(s, rows[i].scenario)
    ensures CompleteFor(rows, p) == CompleteOver(ScenariosOf(rows), s, p)
    decreases |rows|
  {
    if rows != [] {
      var n := |rows| - 1;
      RowsCompleteOver(rows[..n], s, p);
      assert ScenariosOf(rows)[..n] == ScenariosOf(rows[..n]);
    }
  }

  /** One more attempt is counted in its scenario, if that is among these. */
  lemma {:induction false} OverNext(scenarios: seq<Scenario>, s: seq<Attempt>, a: Attempt, p: Id)
    requires NoDuplicates(scenarios)
    ensures CompleteOver(scenarios, s + [a], p)
         == CompleteOver(scenarios, s, p)
          + (if a.complete && a.pilot == p && Scenario(a.pilot, a.pack) in scenarios then 1 else 0)
    decreases |scenarios|
  {
    if scenarios != [] {
      var init, k := scenarios[..|scenarios| - 1], scenarios[|scenarios| - 1];
      assert scenarios == init + [k];
      OverNext(init, s, a, p);
      RowNext(s, a, k);
    }
  }

  lemma {:induction false} OverNone(scenarios: seq<Scenario>, p: Id)
    ensures CompleteOver(scenarios, [], p) == 0
    decreases |scenarios|
  {
    if scenarios != [] { OverNone(scenarios[..|scenarios| - 1], p); }
  }

  lemma OnLast(init: seq<Attempt>, last: Attempt, p: Id)
    ensures On(init + [last], p) == On(init, p) + (if last.pilot == p then [last] else [])
  {
    assert (init + [last])[..|init|] == init;
  }

  /** Scenarios that hold all attempts hold all complete attempts of a pilot. */
  lemma {:induction false} OverAll(scenarios: seq<Scenario>, s: seq<Attempt>, p: Id)
    requires NoDuplicates(scenarios) && forall a :: a in s ==> Scenario(a.pilot, a.pack) in scenarios
    ensures CompleteOver(scenarios, s, p) == CompleteIn(On(s, p))
    decreases |s|
  {
    if s == [] {
      OverNone(scenarios, p);
    } else {
      var init, last := s[..|s| - 1], s[|s| - 1];
      assert s == init + [last];
      OverAll(scenarios, init, p);
      OverNext(scenarios, init, last, p);
      assert last in s;
      CompleteOnLast(init, last, p);
    }
  }

  lemma CompleteOnLast(init: seq<Attempt>, last: Attempt, p: Id)
    ensures CompleteIn(On(init + [last], p))
         == CompleteIn(On(init, p)) + (if last.pilot == p && last.complete then 1 else 0)
  {
    OnLast(init, last, p);
    OneMoreCounted(On(init, p), last);
    assert On(init, p) + [] == On(init, p);
  }

  lemma CompleteOnEveryPack(c: Configuration, s: seq<Attempt>, p: Id)
    requires Describes(c, s)
    ensures CompleteFor(c.rows, p) == CompleteIn(On(s, p))
  {
    var scenarios := ScenariosOf(c.rows);
    RowsCompleteOver(c.rows, s, p);
    forall a | a in s ensures Scenario(a.pilot, a.pack) in scenarios {
      var i :| 0 <= i < |c.rows| && c.rows[i].scenario == Scenario(a.pilot, a.pack);
      assert scenarios[i] == Scenario(a.pilot, a.pack);
    }
    OverAll(scenarios, s, p);
  }

  // ----- each gate -----

  lemma ObservedMeans(c: Configuration, s: seq<Attempt>, p: Id)
    requires Describes(c, s)
    ensures PacksFor(c.rows, p) != {} <==> exists a :: a in s && a.pilot == p
  {
    PacksOfAttempts(c.rows, s, p);
    if a :| a in s && a.pilot == p {
      assert a.pack in PacksFor(c.rows, p);
    }
  }

  /** Each coverage gate, in terms of the attempts. */
  lemma GatesMean(c: Configuration, s: seq<Attempt>, pilots: seq<Id>)
    requires Describes(c, s)
    ensures
      var gates := GatesOf(c, s, pilots);
      && (gates.observed <==> forall p :: p in pilots ==> exists a :: a in s && a.pilot == p)
      && (gates.onePack <==> forall a, b :: a in s && b in s && a.pilot == b.pilot ==> a.pack == b.pack)
      && (gates.twoComplete <==> gates.observed && forall p :: p in pilots ==> CompleteIn(On(s, p)) >= 2)
      && (gates.allComplete <==> forall a :: a in s ==> a.complete)
      && (gates.allBounded <==> forall a :: a in s ==> a.noEdit)
  {
    forall p | p in pilots
      ensures PacksFor(c.rows, p) != {} <==> exists a :: a in s && a.pilot == p
      ensures CompleteFor(c.rows, p) == CompleteIn(On(s, p))
    {
      ObservedMeans(c, s, p);
      CompleteOnEveryPack(c, s, p);
    }
    OnePackMeans(c, s);
  }

  lemma OnePackMeans(c: Configuration, s: seq<Attempt>)
    requires Describes(c, s)
    ensures c.ambiguous == {} <==> forall a, b :: a in s && b in s && a.pilot == b.pilot ==> a.pack == b.pack
  {
    if c.ambiguous != {} {
      var p :| p in c.ambiguous;
      assert TwoPacks(s, p);
    }
    if a, b :| a in s && b in s && a.pilot == b.pilot && a.pack != b.pack {
      assert TwoPacks(s, a.pilot);
      assert a.pilot in c.ambiguous;
    }
  }

  // ----- each action -----

  function PacksOf(s: seq<Attempt>): set<Id> {
    set a | a in s :: a.pack
  }

  /** What the plan asks on a pilot, given the attempts on it and whether its packs conflict somewhere. */
  function ActionFor(p: Id, mine: seq<Attempt>, conflict: bool): Option<Action> {
    var packs := PacksOf(mine);
    if mine == [] then Some(Action(p, CollectMissing, Some(2), {}))
    else if conflict || |packs| > 1 then Some(Action(p, AlignVersion, None, packs))
    else if exists a :: a in mine && !(a.complete && a.noEdit) then Some(Action(p, RecollectCohort, Some(2), packs))
    else if |mine| == 1 then Some(Action(p, CollectRepeat, Some(1), packs))
    else None
  }

  lemma StandingHolds(s: seq<Attempt>, p: Id)
    ensures Standing(s, p).packs == PacksOf(On(s, p))
    ensures PacksOf(On(s, p)) == {} <==> On(s, p) == []
  {
    assert Standing(s, p).packs == set a | a in On(s, p) :: a.pack;
    if On(s, p) != [] {
      assert On(s, p)[0] in On(s, p);
      assert On(s, p)[0].pack in PacksOf(On(s, p));
    }
  }

  lemma TwoPacksMeans(s: seq<Attempt>, p: Id)
    ensures TwoPacks(s, p) <==> exists x, y :: x in PacksOf(On(s, p)) && y in PacksOf(On(s, p)) && x != y
  {
    if TwoPacks(s, p) {
      var a, b :| a in s && b in s && a.pilot == p && b.pilot == p && a.pack != b.pack;
      assert a in On(s, p) && b in On(s, p);
      assert a.pack in PacksOf(On(s, p)) && b.pack in PacksOf(On(s, p));
    }
    if x, y :| x in PacksOf(On(s, p)) && y in PacksOf(On(s, p)) && x != y {
      var a :| a in On(s, p) && a.pack == x;
      var b :| b in On(s, p) && b.pack == y;
      assert a in s && b in s;
    }
  }

  lemma StandingAction(s: seq<Attempt>, p: Id, conflict: bool)
    ensures
      var state := Overwritten(Standing(s, p), conflict);
      ActionFor(p, On(s, p), conflict) == if state.status == Ready then None else Some(ActionOf(p, state))
  {
    StandingHolds(s, p);
    TwoPacksMeans(s, p);
    MoreThanOne(PacksOf(On(s, p)));
    forall a | a in On(s, p) ensures Clean(a) <==> a.complete && a.noEdit {
    }
  }

  /** The plan holds exactly one action for a pilot without attempts, with packs that conflict, with an unclean
      attempt or with a single clean one, namely that one, and none for any other. */
  lemma ActionsMean(plan: Plan, configs: seq<Configuration>, attempts: seq<seq<Attempt>>, pilots: seq<Id>,
                    c: nat, p: Id)
    requires Portfolio(configs, attempts, pilots) && c < |configs| && p in pilots
    requires PlanFor(plan, FinalStates(configs, c, pilots), pilots)
    ensures forall x :: x in plan.actions && x.pilot == p <==>
      Some(x) == ActionFor(p, On(attempts[c], p), Conflict(configs, p))
  {
    FirstStateIsStanding(configs[c], attempts[c], p);
    StandingAction(attempts[c], p, Conflict(configs, p));
    assert FinalStates(configs, c, pilots)[p] == FinalState(configs, c, p);
  }
}
