/**
  Coverage gates of the Round 5 portfolio and the evidence-collection plan
  (src/llm_hardtest/pilot_analysis.py:803-1061).
 */
module PilotPlan {
  import opened Numbers
  import opened Sequences
  import opened Dictionaries
  import Bundles

  type Id = Bundles.Id

  const COMPLETE_REPEATS: nat := 2

  /** One attempt of one configuration, as far as coverage is concerned. */
  datatype Attempt = Attempt(pilot: Id, pack: Id, complete: bool, noEdit: bool)

  datatype Scenario = Scenario(pilot: Id, pack: Id)

  datatype ScenarioRow = ScenarioRow(scenario: Scenario, complete: nat, incomplete: nat, violations: nat)

  datatype Configuration = Configuration(rows: seq<ScenarioRow>, ambiguous: set<Id>)

  predicate Clean(a: Attempt) {
    a.complete && a.noEdit
  }

  function CompleteIn(s: seq<Attempt>): nat {
    if s == [] then 0 else CompleteIn(s[..|s| - 1]) + (if s[|s| - 1].complete then 1 else 0)
  }

  function IncompleteIn(s: seq<Attempt>): nat {
    if s == [] then 0 else IncompleteIn(s[..|s| - 1]) + (if s[|s| - 1].complete then 0 else 1)
  }

  function ViolationsIn(s: seq<Attempt>): nat {
    if s == [] then 0 else ViolationsIn(s[..|s| - 1]) + (if s[|s| - 1].noEdit then 0 else 1)
  }

  lemma {:induction false} CountsMean(s: seq<Attempt>)
    ensures CompleteIn(s) + IncompleteIn(s) == |s|
    ensures IncompleteIn(s) == 0 && ViolationsIn(s) == 0 <==> forall a :: a in s ==> Clean(a)
    decreases |s|
  {
    if s != [] {
      var init, last := s[..|s| - 1], s[|s| - 1];
      assert s == init + [last];
      CountsMean(init);
      assert last in s;
    }
  }

  /** The attempts on one scenario, and on one pilot whatever the pack. */
  function Of(s: seq<Attempt>, k: Scenario): (r: seq<Attempt>)
    ensures forall a :: a in r <==> a in s && Scenario(a.pilot, a.pack) == k
  {
    if s == [] then []
    else
      var init, last := s[..|s| - 1], s[|s| - 1];
      assert s == init + [last];
      Of(init, k) + (if Scenario(last.pilot, last.pack) == k then [last] else [])
  }

  function On(s: seq<Attempt>, pilot: Id): (r: seq<Attempt>)
    ensures forall a :: a in r <==> a in s && a.pilot == pilot
  {
    if s == [] then []
    else
      var init, last := s[..|s| - 1], s[|s| - 1];
      assert s == init + [last];
      On(init, pilot) + (if last.pilot == pilot then [last] else [])
  }

  lemma {:induction false} OnePackOf(s: seq<Attempt>, k: Scenario)
    requires forall a :: a in s && a.pilot == k.pilot ==> a.pack == k.pack
    ensures Of(s, k) == On(s, k.pilot)
    decreases |s|
  {
    if s != [] {
      var init, last := s[..|s| - 1], s[|s| - 1];
      assert s == init + [last];
      OnePackOf(init, k);
    }
  }

  // ----- summarising attempts by scenario -----

  function RowFor(s: seq<Attempt>, k: Scenario): ScenarioRow {
    ScenarioRow(k, CompleteIn(Of(s, k)), IncompleteIn(Of(s, k)), ViolationsIn(Of(s, k)))
  }

  /** One row per observed scenario, in whatever order. */
  ghost predicate Summarises(rows: seq<ScenarioRow>, s: seq<Attempt>) {
    && (forall i :: 0 <= i < |rows| ==> rows[i] == RowFor(s, rows[i].scenario))
    && (forall i, j :: 0 <= i < j < |rows| ==> rows[i].scenario != rows[j].scenario)
    && (forall i :: 0 <= i < |rows| ==> Of(s, rows[i].scenario) != [])
    && (forall a :: a in s ==> exists i :: 0 <= i < |rows| && rows[i].scenario == Scenario(a.pilot, a.pack))
  }

  ghost predicate TwoPacks(s: seq<Attempt>, pilot: Id) {
    exists a, b :: a in s && b in s && a.pilot == pilot && b.pilot == pilot && a.pack != b.pack
  }

  /** What the portfolio reports of a configuration with these attempts. */
  ghost predicate Describes(c: Configuration, s: seq<Attempt>) {
    Summarises(c.rows, s) && forall pilot :: pilot in c.ambiguous <==> TwoPacks(s, pilot)
  }

  lemma OfAppend(s: seq<Attempt>, a: Attempt, k: Scenario)
    ensures Of(s + [a], k) == Of(s, k) + (if Scenario(a.pilot, a.pack) == k then [a] else [])
  {
    assert (s + [a])[..|s|] == s;
  }

  function Held(groups: map<Scenario, seq<Attempt>>, k: Scenario): seq<Attempt> {
    if k in groups then groups[k] else []
  }

  ghost predicate Grouped(groups: map<Scenario, seq<Attempt>>, s: seq<Attempt>) {
    forall k :: Held(groups, k) == Of(s, k) && (k in groups <==> Of(s, k) != [])
  }

  lemma GroupNext(groups: map<Scenario, seq<Attempt>>, s: seq<Attempt>, a: Attempt)
    requires Grouped(groups, s)
    ensures
      var k := Scenario(a.pilot, a.pack);
      Grouped(groups[k := Held(groups, k) + [a]], s + [a])
  {
    var k := Scenario(a.pilot, a.pack);
    var next := groups[k := Held(groups, k) + [a]];
    forall x ensures Held(next, x) == Of(s + [a], x) && (x in next <==> Of(s + [a], x) != []) {
      OfAppend(s, a, x);
      assert Held(groups, x) == Of(s, x);
      HeldNext(groups, a, k, x, Of(s, x), Of(s + [a], x));
    }
  }

  lemma HeldNext(groups: map<Scenario, seq<Attempt>>, a: Attempt, k: Scenario, x: Scenario, mine: seq<Attempt>,
                 after: seq<Attempt>)
    requires Held(groups, x) == mine && (x in groups <==> mine != [])
    requires after == mine + (if k == x then [a] else [])
    ensures
      var next := groups[k := Held(groups, k) + [a]];
      Held(next, x) == after && (x in next <==> after != [])
  {
    assert mine + [] == mine;
  }

  method GroupAttempts(s: seq<Attempt>) returns (groups: map<Scenario, seq<Attempt>>)
    ensures Grouped(groups, s)
  {
    groups := map[];
    ghost var done: seq<Attempt> := [];
    NothingGrouped();
    for n := 0 to |s|
      invariant done == s[..n]
      invariant Grouped(groups, done)
    {
      var a := s[n];
      var k := Scenario(a.pilot, a.pack);
      GroupNext(groups, done, a);
      groups := groups[k := Held(groups, k) + [a]];
      done := done + [a];
    }
    assert done == s;
  }

  lemma NothingGrouped()
    ensures Grouped(map[], [])
  {
  }

  /** Exactly these scenarios have a row. */
  ghost predicate Listed(rows: seq<ScenarioRow>, s: seq<Attempt>, done: set<Scenario>) {
    && (forall i :: 0 <= i < |rows| ==> rows[i] == RowFor(s, rows[i].scenario))
    && (forall i, j :: 0 <= i < j < |rows| ==> rows[i].scenario != rows[j].scenario)
    && (forall i :: 0 <= i < |rows| ==> rows[i].scenario in done)
    && (forall k :: k in done ==> exists i :: 0 <= i < |rows| && rows[i].scenario == k)
  }

  lemma ListNext(rows: seq<ScenarioRow>, s: seq<Attempt>, done: set<Scenario>, k: Scenario)
    requires Listed(rows, s, done) && k !in done
    ensures Listed(rows + [RowFor(s, k)], s, done + {k})
  {
    var next := rows + [RowFor(s, k)];
    forall x | x in done + {k} ensures exists i :: 0 <= i < |next| && next[i].scenario == x {
      if x == k {
        assert next[|rows|].scenario == x;
      } else {
        var i :| 0 <= i < |rows| && rows[i].scenario == x;
        assert next[i].scenario == x;
      }
    }
  }

  lemma ListedAll(rows: seq<ScenarioRow>, s: seq<Attempt>, groups: map<Scenario, seq<Attempt>>)
    requires Grouped(groups, s) && Listed(rows, s, groups.Keys)
    ensures Summarises(rows, s)
  {
    forall a | a in s ensures exists i :: 0 <= i < |rows| && rows[i].scenario == Scenario(a.pilot, a.pack) {
      var k := Scenario(a.pilot, a.pack);
      assert a in Of(s, k);
      assert Held(groups, k) == Of(s, k) && k in groups;
    }
    forall i | 0 <= i < |rows| ensures Of(s, rows[i].scenario) != [] {
      assert Held(groups, rows[i].scenario) == Of(s, rows[i].scenario);
    }
  }

  method Summarise(s: seq<Attempt>) returns (rows: seq<ScenarioRow>)
    ensures Summarises(rows, s)
  {
    var groups := GroupAttempts(s);
    rows := [];
    var todo := groups.Keys;
    ghost var done: set<Scenario> := {};
    while todo != {}
      invariant done <= groups.Keys && todo == groups.Keys - done
      invariant Listed(rows, s, done)
      decreases |todo|
    {
      var k :| k in todo;
      var values := groups[k];
      assert Held(groups, k) == Of(s, k);
      ListNext(rows, s, done, k);
      VisitNext(groups.Keys, done, todo, k);
      rows := rows + [ScenarioRow(k, CompleteIn(values), IncompleteIn(values), ViolationsIn(values))];
      todo, done := todo - {k}, done + {k};
    }
    VisitedAll(groups.Keys, done);
    ListedAll(rows, s, groups);
  }

  /** Rows for any set of scenarios. */
  lemma {:induction false} RowsForAll(s: seq<Attempt>, todo: set<Scenario>) returns (rows: seq<ScenarioRow>)
    ensures Listed(rows, s, todo)
    decreases |todo|
  {
    rows := [];
    if todo != {} {
      var k :| k in todo;
      var rest := RowsForAll(s, todo - {k});
      ListNext(rest, s, todo - {k}, k);
      assert todo - {k} + {k} == todo;
      rows := rest + [RowFor(s, k)];
    }
  }

  /** Any attempts can be reported. */
  lemma Describable(s: seq<Attempt>) returns (c: Configuration)
    ensures Describes(c, s)
  {
    var scenarios := set a | a in s :: Scenario(a.pilot, a.pack);
    var rows := RowsForAll(s, scenarios);
    ListedScenarios(rows, s, scenarios);
    var ambiguous := AmbiguousPilots(s);
    c := Configuration(rows, ambiguous);
  }

  lemma ListedScenarios(rows: seq<ScenarioRow>, s: seq<Attempt>, scenarios: set<Scenario>)
    requires Listed(rows, s, scenarios) && scenarios == set a | a in s :: Scenario(a.pilot, a.pack)
    ensures Summarises(rows, s)
  {
    forall i | 0 <= i < |rows| ensures Of(s, rows[i].scenario) != [] {
      assert rows[i].scenario in scenarios;
      var a :| a in s && Scenario(a.pilot, a.pack) == rows[i].scenario;
      assert a in Of(s, rows[i].scenario);
    }
    forall a | a in s ensures exists i :: 0 <= i < |rows| && rows[i].scenario == Scenario(a.pilot, a.pack) {
      assert Scenario(a.pilot, a.pack) in scenarios;
    }
  }

  lemma AmbiguousPilots(s: seq<Attempt>) returns (pilots: set<Id>)
    ensures forall pilot :: pilot in pilots <==> TwoPacks(s, pilot)
  {
    pilots := set a | a in s && TwoPacks(s, a.pilot) :: a.pilot;
    forall pilot | TwoPacks(s, pilot) ensures pilot in pilots {
      var a, b :| a in s && b in s && a.pilot == pilot && b.pilot == pilot && a.pack != b.pack;
    }
  }

  // ----- coverage gates -----

  datatype Gates = Gates(observed: bool, onePack: bool, twoComplete: bool, allComplete: bool, allBounded: bool)

  predicate AllHold(g: Gates) {
    g.observed && g.onePack && g.twoComplete && g.allComplete && g.allBounded
  }

  function PacksFor(rows: seq<ScenarioRow>, pilot: Id): set<Id> {
    set i | 0 <= i < |rows| && rows[i].scenario.pilot == pilot :: rows[i].scenario.pack
  }

  function CompleteFor(rows: seq<ScenarioRow>, pilot: Id): nat {
    if rows == [] then 0
    else
      var last := rows[|rows| - 1];
      CompleteFor(rows[..|rows| - 1], pilot) + (if last.scenario.pilot == pilot then last.complete else 0)
  }

  function GatesOf(c: Configuration, s: seq<Attempt>, pilots: seq<Id>): Gates {
    var observed := forall p :: p in pilots ==> PacksFor(c.rows, p) != {};
    Gates(observed,
          c.ambiguous == {},
          observed && forall p :: p in pilots ==> CompleteFor(c.rows, p) >= COMPLETE_REPEATS,
          forall a :: a in s ==> a.complete,
          forall a :: a in s ==> a.noEdit)
  }

  method Coverage(s: seq<Attempt>, pilots: seq<Id>) returns (c: Configuration, gates: Gates)
    ensures Describes(c, s)
    ensures gates == GatesOf(c, s, pilots)
  {
    var rows := Summarise(s);
    var ambiguous := set i | 0 <= i < |rows| && |PacksFor(rows, rows[i].scenario.pilot)| > 1 :: rows[i].scenario.pilot;
    c := Configuration(rows, ambiguous);
    forall pilot ensures pilot in ambiguous <==> TwoPacks(s, pilot) {
      AmbiguityMeans(rows, s, pilot);
      MoreThanOne(PacksFor(rows, pilot));
    }
    gates := GatesOf(c, s, pilots);
  }

  lemma PacksOfAttempts(rows: seq<ScenarioRow>, s: seq<Attempt>, pilot: Id)
    requires Summarises(rows, s)
    ensures forall pack :: pack in PacksFor(rows, pilot) <==> exists a :: a in s && a.pilot == pilot && a.pack == pack
  {
    forall pack | pack in PacksFor(rows, pilot) ensures exists a :: a in s && a.pilot == pilot && a.pack == pack {
      var i :| 0 <= i < |rows| && rows[i].scenario == Scenario(pilot, pack);
      var a := Of(s, rows[i].scenario)[0];
      assert a in Of(s, rows[i].scenario);
    }
  }

  lemma AmbiguityMeans(rows: seq<ScenarioRow>, s: seq<Attempt>, pilot: Id)
    requires Summarises(rows, s)
    ensures |PacksFor(rows, pilot)| > 1 <==> TwoPacks(s, pilot)
  {
    PacksOfAttempts(rows, s, pilot);
    var packs := PacksFor(rows, pilot);
    MoreThanOne(packs);
    if TwoPacks(s, pilot) {
      var a, b :| a in s && b in s && a.pilot == pilot && b.pilot == pilot && a.pack != b.pack;
      assert a.pack in packs && b.pack in packs;
    }
  }

  // ----- per-pilot states -----

  datatype Status = Ambiguous | Missing | FreshCohort | RepeatDeficit | Ready | Alignment

  /** Where a configuration stands on a pilot; None is a number no collection can name. */
  datatype State = State(status: Status, additional: Option<nat>, packs: set<Id>)

  function RowsFor(rows: seq<ScenarioRow>, pilot: Id): (r: seq<ScenarioRow>)
    ensures forall x :: x in r <==> x in rows && x.scenario.pilot == pilot
  {
    if rows == [] then []
    else
      var init, last := rows[..|rows| - 1], rows[|rows| - 1];
      assert rows == init + [last];
      RowsFor(init, pilot) + (if last.scenario.pilot == pilot then [last] else [])
  }

  function FirstState(c: Configuration, pilot: Id): State {
    var rows := RowsFor(c.rows, pilot);
    if pilot in c.ambiguous then State(Ambiguous, None, set x | x in rows :: x.scenario.pack)
    else if rows == [] then State(Missing, Some(COMPLETE_REPEATS), {})
    else
      var row := rows[0];
      if row.incomplete > 0 || row.violations > 0 then
        State(FreshCohort, Some(COMPLETE_REPEATS), {row.scenario.pack})
      else if row.complete < COMPLETE_REPEATS then
        State(RepeatDeficit, Some(COMPLETE_REPEATS - row.complete), {row.scenario.pack})
      else
        State(Ready, Some(0), {row.scenario.pack})
  }

  /** Only an ambiguous pilot leaves the number open, and a first state is never an alignment. */
  lemma FirstStateShape(c: Configuration, pilot: Id)
    ensures FirstState(c, pilot).status != Alignment
    ensures FirstState(c, pilot).additional.None? <==> FirstState(c, pilot).status == Ambiguous
  {
  }

  /** The same in terms of the attempts alone. */
  ghost function Standing(s: seq<Attempt>, pilot: Id): State {
    var mine := On(s, pilot);
    var packs := set a | a in mine :: a.pack;
    if TwoPacks(s, pilot) then State(Ambiguous, None, packs)
    else if mine == [] then State(Missing, Some(COMPLETE_REPEATS), packs)
    else if exists a :: a in mine && !Clean(a) then State(FreshCohort, Some(COMPLETE_REPEATS), packs)
    else if |mine| < COMPLETE_REPEATS then State(RepeatDeficit, Some(COMPLETE_REPEATS - |mine|), packs)
    else State(Ready, Some(0), packs)
  }

  lemma AttemptOfRow(c: Configuration, s: seq<Attempt>, row: ScenarioRow) returns (a: Attempt)
    requires Describes(c, s) && row in c.rows
    ensures a in On(s, row.scenario.pilot) && a.pack == row.scenario.pack
  {
    a := Of(s, row.scenario)[0];
    assert a in Of(s, row.scenario);
  }

  lemma RowOfAttempt(c: Configuration, s: seq<Attempt>, a: Attempt) returns (row: ScenarioRow)
    requires Describes(c, s) && a in s
    ensures row in RowsFor(c.rows, a.pilot) && row.scenario.pack == a.pack
  {
    var i :| 0 <= i < |c.rows| && c.rows[i].scenario == Scenario(a.pilot, a.pack);
    row := c.rows[i];
    assert row in c.rows;
  }

  lemma RowScenarios(c: Configuration, s: seq<Attempt>, pilot: Id)
    requires Describes(c, s)
    ensures (set x | x in RowsFor(c.rows, pilot) :: x.scenario.pack) == (set a | a in On(s, pilot) :: a.pack)
    ensures RowsFor(c.rows, pilot) == [] <==> On(s, pilot) == []
  {
    var rows, mine := RowsFor(c.rows, pilot), On(s, pilot);
    forall x | x in rows ensures exists a :: a in mine && a.pack == x.scenario.pack {
      var a := AttemptOfRow(c, s, x);
    }
    forall a | a in mine ensures exists x :: x in rows && x.scenario.pack == a.pack {
      var x := RowOfAttempt(c, s, a);
    }
    if rows != [] { assert rows[0] in rows; }
    if mine != [] { assert mine[0] in mine; }
  }

  /** The row a state is read from stands for all attempts on its pilot. */
  lemma RowStandsForPilot(c: Configuration, s: seq<Attempt>, row: ScenarioRow)
    requires Describes(c, s) && row in c.rows && !TwoPacks(s, row.scenario.pilot)
    ensures Of(s, row.scenario) == On(s, row.scenario.pilot)
    ensures (set a | a in On(s, row.scenario.pilot) :: a.pack) == {row.scenario.pack}
  {
    var one := Of(s, row.scenario)[0];
    assert one in Of(s, row.scenario);
    OnePackOf(s, row.scenario);
  }

  /** The state read off the scenario rows is the standing of the attempts. */
  lemma FirstStateIsStanding(c: Configuration, s: seq<Attempt>, pilot: Id)
    requires Describes(c, s)
    ensures FirstState(c, pilot) == Standing(s, pilot)
  {
    RowScenarios(c, s, pilot);
    var rows, mine := RowsFor(c.rows, pilot), On(s, pilot);
    if !TwoPacks(s, pilot) && mine != [] {
      var row := rows[0];
      assert row in rows;
      RowStandsForPilot(c, s, row);
      CountsMean(mine);
      assert row == RowFor(s, row.scenario);
    }
  }

  // ----- gates in terms of the attempts -----

  lemma {:induction false} CompleteOfOneRow(rows: seq<ScenarioRow>, pilot: Id, i: nat)
    requires i < |rows| && rows[i].scenario.pilot == pilot
    requires forall j :: 0 <= j < |rows| && j != i ==> rows[j].scenario.pilot != pilot
    ensures CompleteFor(rows, pilot) == rows[i].complete
    decreases |rows|
  {
    var init := rows[..|rows| - 1];
    if i == |rows| - 1 {
      CompleteOfNone(init, pilot);
    } else {
      CompleteOfOneRow(init, pilot, i);
    }
  }

  lemma {:induction false} CompleteOfNone(rows: seq<ScenarioRow>, pilot: Id)
    requires forall j :: 0 <= j < |rows| ==> rows[j].scenario.pilot != pilot
    ensures CompleteFor(rows, pilot) == 0
    decreases |rows|
  {
    if rows != [] { CompleteOfNone(rows[..|rows| - 1], pilot); }
  }

  lemma CompleteOnPilot(c: Configuration, s: seq<Attempt>, pilot: Id)
    requires Describes(c, s) && !TwoPacks(s, pilot) && On(s, pilot) != []
    ensures CompleteFor(c.rows, pilot) == CompleteIn(On(s, pilot))
  {
    var one := On(s, pilot)[0];
    assert one in On(s, pilot);
    var i :| 0 <= i < |c.rows| && c.rows[i].scenario == Scenario(one.pilot, one.pack);
    RowStandsForPilot(c, s, c.rows[i]);
    forall j | 0 <= j < |c.rows| && j != i ensures c.rows[j].scenario.pilot != pilot {
      if c.rows[j].scenario.pilot == pilot {
        RowStandsForPilot(c, s, c.rows[j]);
      }
    }
    CompleteOfOneRow(c.rows, pilot, i);
  }

  /** Every attempt is on a required pilot, as loading an attempt enforces. */
  ghost predicate OnKnownPilots(s: seq<Attempt>, pilots: seq<Id>) {
    forall a :: a in s ==> a.pilot in pilots
  }

  ghost predicate AllStandReady(s: seq<Attempt>, pilots: seq<Id>) {
    forall p :: p in pilots ==> Standing(s, p).status == Ready
  }

  lemma GatesMeanStanding(c: Configuration, s: seq<Attempt>, pilots: seq<Id>)
    requires Describes(c, s) && OnKnownPilots(s, pilots)
    ensures AllHold(GatesOf(c, s, pilots)) <==> AllStandReady(s, pilots)
  {
    if AllHold(GatesOf(c, s, pilots)) {
      forall p | p in pilots ensures Standing(s, p).status == Ready {
        GatedPilotIsReady(c, s, pilots, p);
      }
    }
    if AllStandReady(s, pilots) {
      ReadyPilotsPassTheGates(c, s, pilots);
    }
  }

  /** The coverage gates all hold exactly when every required pilot stands ready. */
  lemma GatesMeanAllReady(c: Configuration, s: seq<Attempt>, pilots: seq<Id>)
    requires Describes(c, s) && OnKnownPilots(s, pilots)
    ensures AllHold(GatesOf(c, s, pilots)) <==> forall p :: p in pilots ==> FirstState(c, p).status == Ready
  {
    GatesMeanStanding(c, s, pilots);
    forall p | p in pilots ensures FirstState(c, p).status == Standing(s, p).status {
      FirstStateIsStanding(c, s, p);
    }
  }

  lemma GatedPilotIsReady(c: Configuration, s: seq<Attempt>, pilots: seq<Id>, p: Id)
    requires Describes(c, s) && p in pilots && AllHold(GatesOf(c, s, pilots))
    ensures Standing(s, p).status == Ready
  {
    ObservedOn(c, s, p);
    assert p !in c.ambiguous;
    CompleteOnPilot(c, s, p);
    CountsMean(On(s, p));
  }

  lemma ObservedOn(c: Configuration, s: seq<Attempt>, p: Id)
    requires Describes(c, s) && PacksFor(c.rows, p) != {}
    ensures On(s, p) != []
  {
    PacksOfAttempts(c.rows, s, p);
    var pack :| pack in PacksFor(c.rows, p);
    var a :| a in s && a.pilot == p && a.pack == pack;
    assert a in On(s, p);
  }

  lemma ReadyPilotsPassTheGates(c: Configuration, s: seq<Attempt>, pilots: seq<Id>)
    requires Describes(c, s) && OnKnownPilots(s, pilots)
    requires AllStandReady(s, pilots)
    ensures AllHold(GatesOf(c, s, pilots))
  {
    forall p | p in pilots ensures PacksFor(c.rows, p) != {} && CompleteFor(c.rows, p) >= COMPLETE_REPEATS {
      PacksOfAttempts(c.rows, s, p);
      assert On(s, p)[0] in On(s, p);
      assert On(s, p)[0].pack in PacksFor(c.rows, p);
      CompleteOnPilot(c, s, p);
      CountsMean(On(s, p));
    }
    forall a | a in s ensures Clean(a) {
      assert a in On(s, a.pilot);
      assert Standing(s, a.pilot).status == Ready;
    }
    forall p ensures p !in c.ambiguous {
      assert p in pilots ==> !TwoPacks(s, p);
    }
  }
}
