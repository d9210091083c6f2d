/**
  A three-turn Round 5 attempt: the turn loop, the stop reason and the grade it writes
  (src/llm_hardtest/round5.py:230-405).
 */
module PilotRun {
  import opened Numbers
  import opened Sequences
  import opened Dictionaries
  import Bundles

  type Id = Bundles.Id

  /** Workspace files by name, with the hash of each. */
  type Snapshot = map<Id, Id>

  datatype Content = Absent | Blank | Text

  datatype Termination = Unstated | TimeLimit | ToolLoop | OtherCause

  datatype Sandbox = ReadOnly | WorkspaceWrite

  /** What an agent returns for one turn, the unsupported calls in its transcript, and the files it leaves. */
  datatype Response = Response(
    session: Option<Id>, content: Content, timedOut: bool, aborted: bool, termination: Termination,
    returncode: Option<int>, sandbox: Sandbox, calls: seq<Id>, files: Snapshot)

  /** The record the attempt keeps of a turn. */
  datatype Turn = Turn(
    session: Option<Id>, content: Content, timedOut: bool, aborted: bool, termination: Termination,
    returncode: Option<int>, sandbox: Sandbox, outputValid: bool, calls: nat, names: set<Id>)

  function RecordOf(r: Response): Turn {
    Turn(r.session, r.content, r.timedOut, r.aborted, r.termination, r.returncode, r.sandbox,
         r.content.Text?, |r.calls|, set name | name in r.calls)
  }

  const TURNS: nat := 3

  function SandboxFor(turn: nat): Sandbox {
    if turn + 1 < TURNS then ReadOnly else WorkspaceWrite
  }

  // ----- changed files -----

  function Changed(before: Snapshot, after: Snapshot): set<Id> {
    set name | name in before.Keys + after.Keys && Lookup(before, name) != Lookup(after, name)
  }

  lemma UnchangedMeansSame(before: Snapshot, after: Snapshot)
    ensures Changed(before, after) == {} <==> before == after
  {
    if Changed(before, after) == {} {
      forall name: Id ensures Lookup(before, name) == Lookup(after, name) {
        if name in before.Keys + after.Keys { assert name !in Changed(before, after); }
      }
      forall name: Id ensures name in before <==> name in after {
        assert Lookup(before, name) == Lookup(after, name);
      }
      forall name | name in before ensures before[name] == after[name] {
        assert Lookup(before, name) == Lookup(after, name);
      }
    }
  }

  // ----- stop reasons -----

  datatype StopReason =
    UnsupportedToolLoop | Timeout | AgentExit | MissingSession | EmptyOutput | PreapprovalEdit | IncompleteTurns

  predicate Delivered(t: Turn) {
    t.returncode == Some(0) && !t.timedOut && t.outputValid
  }

  predicate Complete(turns: seq<Turn>) {
    |turns| == TURNS && forall i :: 0 <= i < |turns| ==> Delivered(turns[i])
  }

  function Problem(t: Turn): Option<StopReason> {
    if t.aborted then Some(UnsupportedToolLoop)
    else if t.timedOut then Some(Timeout)
    else if t.returncode != Some(0) then Some(AgentExit)
    else if t.session.None? then Some(MissingSession)
    else if !t.outputValid then Some(EmptyOutput)
    else None
  }

  function FirstProblem(turns: seq<Turn>): Option<StopReason> {
    if turns == [] then None
    else if Problem(turns[0]).Some? then Problem(turns[0])
    else FirstProblem(turns[1..])
  }

  function StopReasonOf(turns: seq<Turn>, edited: bool): Option<StopReason> {
    if Complete(turns) then None
    else if FirstProblem(turns).Some? then FirstProblem(turns)
    else if edited then Some(PreapprovalEdit)
    else Some(IncompleteTurns)
  }

  lemma {:induction false} FirstProblemAt(turns: seq<Turn>, i: nat)
    requires i < |turns| && forall j :: 0 <= j < i ==> Problem(turns[j]).None?
    ensures Problem(turns[i]).Some? ==> FirstProblem(turns) == Problem(turns[i])
    decreases i
  {
    if i > 0 {
      assert Problem(turns[0]).None?;
      FirstProblemAt(turns[1..], i - 1);
    }
  }

  lemma {:induction false} NoProblem(turns: seq<Turn>)
    ensures FirstProblem(turns).None? <==> forall i :: 0 <= i < |turns| ==> Problem(turns[i]).None?
    decreases |turns|
  {
    if turns != [] {
      NoProblem(turns[1..]);
      assert forall i :: 0 <= i < |turns[1..]| ==> turns[1..][i] == turns[i + 1];
      if forall i :: 0 <= i < |turns[1..]| ==> Problem(turns[1..][i]).None? {
        assert forall i :: 1 <= i < |turns| ==> turns[i] == turns[1..][i - 1];
      }
    }
  }

  // ----- the turn loop -----

  /** Some agent turn so far has named a session. */
  ghost predicate SessionKnown(agent: seq<Response>, n: nat)
    requires n <= |agent|
  {
    exists j :: 0 <= j < n && agent[j].session.Some?
  }

  /** After this turn the attempt goes on: delivered, in a known session, without an early edit. */
  ghost predicate Proceeds(agent: seq<Response>, before: Snapshot, i: nat)
    requires i < |agent|
  {
    && Delivered(RecordOf(agent[i]))
    && SessionKnown(agent, i + 1)
    && (i + 1 < TURNS ==> agent[i].files == before)
  }

  /** The turns an attempt keeps: up to the first that does not proceed, and at most three. */
  ghost predicate Ran(agent: seq<Response>, before: Snapshot, turns: seq<Turn>, snapshots: seq<Snapshot>) {
    && 1 <= |turns| <= TURNS && |turns| <= |agent| && |snapshots| == |turns|
    && (forall i :: 0 <= i < |turns| ==> turns[i] == RecordOf(agent[i]))
    && (forall i :: 0 <= i < |turns| ==> snapshots[i] == agent[i].files)
    && (forall i :: 0 <= i < |turns| - 1 ==> Proceeds(agent, before, i))
    && (|turns| == TURNS || !Proceeds(agent, before, |turns| - 1))
  }

  /** The loop over the prompts, for whatever the agent answers. */
  method RunTurns(agent: seq<Response>, before: Snapshot) returns (turns: seq<Turn>, snapshots: seq<Snapshot>)
    requires |agent| == TURNS
    ensures Ran(agent, before, turns, snapshots)
  {
    var session: Option<Id> := None;
    turns, snapshots := [], [];
    for number := 0 to TURNS
      invariant |turns| == |snapshots| == number
      invariant forall i :: 0 <= i < number ==> turns[i] == RecordOf(agent[i])
      invariant forall i :: 0 <= i < number ==> snapshots[i] == agent[i].files
      invariant session.Some? <==> SessionKnown(agent, number)
      invariant forall i :: 0 <= i < number ==> Proceeds(agent, before, i)
    {
      var result := agent[number];
      session := if result.session.Some? then result.session else session;
      var record := RecordOf(result);
      turns := turns + [record];
      snapshots := snapshots + [result.files];
      UnchangedMeansSame(before, result.files);
      var preapprovalChanged := number + 1 < TURNS && Changed(before, result.files) != {};
      if result.returncode != Some(0) || result.timedOut || session.None? || !record.outputValid || preapprovalChanged {
        break;
      }
    }
  }

  // ----- the grade -----

  datatype Score = Score(passed: int, total: int, timedOut: bool)

  datatype Grade = Grade(
    complete: bool, stop: Option<StopReason>, aborted: bool, turnsCompleted: int,
    noEdit: bool, clean: bool, calls: int, names: set<Id>,
    public: Score, hidden: Score, releaseReady: bool, turns: seq<Turn>)

  predicate AllPassed(s: Score) {
    s.total > 0 && s.passed == s.total
  }

  predicate AnyAborted(turns: seq<Turn>) {
    exists i :: 0 <= i < |turns| && turns[i].aborted
  }

  function CallsOf(turns: seq<Turn>): nat {
    if turns == [] then 0 else CallsOf(turns[..|turns| - 1]) + turns[|turns| - 1].calls
  }

  function NamesOf(turns: seq<Turn>): set<Id> {
    set i, name | 0 <= i < |turns| && name in turns[i].names :: name
  }

  /** Files changed in any snapshot taken before approval. */
  function EarlyEdits(before: Snapshot, snapshots: seq<Snapshot>): set<Id> {
    (if |snapshots| > 0 then Changed(before, snapshots[0]) else {})
    + (if |snapshots| > 1 then Changed(before, snapshots[1]) else {})
  }

  function GradeOf(turns: seq<Turn>, before: Snapshot, snapshots: seq<Snapshot>, public: Score, hidden: Score): Grade {
    var noEdit := EarlyEdits(before, snapshots) == {};
    Grade(Complete(turns), StopReasonOf(turns, !noEdit), AnyAborted(turns), |turns|,
          noEdit, CallsOf(turns) == 0, CallsOf(turns), NamesOf(turns), public, hidden,
          Complete(turns) && noEdit && AllPassed(public) && AllPassed(hidden), turns)
  }

  method RunAttempt(agent: seq<Response>, before: Snapshot, public: Score, hidden: Score)
    returns (grade: Grade, snapshots: seq<Snapshot>)
    requires |agent| == TURNS
    ensures Ran(agent, before, grade.turns, snapshots)
    ensures grade == GradeOf(grade.turns, before, snapshots, public, hidden)
    ensures grade.complete <==> forall i: nat :: i < TURNS ==> Proceeds(agent, before, i)
    ensures grade.complete ==> grade.stop.None? && grade.noEdit
    ensures grade.stop != Some(IncompleteTurns)
  {
    var turns;
    turns, snapshots := RunTurns(agent, before);
    grade := GradeOf(turns, before, snapshots, public, hidden);
    CompleteIsClean(agent, before, turns, snapshots);
    NeverIncompleteTurns(agent, before, turns, snapshots);
    if grade.complete {
      forall i: nat | i < TURNS ensures Proceeds(agent, before, i) {
        assert Delivered(turns[i]);
        if i == TURNS - 1 { assert Proceeds(agent, before, 0); }
      }
    } else if forall i: nat :: i < TURNS ==> Proceeds(agent, before, i) {
      assert Proceeds(agent, before, |turns| - 1);
      assert forall i: nat :: i < TURNS ==> Proceeds(agent, before, i) ==> Delivered(RecordOf(agent[i]));
    }
  }

  // ----- what every run keeps -----

  lemma NoEditMeans(agent: seq<Response>, before: Snapshot, turns: seq<Turn>, snapshots: seq<Snapshot>)
    requires Ran(agent, before, turns, snapshots)
    ensures EarlyEdits(before, snapshots) == {}
       <==> forall i :: 0 <= i < |turns| && i + 1 < TURNS ==> agent[i].files == before
  {
    UnchangedMeansSame(before, snapshots[0]);
    if |snapshots| > 1 { UnchangedMeansSame(before, snapshots[1]); }
    var edits := EarlyEdits(before, snapshots);
    if edits == {} {
      assert Changed(before, snapshots[0]) <= edits;
      assert |snapshots| > 1 ==> Changed(before, snapshots[1]) <= edits;
    }
  }

  /** A complete attempt edited nothing before approval. */
  lemma CompleteIsClean(agent: seq<Response>, before: Snapshot, turns: seq<Turn>, snapshots: seq<Snapshot>)
    requires Ran(agent, before, turns, snapshots)
    ensures Complete(turns) ==> EarlyEdits(before, snapshots) == {}
  {
    NoEditMeans(agent, before, turns, snapshots);
    if Complete(turns) {
      assert Proceeds(agent, before, 0) && Proceeds(agent, before, 1);
    }
  }

  /** Every attempt that is not complete names a cause. */
  lemma NeverIncompleteTurns(agent: seq<Response>, before: Snapshot, turns: seq<Turn>, snapshots: seq<Snapshot>)
    requires Ran(agent, before, turns, snapshots)
    ensures StopReasonOf(turns, EarlyEdits(before, snapshots) != {}) != Some(IncompleteTurns)
  {
    NoEditMeans(agent, before, turns, snapshots);
    NoProblem(turns);
    FirstProblemKinds(turns);
    var last := |turns| - 1;
    if !Complete(turns) && FirstProblem(turns).None? {
      assert Problem(turns[last]).None?;
      assert turns[last] == RecordOf(agent[last]);
      assert SessionKnown(agent, last + 1);
      if |turns| < TURNS {
        assert !Proceeds(agent, before, last);
      }
    }
  }

  lemma {:induction false} FirstProblemKinds(turns: seq<Turn>)
    ensures FirstProblem(turns) != Some(IncompleteTurns) && FirstProblem(turns) != Some(PreapprovalEdit)
    decreases |turns|
  {
    if turns != [] { FirstProblemKinds(turns[1..]); }
  }

  /** An agent that keeps reporting a session once it has one. */
  ghost predicate EchoesSession(agent: seq<Response>) {
    forall j, i :: 0 <= j < i < |agent| && agent[j].session.Some? ==> agent[i].session.Some?
  }

  /** A turn stopped by the protocol guard does not exit with zero. */
  ghost predicate AbortsFail(agent: seq<Response>) {
    forall i :: 0 <= i < |agent| && agent[i].aborted ==> agent[i].returncode != Some(0)
  }

  lemma EchoedTurnsAreClean(agent: seq<Response>, before: Snapshot, turns: seq<Turn>, snapshots: seq<Snapshot>, i: nat)
    requires Ran(agent, before, turns, snapshots) && EchoesSession(agent)
    requires i < |turns| - 1
    ensures Problem(turns[i]).Some? ==> turns[i].aborted
  {
    assert Proceeds(agent, before, i);
    var j :| 0 <= j < i + 1 && agent[j].session.Some?;
    assert agent[i].session.Some?;
  }

  /** Under both habits the stop reason speaks of the last turn alone. */
  lemma StopReasonNamesTheLastTurn(agent: seq<Response>, before: Snapshot, turns: seq<Turn>, snapshots: seq<Snapshot>)
    requires Ran(agent, before, turns, snapshots) && EchoesSession(agent) && AbortsFail(agent)
    ensures
      var last := Problem(turns[|turns| - 1]);
      StopReasonOf(turns, EarlyEdits(before, snapshots) != {})
        == (if Complete(turns) then None else if last.Some? then last else Some(PreapprovalEdit))
  {
    var last := |turns| - 1;
    forall i | 0 <= i < last ensures Problem(turns[i]).None? {
      EchoedTurnsAreClean(agent, before, turns, snapshots, i);
      assert Proceeds(agent, before, i);
    }
    FirstProblemAt(turns, last);
    NoProblem(turns);
    NeverIncompleteTurns(agent, before, turns, snapshots);
  }

  // ----- what the grade says -----

  /** Nothing is wrong with this turn. */
  ghost predicate Untroubled(t: Turn) {
    !t.aborted && !t.timedOut && t.returncode == Some(0) && t.session.Some? && t.outputValid
  }

  /** The first troubled turn of an incomplete attempt gives the stop reason: a guard stop before a time-out, a
      time-out before an exit code, that before a missing session, that before an empty answer. */
  lemma StopReasonMeans(turns: seq<Turn>, edited: bool, i: nat)
    requires !Complete(turns) && i < |turns| && !Untroubled(turns[i]) && forall j :: 0 <= j < i ==> Untroubled(turns[j])
    ensures
      var t, stop := turns[i], StopReasonOf(turns, edited);
      && (stop == Some(UnsupportedToolLoop) <==> t.aborted)
      && (stop == Some(Timeout) <==> !t.aborted && t.timedOut)
      && (stop == Some(AgentExit) <==> !t.aborted && !t.timedOut && t.returncode != Some(0))
      && (stop == Some(MissingSession) <==>
            !t.aborted && !t.timedOut && t.returncode == Some(0) && t.session.None?)
      && (stop == Some(EmptyOutput) <==>
            !t.aborted && !t.timedOut && t.returncode == Some(0) && t.session.Some? && !t.outputValid)
  {
    FirstProblemAt(turns, i);
  }

  /** Without a troubled turn an incomplete attempt was stopped by an early edit, or nothing names the cause. */
  lemma NoTroubleMeans(turns: seq<Turn>, edited: bool)
    requires !Complete(turns) && forall j :: 0 <= j < |turns| ==> Untroubled(turns[j])
    ensures StopReasonOf(turns, edited) == Some(if edited then PreapprovalEdit else IncompleteTurns)
  {
    NoProblem(turns);
  }

  function CallsIn(r: Response): seq<Id> { r.calls }

  /** All unsupported calls of the first n turns, in order. */
  function AllCalls(agent: seq<Response>, n: nat): seq<Id>
    requires n <= |agent|
  {
    Flat(agent[..n], CallsIn)
  }

  lemma {:induction false} CallsAreAll(agent: seq<Response>, turns: seq<Turn>)
    requires |turns| <= |agent| && forall i :: 0 <= i < |turns| ==> turns[i] == RecordOf(agent[i])
    ensures CallsOf(turns) == |AllCalls(agent, |turns|)|
    ensures forall name :: name in NamesOf(turns) <==> name in AllCalls(agent, |turns|)
    decreases |turns|
  {
    if turns != [] {
      var n := |turns| - 1;
      CallsAreAll(agent, turns[..n]);
      assert agent[..n + 1][..n] == agent[..n];
      assert AllCalls(agent, n + 1) == AllCalls(agent, n) + agent[n].calls;
      NamesNext(turns);
    }
  }

  lemma NamesNext(turns: seq<Turn>)
    requires turns != []
    ensures NamesOf(turns) == NamesOf(turns[..|turns| - 1]) + turns[|turns| - 1].names
  {
  }

  /** Every field of the grade a run writes, in terms of what the agent did in the turns kept. */
  lemma GradeMeans(agent: seq<Response>, before: Snapshot, turns: seq<Turn>, snapshots: seq<Snapshot>,
                   public: Score, hidden: Score)
    requires |agent| == TURNS && Ran(agent, before, turns, snapshots)
    ensures
      var grade, calls := GradeOf(turns, before, snapshots, public, hidden), AllCalls(agent, |turns|);
      && grade.turns == turns && grade.turnsCompleted == |turns|
      && (grade.noEdit <==> forall i :: 0 <= i < |turns| && i < 2 ==> agent[i].files == before)
      && (grade.aborted <==> exists i :: 0 <= i < |turns| && agent[i].aborted)
      && grade.calls == |calls| && (grade.clean <==> calls == [])
      && (forall name :: name in grade.names <==> name in calls)
      && grade.public == public && grade.hidden == hidden
      && (grade.releaseReady <==>
            grade.complete && grade.noEdit && public.passed == public.total > 0 && hidden.passed == hidden.total > 0)
  {
    NoEditMeans(agent, before, turns, snapshots);
    CallsAreAll(agent, turns);
    var grade := GradeOf(turns, before, snapshots, public, hidden);
    if grade.aborted {
      var i :| 0 <= i < |turns| && turns[i].aborted;
      assert agent[i].aborted;
    }
    if i :| 0 <= i < |turns| && agent[i].aborted {
      assert turns[i].aborted;
    }
  }
}
