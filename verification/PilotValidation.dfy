/**
  The two checkers of a Round 5 grade: the raw-evidence validator
  (src/llm_hardtest/pilot_analysis.py:129-251) and the public row validator
  (src/llm_hardtest/public_pilots.py:209-258), written independently of the run.
 */
module PilotValidation {
  import opened Numbers
  import opened PilotRun

  const CALL_THRESHOLD: nat := 3

  // ----- the raw-evidence validator -----

  predicate ValidScore(s: Score) {
    0 <= s.passed <= s.total
  }

  /** Transport and sandbox metadata of the turn with index i. */
  predicate TurnConsistent(t: Turn, i: nat) {
    && t.returncode.Some? && t.content != Absent && t.sandbox == SandboxFor(i)
    && t.outputValid == t.content.Text?
    && t.termination != OtherCause
    && t.aborted == (t.termination == ToolLoop)
  }

  /** The validator's own reading of a delivered turn, from the content itself. */
  predicate Transported(t: Turn) {
    t.returncode == Some(0) && !t.timedOut && t.content.Text?
  }

  function CallCount(transcripts: seq<seq<Id>>): nat {
    if transcripts == [] then 0 else CallCount(transcripts[..|transcripts| - 1]) + |transcripts[|transcripts| - 1]|
  }

  function CallNames(transcripts: seq<seq<Id>>): set<Id> {
    set i, name | 0 <= i < |transcripts| && name in transcripts[i] :: name
  }

  predicate TransportComplete(turns: seq<Turn>) {
    |turns| == TURNS && forall i :: 0 <= i < |turns| ==> Transported(turns[i])
  }

  /** Everything the validator holds a grade to, given the unsupported calls in each saved transcript. */
  ghost predicate RawConsistent(g: Grade, transcripts: seq<seq<Id>>) {
    && 0 <= g.turnsCompleted <= TURNS && g.turnsCompleted <= |transcripts|
    && ValidScore(g.public) && ValidScore(g.hidden)
    && g.calls == CallCount(transcripts[..g.turnsCompleted])
    && g.names == CallNames(transcripts[..g.turnsCompleted])
    && g.clean == (g.calls == 0)
    && |g.turns| == g.turnsCompleted
    && (forall i :: 0 <= i < |g.turns| ==> TurnConsistent(g.turns[i], i))
    && g.complete == TransportComplete(g.turns)
    && (forall i :: 0 <= i < |g.turns| && g.turns[i].aborted ==> |transcripts[i]| >= CALL_THRESHOLD)
    && g.aborted == AnyAborted(g.turns)
    && g.stop == StopReasonOf(g.turns, !g.noEdit)
    && g.releaseReady == (TransportComplete(g.turns) && g.noEdit && AllPassed(g.public) && AllPassed(g.hidden))
  }

  datatype PublicRow = PublicRow(
    attempt: int, complete: bool, turns: int, noEdit: bool, clean: bool, calls: int,
    aborted: bool, stop: Option<StopReason>, public: Score, hidden: Score, releaseReady: bool)

  function RowOf(g: Grade, attempt: int): PublicRow {
    PublicRow(attempt, g.complete, g.turnsCompleted, g.noEdit, g.clean, g.calls,
              g.aborted, g.stop, g.public, g.hidden, g.releaseReady)
  }

  method CountProtocolErrors(transcripts: seq<seq<Id>>) returns (count: nat, names: set<Id>)
    ensures count == CallCount(transcripts) && names == CallNames(transcripts)
  {
    count, names := 0, {};
    for n := 0 to |transcripts|
      invariant count == CallCount(transcripts[..n]) && names == CallNames(transcripts[..n])
    {
      count := count + |transcripts[n]|;
      names := names + set name | name in transcripts[n];
      assert transcripts[..n + 1][..n] == transcripts[..n];
      assert names == CallNames(transcripts[..n + 1]);
    }
    assert transcripts[..|transcripts|] == transcripts;
  }

  method CheckTurns(turns: seq<Turn>) returns (ok: bool, transported: bool)
    ensures ok <==> forall i :: 0 <= i < |turns| ==> TurnConsistent(turns[i], i)
    ensures ok ==> (transported <==> forall i :: 0 <= i < |turns| ==> Transported(turns[i]))
  {
    ok, transported := true, true;
    for index := 0 to |turns|
      invariant ok && forall i :: 0 <= i < index ==> TurnConsistent(turns[i], i)
      invariant transported <==> forall i :: 0 <= i < index ==> Transported(turns[i])
    {
      if !TurnConsistent(turns[index], index) {
        ok := false;
        return;
      }
      transported := transported && Transported(turns[index]);
    }
  }

  /** None is a raised contradiction; otherwise the row recomputed from the evidence. */
  method ValidateGrade(g: Grade, transcripts: seq<seq<Id>>, attempt: int) returns (row: Option<PublicRow>)
    ensures row.Some? <==> RawConsistent(g, transcripts)
    ensures row.Some? ==> row.value == RowOf(g, attempt)
  {
    row := None;
    if !(0 <= g.turnsCompleted <= TURNS && g.turnsCompleted <= |transcripts|) { return; }
    if !(ValidScore(g.public) && ValidScore(g.hidden)) { return; }
    var count, names := CountProtocolErrors(transcripts[..g.turnsCompleted]);
    if g.calls != count || g.names != names || g.clean != (count == 0) { return; }
    if |g.turns| != g.turnsCompleted { return; }
    var ok, transported := CheckTurns(g.turns);
    if !ok { return; }
    var transportComplete := g.turnsCompleted == TURNS && transported;
    if g.complete != transportComplete { return; }
    for index := 0 to |g.turns|
      invariant forall i :: 0 <= i < index && g.turns[i].aborted ==> |transcripts[i]| >= CALL_THRESHOLD
    {
      if g.turns[index].aborted && |transcripts[index]| < CALL_THRESHOLD { return; }
    }
    var aborted, stop := AnyAborted(g.turns), StopReasonOf(g.turns, !g.noEdit);
    if g.aborted != aborted || g.stop != stop { return; }
    if g.releaseReady != (transportComplete && g.noEdit && AllPassed(g.public) && AllPassed(g.hidden)) { return; }
    row := Some(PublicRow(attempt, g.complete, g.turnsCompleted, g.noEdit, count == 0, count,
                          aborted, stop, g.public, g.hidden, g.releaseReady));
  }

  // ----- the public validator -----

  predicate PublicConsistent(r: PublicRow) {
    && r.attempt >= 1
    && 0 <= r.turns <= TURNS && (r.complete ==> r.turns == TURNS)
    && r.calls >= 0 && r.clean == (r.calls == 0)
    && r.aborted == (r.stop == Some(UnsupportedToolLoop))
    && (r.aborted ==> r.calls >= CALL_THRESHOLD)
    && r.complete == r.stop.None?
    && ValidScore(r.public) && ValidScore(r.hidden)
    && r.releaseReady == (r.complete && r.noEdit && AllPassed(r.public) && AllPassed(r.hidden))
  }

  method ValidateAttempts(rows: seq<PublicRow>) returns (ok: bool)
    ensures ok <==>
      && rows != []
      && (forall i :: 0 <= i < |rows| ==> PublicConsistent(rows[i]))
      && (forall i, j :: 0 <= i < j < |rows| ==> rows[i].attempt != rows[j].attempt)
  {
    ok := false;
    if rows == [] { return; }
    var seen: set<int> := {};
    for n := 0 to |rows|
      invariant forall i :: 0 <= i < n ==> PublicConsistent(rows[i]) && rows[i].attempt in seen
      invariant forall a :: a in seen ==> exists i :: 0 <= i < n && rows[i].attempt == a
      invariant forall i, j :: 0 <= i < j < n ==> rows[i].attempt != rows[j].attempt
    {
      if rows[n].attempt in seen || !PublicConsistent(rows[n]) { return; }
      seen := seen + {rows[n].attempt};
    }
    ok := true;
  }

  // ----- what acceptance pins down -----

  /** Accepted grades over the same turns, evidence and test results agree on everything else. */
  lemma AcceptedGradesAreDetermined(a: Grade, b: Grade, transcripts: seq<seq<Id>>)
    requires RawConsistent(a, transcripts) && RawConsistent(b, transcripts)
    requires a.turns == b.turns && a.noEdit == b.noEdit && a.public == b.public && a.hidden == b.hidden
    ensures a == b
  {
  }

  /** In an accepted grade there are at most three turns, of which only the third could write; none lacks its exit
      code or its answer or names a cause that the guards do not have, and a stopped one shows three calls. */
  lemma AcceptedTurns(g: Grade, transcripts: seq<seq<Id>>, i: nat)
    requires RawConsistent(g, transcripts) && i < |g.turns|
    ensures
      var t := g.turns[i];
      && (t.sandbox == WorkspaceWrite <==> i == 2)
      && t.returncode.Some? && (t.content == Text || t.content == Blank)
      && (t.outputValid <==> t.content == Text)
      && (t.aborted <==> t.termination == ToolLoop)
      && (!t.aborted ==> t.termination == Unstated || t.termination == TimeLimit)
      && i < 3 && i < |transcripts| && (t.aborted ==> |transcripts[i]| >= 3)
  {
    assert TurnConsistent(g.turns[i], i);
  }

  /** Accepted public rows with the same stop reason, turns, calls, edits and test results are equal. */
  lemma AcceptedRowsAreDetermined(a: PublicRow, b: PublicRow)
    requires PublicConsistent(a) && PublicConsistent(b)
    requires a.attempt == b.attempt && a.stop == b.stop && a.turns == b.turns && a.calls == b.calls
    requires a.noEdit == b.noEdit && a.public == b.public && a.hidden == b.hidden
    ensures a == b
  {
  }

  /** The first turn with a problem is one the protocol guard stopped. */
  ghost predicate AbortLeads(turns: seq<Turn>) {
    exists i :: 0 <= i < |turns| && turns[i].aborted && forall j :: 0 <= j < i ==> Problem(turns[j]).None?
  }

  lemma {:induction false} LoopMeansAbortLeads(turns: seq<Turn>)
    ensures FirstProblem(turns) == Some(UnsupportedToolLoop) <==> AbortLeads(turns)
    decreases |turns|
  {
    if AbortLeads(turns) {
      var i :| 0 <= i < |turns| && turns[i].aborted && forall j :: 0 <= j < i ==> Problem(turns[j]).None?;
      FirstProblemAt(turns, i);
    }
    if FirstProblem(turns) == Some(UnsupportedToolLoop) && !turns[0].aborted {
      var rest := turns[1..];
      LoopMeansAbortLeads(rest);
      if Problem(turns[0]).None? {
        var i :| 0 <= i < |rest| && rest[i].aborted && forall j :: 0 <= j < i ==> Problem(rest[j]).None?;
        LeadsOneLater(turns, i);
      }
    }
  }

  lemma LeadsOneLater(turns: seq<Turn>, i: nat)
    requires |turns| > 0 && i < |turns[1..]| && turns[1..][i].aborted && Problem(turns[0]).None?
    requires forall j :: 0 <= j < i ==> Problem(turns[1..][j]).None?
    ensures AbortLeads(turns)
  {
    assert turns[i + 1].aborted;
    assert forall j :: 0 < j < i + 1 ==> turns[j] == turns[1..][j - 1];
  }

  lemma {:induction false} OneTurnsCalls(transcripts: seq<seq<Id>>, i: nat)
    requires i < |transcripts|
    ensures |transcripts[i]| <= CallCount(transcripts)
    decreases |transcripts|
  {
    if i < |transcripts| - 1 { OneTurnsCalls(transcripts[..|transcripts| - 1], i); }
  }

  lemma CompleteAsTransported(turns: seq<Turn>)
    requires forall i :: 0 <= i < |turns| ==> TurnConsistent(turns[i], i)
    ensures TransportComplete(turns) <==> Complete(turns)
  {
    if Complete(turns) {
      assert forall i :: 0 <= i < |turns| ==> Delivered(turns[i]) ==> Transported(turns[i]);
    }
    if TransportComplete(turns) {
      assert forall i :: 0 <= i < |turns| ==> Transported(turns[i]) ==> Delivered(turns[i]);
    }
  }

  /** Of the raw validator's accepted grades, the public one refuses exactly those whose protocol abort
      is not what stopped the attempt. */
  lemma ExportPassesExactly(g: Grade, transcripts: seq<seq<Id>>, attempt: int)
    requires RawConsistent(g, transcripts) && attempt >= 1
    ensures PublicConsistent(RowOf(g, attempt))
       <==> (AnyAborted(g.turns) ==> !g.complete && AbortLeads(g.turns))
  {
    CompleteAsTransported(g.turns);
    LoopMeansAbortLeads(g.turns);
    if AnyAborted(g.turns) {
      var i :| 0 <= i < |g.turns| && g.turns[i].aborted;
      OneTurnsCalls(transcripts[..g.turnsCompleted], i);
    } else {
      assert !AbortLeads(g.turns);
    }
  }

  // ----- every run passes both -----

  /** What the agent's transport promises of each turn, besides its exit code and session. */
  ghost predicate WellFormed(agent: seq<Response>) {
    forall i :: 0 <= i < |agent| ==> TurnConsistent(RecordOf(agent[i]), i)
  }

  /** An aborted turn's transcript shows the calls that aborted it. */
  ghost predicate AbortsAreEvidenced(agent: seq<Response>) {
    forall i :: 0 <= i < |agent| && agent[i].aborted ==> |agent[i].calls| >= CALL_THRESHOLD
  }

  function Transcripts(agent: seq<Response>): (r: seq<seq<Id>>)
    ensures |r| == |agent| && forall i :: 0 <= i < |r| ==> r[i] == agent[i].calls
  {
    seq(|agent|, i requires 0 <= i < |agent| => agent[i].calls)
  }

  lemma {:induction false} RecordedCalls(turns: seq<Turn>, transcripts: seq<seq<Id>>)
    requires |turns| == |transcripts|
    requires forall i :: 0 <= i < |turns| ==> turns[i].calls == |transcripts[i]|
    ensures CallsOf(turns) == CallCount(transcripts)
    decreases |turns|
  {
    if turns != [] { RecordedCalls(turns[..|turns| - 1], transcripts[..|turns| - 1]); }
  }

  lemma RecordedNames(turns: seq<Turn>, transcripts: seq<seq<Id>>)
    requires |turns| == |transcripts|
    requires forall i :: 0 <= i < |turns| ==> turns[i].names == set name | name in transcripts[i]
    ensures NamesOf(turns) == CallNames(transcripts)
  {
    forall name | name in NamesOf(turns) ensures name in CallNames(transcripts) {
      var i :| 0 <= i < |turns| && name in turns[i].names;
      assert name in transcripts[i];
    }
    forall name | name in CallNames(transcripts) ensures name in NamesOf(turns) {
      var i :| 0 <= i < |transcripts| && name in transcripts[i];
      assert name in turns[i].names;
    }
  }

  /** Every aborted turn shows the threshold number of calls. */
  ghost predicate Evidenced(turns: seq<Turn>, transcripts: seq<seq<Id>>)
    requires |turns| <= |transcripts|
  {
    forall i :: 0 <= i < |turns| && turns[i].aborted ==> |transcripts[i]| >= CALL_THRESHOLD
  }

  /** A grade over well-formed turns and their transcripts is accepted exactly with that evidence. */
  lemma GradeNeedsTheEvidence(turns: seq<Turn>, before: Snapshot, snapshots: seq<Snapshot>, public: Score,
                              hidden: Score, transcripts: seq<seq<Id>>)
    requires |turns| <= TURNS && |turns| <= |transcripts| && ValidScore(public) && ValidScore(hidden)
    requires forall i :: 0 <= i < |turns| ==> TurnConsistent(turns[i], i)
    requires CallsOf(turns) == CallCount(transcripts[..|turns|]) && NamesOf(turns) == CallNames(transcripts[..|turns|])
    ensures RawConsistent(GradeOf(turns, before, snapshots, public, hidden), transcripts)
       <==> Evidenced(turns, transcripts)
  {
    CompleteAsTransported(turns);
  }

  /** A run's records and its transcripts tell the same. */
  lemma RunRecords(agent: seq<Response>, before: Snapshot, turns: seq<Turn>, snapshots: seq<Snapshot>)
    requires Ran(agent, before, turns, snapshots) && WellFormed(agent)
    ensures forall i :: 0 <= i < |turns| ==> TurnConsistent(turns[i], i)
    ensures CallsOf(turns) == CallCount(Transcripts(agent)[..|turns|])
    ensures NamesOf(turns) == CallNames(Transcripts(agent)[..|turns|])
  {
    var seen := Transcripts(agent)[..|turns|];
    RecordedCalls(turns, seen);
    RecordedNames(turns, seen);
    forall i | 0 <= i < |turns| ensures TurnConsistent(turns[i], i) {
      assert TurnConsistent(RecordOf(agent[i]), i);
    }
  }

  lemma EvidenceOfRun(agent: seq<Response>, before: Snapshot, turns: seq<Turn>, snapshots: seq<Snapshot>)
    requires Ran(agent, before, turns, snapshots)
    ensures Evidenced(turns, Transcripts(agent)) <==> AbortsAreEvidenced(agent[..|turns|])
  {
    var kept := agent[..|turns|];
    forall i | 0 <= i < |turns|
      ensures turns[i].aborted == kept[i].aborted && |Transcripts(agent)[i]| == |kept[i].calls|
    {
      assert turns[i] == RecordOf(agent[i]);
    }
  }

  /** The raw validator refuses what a run wrote exactly when an abort lacks its transcript evidence,
      if all else is well formed. */
  lemma RawNeedsTheEvidence(agent: seq<Response>, before: Snapshot, turns: seq<Turn>, snapshots: seq<Snapshot>,
                            public: Score, hidden: Score)
    requires Ran(agent, before, turns, snapshots)
    requires WellFormed(agent) && ValidScore(public) && ValidScore(hidden)
    ensures RawConsistent(GradeOf(turns, before, snapshots, public, hidden), Transcripts(agent))
       <==> AbortsAreEvidenced(agent[..|turns|])
  {
    RunRecords(agent, before, turns, snapshots);
    EvidenceOfRun(agent, before, turns, snapshots);
    GradeNeedsTheEvidence(turns, before, snapshots, public, hidden, Transcripts(agent));
  }

  /** So it accepts every run whose aborts are evidenced. */
  lemma RunPassesRaw(agent: seq<Response>, before: Snapshot, turns: seq<Turn>, snapshots: seq<Snapshot>, public: Score,
                     hidden: Score)
    requires Ran(agent, before, turns, snapshots)
    requires WellFormed(agent) && AbortsAreEvidenced(agent) && ValidScore(public) && ValidScore(hidden)
    ensures RawConsistent(GradeOf(turns, before, snapshots, public, hidden), Transcripts(agent))
  {
    RawNeedsTheEvidence(agent, before, turns, snapshots, public, hidden);
  }

  /** With sessions echoed, a run's row is refused exactly when a complete attempt holds an aborted turn. */
  lemma EchoedRunsPassExactly(agent: seq<Response>, before: Snapshot, turns: seq<Turn>, snapshots: seq<Snapshot>,
                              public: Score, hidden: Score, attempt: int)
    requires Ran(agent, before, turns, snapshots) && EchoesSession(agent) && attempt >= 1
    requires WellFormed(agent) && AbortsAreEvidenced(agent) && ValidScore(public) && ValidScore(hidden)
    ensures PublicConsistent(RowOf(GradeOf(turns, before, snapshots, public, hidden), attempt))
       <==> !(Complete(turns) && AnyAborted(turns))
  {
    RunPassesRaw(agent, before, turns, snapshots, public, hidden);
    ExportPassesExactly(GradeOf(turns, before, snapshots, public, hidden), Transcripts(agent), attempt);
    if AnyAborted(turns) {
      var i :| 0 <= i < |turns| && turns[i].aborted;
      AbortsLeadEchoedRuns(agent, before, turns, snapshots, i);
    }
  }

  lemma {:induction false} AbortsLeadEchoedRuns(agent: seq<Response>, before: Snapshot, turns: seq<Turn>,
                                                snapshots: seq<Snapshot>, i: nat)
    requires Ran(agent, before, turns, snapshots) && EchoesSession(agent)
    requires i < |turns| && turns[i].aborted
    ensures AbortLeads(turns)
    decreases i
  {
    if j: nat :| j < i && turns[j].aborted {
      AbortsLeadEchoedRuns(agent, before, turns, snapshots, j);
    } else {
      forall j | 0 <= j < i ensures Problem(turns[j]).None? {
        EchoedTurnsAreClean(agent, before, turns, snapshots, j);
      }
    }
  }

  /** Every run of a transport with the stated habits passes both validators. */
  lemma RunPassesBoth(agent: seq<Response>, before: Snapshot, turns: seq<Turn>, snapshots: seq<Snapshot>,
                      public: Score, hidden: Score, attempt: int)
    requires Ran(agent, before, turns, snapshots) && attempt >= 1
    requires EchoesSession(agent) && AbortsFail(agent)
    requires WellFormed(agent) && AbortsAreEvidenced(agent) && ValidScore(public) && ValidScore(hidden)
    ensures
      var grade := GradeOf(turns, before, snapshots, public, hidden);
      RawConsistent(grade, Transcripts(agent)) && PublicConsistent(RowOf(grade, attempt))
  {
    RunPassesRaw(agent, before, turns, snapshots, public, hidden);
    EchoedRunsPassExactly(agent, before, turns, snapshots, public, hidden, attempt);
  }

  // ----- each habit is needed -----

  function Calm(turn: nat): Response {
    Response(Some(Bundles.Id(1)), Text, false, false, Unstated, Some(0), SandboxFor(turn), [], map[])
  }

  function Stopped(turn: nat, returncode: int): Response {
    var call := Bundles.Id(2);
    Response(Some(Bundles.Id(1)), Text, false, true, ToolLoop, Some(returncode), SandboxFor(turn),
             [call, call, call], map[])
  }

  /** A guard stop that exits with zero in the last turn completes the attempt: the raw validator accepts
      the grade and the public one refuses its row. */
  lemma AbortExitingZero(public: Score, hidden: Score)
    requires ValidScore(public) && ValidScore(hidden)
    ensures
      var agent := [Calm(0), Calm(1), Stopped(2, 0)];
      var turns := [RecordOf(agent[0]), RecordOf(agent[1]), RecordOf(agent[2])];
      var grade := GradeOf(turns, map[], [map[], map[], map[]], public, hidden);
      && Ran(agent, map[], turns, [map[], map[], map[]]) && EchoesSession(agent)
      && grade.complete && grade.aborted && RawConsistent(grade, Transcripts(agent))
      && !PublicConsistent(RowOf(grade, 1))
  {
    var agent := [Calm(0), Calm(1), Stopped(2, 0)];
    var turns := [RecordOf(agent[0]), RecordOf(agent[1]), RecordOf(agent[2])];
    SampleRun(agent);
    RunPassesRaw(agent, map[], turns, [map[], map[], map[]], public, hidden);
    CompleteAbortIsRefused(GradeOf(turns, map[], [map[], map[], map[]], public, hidden), 2);
  }

  lemma CompleteAbortIsRefused(g: Grade, i: nat)
    requires g.aborted == AnyAborted(g.turns) && g.stop == StopReasonOf(g.turns, !g.noEdit)
    requires g.complete == Complete(g.turns)
    requires i < |g.turns| && g.turns[i].aborted && g.complete
    ensures g.aborted && !PublicConsistent(RowOf(g, 1))
  {
  }

  /** A turn that forgets a known session hides a later guard stop behind missing_session. */
  lemma ForgottenSession(public: Score, hidden: Score)
    requires ValidScore(public) && ValidScore(hidden)
    ensures
      var agent := [Calm(0), Calm(1).(session := None), Stopped(2, 1)];
      var turns := [RecordOf(agent[0]), RecordOf(agent[1]), RecordOf(agent[2])];
      var grade := GradeOf(turns, map[], [map[], map[], map[]], public, hidden);
      && Ran(agent, map[], turns, [map[], map[], map[]]) && AbortsFail(agent)
      && grade.stop == Some(MissingSession) && RawConsistent(grade, Transcripts(agent))
      && !PublicConsistent(RowOf(grade, 1))
  {
    var agent := [Calm(0), Calm(1).(session := None), Stopped(2, 1)];
    var turns := [RecordOf(agent[0]), RecordOf(agent[1]), RecordOf(agent[2])];
    SampleRun(agent);
    RunPassesRaw(agent, map[], turns, [map[], map[], map[]], public, hidden);
    FirstProblemAt(turns, 1);
    assert !Delivered(turns[2]) && turns[2].aborted;
  }

  lemma SampleRun(agent: seq<Response>)
    requires |agent| == TURNS && agent[0] == Calm(0) && agent[1] in {Calm(1), Calm(1).(session := None)}
    requires agent[2].files == map[]
    ensures Ran(agent, map[], [RecordOf(agent[0]), RecordOf(agent[1]), RecordOf(agent[2])], [map[], map[], map[]])
  {
    assert agent[0].session.Some?;
    assert Proceeds(agent, map[], 0) && Proceeds(agent, map[], 1);
  }
}
