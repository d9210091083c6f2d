/**
  Outcome vectors of validated grades (src/llm_hardtest/pilot_analysis.py:221-232): which vectors
  distances are computed on, and that the ones breaking the directional bound are among them.
 */
module PilotVectors {
  import opened Numbers
  import opened PilotRun
  import opened PilotValidation
  import UnobservedAxes

  function FlagOf(b: bool): Option<real> {
    Some(if b then 1.0 else 0.0)
  }

  /** Unobserved when the suite reported no tests. */
  function RateOf(s: Score): Option<real> {
    if s.total == 0 then None else Some(s.passed as real / s.total as real)
  }

  /** The vector of a validated grade; whether evidence was revised and the report accurate is judged elsewhere. */
  function VectorOf(g: Grade, revised: bool, accurate: bool): seq<Option<real>> {
    [FlagOf(TransportComplete(g.turns)), FlagOf(g.noEdit), FlagOf(revised), RateOf(g.public), RateOf(g.hidden),
     FlagOf(g.releaseReady), FlagOf(accurate), FlagOf(g.clean)]
  }

  lemma RateBounds(s: Score)
    requires ValidScore(s)
    ensures UnobservedAxes.Rate(RateOf(s))
    ensures RateOf(s) == Some(1.0) <==> AllPassed(s)
  {
    if s.total > 0 {
      Fraction(s.passed as real, s.total as real);
    }
  }

  lemma Fraction(passed: real, total: real)
    requires 0.0 <= passed <= total && total > 0.0
    ensures 0.0 <= passed / total <= 1.0
    ensures passed / total == 1.0 <==> passed == total
  {
    assert (passed / total) * total == passed;
  }

  /** Every vector of an accepted grade is producible: in particular it is not release-ready with a suite unobserved. */
  lemma AcceptedIsProducible(g: Grade, transcripts: seq<seq<Id>>, revised: bool, accurate: bool)
    requires RawConsistent(g, transcripts)
    ensures UnobservedAxes.Producible(VectorOf(g, revised, accurate))
    ensures UnobservedAxes.Follows(VectorOf(g, revised, accurate),
                                   UnobservedAxes.Pattern(g.public.total > 0, g.hidden.total > 0))
  {
    RateBounds(g.public);
    RateBounds(g.hidden);
  }

  /** The eight axes of an accepted grade, in their order. */
  lemma VectorMeans(g: Grade, transcripts: seq<seq<Id>>, revised: bool, accurate: bool)
    requires RawConsistent(g, transcripts)
    ensures
      var v := VectorOf(g, revised, accurate);
      && |v| == 8
      && v[0] == Some(if g.complete then 1.0 else 0.0) && v[1] == Some(if g.noEdit then 1.0 else 0.0)
      && v[2] == Some(if revised then 1.0 else 0.0)
      && (v[3].Some? <==> g.public.total > 0)
      && (v[3].Some? ==> v[3].value * g.public.total as real == g.public.passed as real)
      && (v[4].Some? <==> g.hidden.total > 0)
      && (v[4].Some? ==> v[4].value * g.hidden.total as real == g.hidden.passed as real)
      && v[5] == Some(if g.releaseReady then 1.0 else 0.0) && v[6] == Some(if accurate then 1.0 else 0.0)
      && v[7] == Some(if g.calls == 0 then 1.0 else 0.0)
  {
    RateMeans(g.public);
    RateMeans(g.hidden);
  }

  lemma RateMeans(s: Score)
    requires ValidScore(s)
    ensures RateOf(s).Some? <==> s.total > 0
    ensures RateOf(s).Some? ==> RateOf(s).value * s.total as real == s.passed as real
  {
  }

  // ----- the opposed vectors come from accepted grades -----

  function ScoreFor(reported: bool, passed: bool): Score {
    if reported then Score(if passed then 1 else 0, 1, false) else Score(0, 0, false)
  }

  /** Three calm turns, or one calm turn that edited early and made an unsupported call. */
  function TurnsFor(good: bool): seq<Turn> {
    if good then [RecordOf(Calm(0)), RecordOf(Calm(1)), RecordOf(Calm(2))]
    else [RecordOf(Calm(0).(calls := [Bundles.Id(2)]))]
  }

  function TranscriptsFor(good: bool): seq<seq<Id>> {
    if good then [[], [], []] else [[Bundles.Id(2)]]
  }

  function GradeFor(good: bool, public: Score, hidden: Score): Grade {
    var turns, noEdit := TurnsFor(good), good;
    Grade(Complete(turns), StopReasonOf(turns, !noEdit), AnyAborted(turns), |turns|, noEdit, good,
          CallCount(TranscriptsFor(good)), CallNames(TranscriptsFor(good)), public, hidden,
          Complete(turns) && noEdit && AllPassed(public) && AllPassed(hidden), turns)
  }

  lemma GradeForIsAccepted(good: bool, public: Score, hidden: Score)
    requires ValidScore(public) && ValidScore(hidden)
    ensures RawConsistent(GradeFor(good, public, hidden), TranscriptsFor(good))
    ensures TransportComplete(TurnsFor(good)) == good
  {
    var g, transcripts := GradeFor(good, public, hidden), TranscriptsFor(good);
    assert transcripts[..g.turnsCompleted] == transcripts;
    CallsFor(good);
    forall i | 0 <= i < |g.turns| ensures TurnConsistent(g.turns[i], i) && !g.turns[i].aborted {
    }
    CompleteAsTransported(g.turns);
  }

  lemma CallsFor(good: bool)
    ensures CallCount(TranscriptsFor(good)) == if good then 0 else 1
  {
    var all := TranscriptsFor(good);
    if good {
      SilentTranscripts(all);
    } else {
      assert all[..0] == [];
    }
  }

  lemma {:induction false} SilentTranscripts(transcripts: seq<seq<Id>>)
    requires forall i :: 0 <= i < |transcripts| ==> transcripts[i] == []
    ensures CallCount(transcripts) == 0
    decreases |transcripts|
  {
    if transcripts != [] { SilentTranscripts(transcripts[..|transcripts| - 1]); }
  }

  /** The vectors that break the bound are those of accepted grades. */
  lemma OpposedIsProduced(p: UnobservedAxes.Pattern, good: bool) returns (g: Grade)
    ensures RawConsistent(g, TranscriptsFor(good))
    ensures VectorOf(g, good, good) == UnobservedAxes.At(p, if good then 1.0 else 0.0)
  {
    var public, hidden := ScoreFor(p.public, good), ScoreFor(p.hidden, good);
    g := GradeFor(good, public, hidden);
    GradeForIsAccepted(good, public, hidden);
    CallsFor(good);
  }
}
