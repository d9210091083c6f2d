/**
  The per-objective rows of a paired comparison
  (src/llm_hardtest/paired_comparison.py:362-383) and their verdicts.
 */
module ObjectiveRows {
  import opened Numbers

  datatype Interval = Interval(low: real, high: real)

  datatype Verdict =
    | Insufficient
    | Pending
    | LeftBetter
    | RightBetter
    | LeftSmallEffect
    | RightSmallEffect
    | Inconclusive

  /** Objectives are compared only by name order, so an integer stands for the name. */
  datatype Row = Row(
    objective: int,
    minimumEffect: real,
    interval95: Option<Interval>,
    simultaneous: Option<Interval>,
    limited: Option<bool>,
    pRaw: Option<real>,
    pHolm: Option<real>,
    thresholdMet: Option<bool>,
    verdict: Verdict)

  ghost predicate DistinctObjectives(rows: seq<Row>) {
    forall i, j :: 0 <= i < j < |rows| ==> rows[i].objective != rows[j].objective
  }

  /** Raw p-values are probabilities. */
  ghost predicate ValidPValues(rows: seq<Row>) {
    forall i :: 0 <= i < |rows| && rows[i].pRaw.Some? ==> 0.0 <= rows[i].pRaw.value <= 1.0
  }
}
