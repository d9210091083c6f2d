/**
  Assignment of independent units to two folds
  (src/llm_hardtest/calibration.py:1000-1014): each unit goes to the fold in which its
  configurations are rarer so far, ties alternating with the unit's index.
 */
module Folds {
  type Configuration = int

  /** A unit's configurations, in whatever order its set yields them. */
  type Unit = seq<Configuration>

  datatype Tally = Tally(first: map<Configuration, nat>, second: map<Configuration, nat>)

  function Get(counts: map<Configuration, nat>, c: Configuration): nat {
    if c in counts then counts[c] else 0
  }

  function Score(counts: map<Configuration, nat>, unit: Unit): nat {
    if unit == [] then 0 else Get(counts, unit[0]) + Score(counts, unit[1..])
  }

  function ChooseFold(t: Tally, unit: Unit, index: nat): (fold: nat)
    ensures fold < 2
  {
    var a, b := Score(t.first, unit), Score(t.second, unit);
    if a == b then index % 2 else if a < b then 0 else 1
  }

  function AddOne(t: Tally, c: Configuration, fold: nat): Tally {
    if fold == 0 then t.(first := t.first[c := Get(t.first, c) + 1])
    else t.(second := t.second[c := Get(t.second, c) + 1])
  }

  function AddUnit(t: Tally, unit: Unit, fold: nat): Tally
    decreases |unit|
  {
    if unit == [] then t else AddUnit(AddOne(t, unit[0], fold), unit[1..], fold)
  }

  /** The tally and the folds after the first n units. */
  function Assigned(units: seq<Unit>, n: nat): (r: (Tally, seq<nat>))
    requires n <= |units|
    ensures |r.1| == n && forall i :: 0 <= i < n ==> r.1[i] < 2
  {
    if n == 0 then (Tally(map[], map[]), [])
    else
      var (t, folds) := Assigned(units, n - 1);
      var fold := ChooseFold(t, units[n - 1], n - 1);
      (AddUnit(t, units[n - 1], fold), folds + [fold])
  }

  method AssignFolds(units: seq<Unit>) returns (tally: Tally, folds: seq<nat>)
    ensures (tally, folds) == Assigned(units, |units|)
  {
    tally, folds := Tally(map[], map[]), [];
    for index := 0 to |units|
      invariant (tally, folds) == Assigned(units, index)
    {
      var unit := units[index];
      var a := ScoreLoop(tally.first, unit);
      var b := ScoreLoop(tally.second, unit);
      var fold := if a == b then index % 2 else if a < b then 0 else 1;
      folds := folds + [fold];
      ghost var before := tally;
      for k := 0 to |unit|
        invariant AddUnit(tally, unit[k..], fold) == AddUnit(before, unit, fold)
      {
        assert unit[k..][1..] == unit[k + 1..];
        tally := AddOne(tally, unit[k], fold);
      }
    }
  }

  method ScoreLoop(counts: map<Configuration, nat>, unit: Unit) returns (score: nat)
    ensures score == Score(counts, unit)
  {
    score := 0;
    for k := 0 to |unit|
      invariant score + Score(counts, unit[k..]) == Score(counts, unit)
    {
      assert unit[k..][1..] == unit[k + 1..];
      score := score + Get(counts, unit[k]);
    }
  }

  // ----- imbalance -----

  function Lead(t: Tally, c: Configuration): int {
    Get(t.first, c) - Get(t.second, c)
  }

  function LeadSum(t: Tally, unit: Unit): int {
    if unit == [] then 0 else Lead(t, unit[0]) + LeadSum(t, unit[1..])
  }

  lemma {:induction false} LeadIsScoreGap(t: Tally, unit: Unit)
    ensures LeadSum(t, unit) == Score(t.first, unit) - Score(t.second, unit)
  {
    if unit != [] { LeadIsScoreGap(t, unit[1..]); }
  }

  /** The sum of squared imbalances over a list of configurations. */
  function Imbalance(t: Tally, universe: seq<Configuration>): int {
    if universe == [] then 0 else Lead(t, universe[0]) * Lead(t, universe[0]) + Imbalance(t, universe[1..])
  }

  predicate Distinct(s: seq<Configuration>) {
    forall i, j :: 0 <= i < j < |s| ==> s[i] != s[j]
  }

  function Sign(fold: nat): int {
    if fold == 0 then 1 else -1
  }

  lemma AddOneLead(t: Tally, c: Configuration, fold: nat, d: Configuration)
    ensures Lead(AddOne(t, c, fold), d) == Lead(t, d) + (if c == d then Sign(fold) else 0)
  {
  }

  lemma {:induction false} ImbalanceElsewhere(t: Tally, c: Configuration, fold: nat, universe: seq<Configuration>)
    requires c !in universe
    ensures Imbalance(AddOne(t, c, fold), universe) == Imbalance(t, universe)
  {
    if universe != [] {
      AddOneLead(t, c, fold, universe[0]);
      ImbalanceElsewhere(t, c, fold, universe[1..]);
    }
  }

  lemma {:induction false} ImbalanceStep(t: Tally, c: Configuration, fold: nat, universe: seq<Configuration>)
    requires Distinct(universe) && c in universe
    ensures Imbalance(AddOne(t, c, fold), universe) == Imbalance(t, universe) + 2 * Sign(fold) * Lead(t, c) + 1
  {
    AddOneLead(t, c, fold, universe[0]);
    if universe[0] == c {
      ImbalanceElsewhere(t, c, fold, universe[1..]);
    } else {
      ImbalanceStep(t, c, fold, universe[1..]);
    }
  }

  lemma {:induction false} LeadSumElsewhere(t: Tally, c: Configuration, fold: nat, unit: Unit)
    requires c !in unit
    ensures LeadSum(AddOne(t, c, fold), unit) == LeadSum(t, unit)
  {
    if unit != [] {
      AddOneLead(t, c, fold, unit[0]);
      LeadSumElsewhere(t, c, fold, unit[1..]);
    }
  }

  /** Placing a unit changes the imbalance by twice its signed lead plus its size. */
  lemma {:induction false} ImbalanceOfUnit(t: Tally, unit: Unit, fold: nat, universe: seq<Configuration>)
    requires Distinct(universe) && Distinct(unit) && forall c :: c in unit ==> c in universe
    ensures Imbalance(AddUnit(t, unit, fold), universe)
         == Imbalance(t, universe) + 2 * Sign(fold) * LeadSum(t, unit) + |unit|
    decreases |unit|
  {
    if unit != [] {
      var next, rest := AddOne(t, unit[0], fold), unit[1..];
      ImbalanceStep(t, unit[0], fold, universe);
      LeadSumElsewhere(t, unit[0], fold, rest);
      ImbalanceOfUnit(next, rest, fold, universe);
    }
  }

  function Incidences(units: seq<Unit>, n: nat): nat
    requires n <= |units|
  {
    if n == 0 then 0 else Incidences(units, n - 1) + |units[n - 1]|
  }

  ghost predicate Enumerates(units: seq<Unit>, universe: seq<Configuration>) {
    && Distinct(universe)
    && forall i :: 0 <= i < |units| ==> Distinct(units[i]) && forall c :: c in units[i] ==> c in universe
  }

  lemma ChosenFoldLags(t: Tally, unit: Unit, index: nat)
    ensures Sign(ChooseFold(t, unit, index)) * LeadSum(t, unit) <= 0
  {
    LeadIsScoreGap(t, unit);
  }

  /** The total squared imbalance never exceeds the number of (unit, configuration) incidences. */
  lemma {:induction false} ImbalanceBound(units: seq<Unit>, n: nat, universe: seq<Configuration>)
    requires n <= |units| && Enumerates(units, universe)
    ensures Imbalance(Assigned(units, n).0, universe) <= Incidences(units, n)
  {
    if n == 0 {
      EmptyImbalance(universe);
    } else {
      var (t, folds) := Assigned(units, n - 1);
      var unit := units[n - 1];
      var fold := ChooseFold(t, unit, n - 1);
      ImbalanceBound(units, n - 1, universe);
      ImbalanceOfUnit(t, unit, fold, universe);
      ChosenFoldLags(t, unit, n - 1);
    }
  }

  lemma {:induction false} EmptyImbalance(universe: seq<Configuration>)
    ensures Imbalance(Tally(map[], map[]), universe) == 0
  {
    if universe != [] { EmptyImbalance(universe[1..]); }
  }

  lemma {:induction false} LeadWithinImbalance(t: Tally, universe: seq<Configuration>, c: Configuration)
    requires c in universe
    ensures 0 <= Lead(t, c) * Lead(t, c) <= Imbalance(t, universe)
  {
    ImbalanceNonnegative(t, universe[1..]);
    assert Lead(t, universe[0]) * Lead(t, universe[0]) >= 0;
    if universe[0] != c { LeadWithinImbalance(t, universe[1..], c); }
  }

  lemma {:induction false} ImbalanceNonnegative(t: Tally, universe: seq<Configuration>)
    ensures Imbalance(t, universe) >= 0
  {
    if universe != [] {
      assert Lead(t, universe[0]) * Lead(t, universe[0]) >= 0;
      ImbalanceNonnegative(t, universe[1..]);
    }
  }

  /** So no single configuration can lead by more than the root of the incidences. */
  lemma EachLeadBound(units: seq<Unit>, universe: seq<Configuration>, c: Configuration)
    requires Enumerates(units, universe) && c in universe
    ensures
      var lead := Lead(Assigned(units, |units|).0, c);
      lead * lead <= Incidences(units, |units|)
  {
    ImbalanceBound(units, |units|, universe);
    LeadWithinImbalance(Assigned(units, |units|).0, universe, c);
  }

  // ----- what the counts count -----

  /** Units among the first n that hold configuration c in the given fold. */
  function Held(units: seq<Unit>, folds: seq<nat>, n: nat, fold: nat, c: Configuration): nat
    requires n <= |units| && n <= |folds|
  {
    if n == 0 then 0
    else Held(units, folds, n - 1, fold, c) + (if folds[n - 1] == fold && c in units[n - 1] then 1 else 0)
  }

  lemma {:induction false} AddUnitCounts(t: Tally, unit: Unit, fold: nat, c: Configuration)
    requires Distinct(unit)
    ensures Get(AddUnit(t, unit, fold).first, c) == Get(t.first, c) + (if fold == 0 && c in unit then 1 else 0)
    ensures Get(AddUnit(t, unit, fold).second, c) == Get(t.second, c) + (if fold != 0 && c in unit then 1 else 0)
    decreases |unit|
  {
    if unit != [] {
      AddUnitCounts(AddOne(t, unit[0], fold), unit[1..], fold, c);
    }
  }

  lemma {:induction false} HeldPrefix(units: seq<Unit>, folds: seq<nat>, extra: nat, n: nat, fold: nat,
                                      c: Configuration)
    requires n <= |units| && n <= |folds|
    ensures Held(units, folds + [extra], n, fold, c) == Held(units, folds, n, fold, c)
  {
    if n > 0 { HeldPrefix(units, folds, extra, n - 1, fold, c); }
  }

  /** The two running counts are exactly the units each fold holds of a configuration. */
  lemma {:induction false} CountsAreHeld(units: seq<Unit>, n: nat, c: Configuration)
    requires n <= |units| && forall i :: 0 <= i < |units| ==> Distinct(units[i])
    ensures
      var (t, folds) := Assigned(units, n);
      && Get(t.first, c) == Held(units, folds, n, 0, c)
      && Get(t.second, c) == Held(units, folds, n, 1, c)
  {
    if n > 0 {
      var (t, folds) := Assigned(units, n - 1);
      var fold := ChooseFold(t, units[n - 1], n - 1);
      CountsAreHeld(units, n - 1, c);
      AddUnitCounts(t, units[n - 1], fold, c);
      HeldPrefix(units, folds, fold, n - 1, 0, c);
      HeldPrefix(units, folds, fold, n - 1, 1, c);
    }
  }

  // ----- which fold a unit gets -----

  /** How often the fold already holds the unit's configurations, all told. */
  function HeldTogether(units: seq<Unit>, folds: seq<nat>, n: nat, fold: nat, unit: Unit): nat
    requires n <= |units| && n <= |folds|
  {
    if unit == [] then 0 else Held(units, folds, n, fold, unit[0]) + HeldTogether(units, folds, n, fold, unit[1..])
  }

  lemma {:induction false} ScoresAreHeld(units: seq<Unit>, n: nat, unit: Unit)
    requires n <= |units| && forall i :: 0 <= i < |units| ==> Distinct(units[i])
    ensures
      var (t, folds) := Assigned(units, n);
      && Score(t.first, unit) == HeldTogether(units, folds, n, 0, unit)
      && Score(t.second, unit) == HeldTogether(units, folds, n, 1, unit)
    decreases |unit|
  {
    if unit != [] {
      CountsAreHeld(units, n, unit[0]);
      ScoresAreHeld(units, n, unit[1..]);
    }
  }

  /** Every unit goes to the fold whose earlier units hold its configurations less often, and on a tie to the
      fold of its index's parity. */
  lemma {:induction false} EachUnitsFold(units: seq<Unit>, n: nat, i: nat)
    requires i < n <= |units| && forall k :: 0 <= k < |units| ==> Distinct(units[k])
    ensures
      var folds := Assigned(units, n).1;
      var a, b := HeldTogether(units, folds, i, 0, units[i]), HeldTogether(units, folds, i, 1, units[i]);
      folds[i] == if a < b then 0 else if b < a then 1 else i % 2
  {
    var before, folds := Assigned(units, n - 1).1, Assigned(units, n).1;
    assert folds[..n - 1] == before;
    if i < n - 1 {
      EachUnitsFold(units, n - 1, i);
      LaterFolds(units, before, folds, i, 0, units[i]);
      LaterFolds(units, before, folds, i, 1, units[i]);
    } else {
      ScoresAreHeld(units, i, units[i]);
      LaterFolds(units, before, folds, i, 0, units[i]);
      LaterFolds(units, before, folds, i, 1, units[i]);
    }
  }

  lemma {:induction false} LaterFolds(units: seq<Unit>, a: seq<nat>, b: seq<nat>, n: nat, fold: nat, unit: Unit)
    requires n <= |units| && n <= |a| <= |b| && b[..|a|] == a
    ensures HeldTogether(units, b, n, fold, unit) == HeldTogether(units, a, n, fold, unit)
    decreases |unit|
  {
    if unit != [] {
      HeldAlike(units, a, b, n, fold, unit[0]);
      LaterFolds(units, a, b, n, fold, unit[1..]);
    }
  }

  lemma {:induction false} HeldAlike(units: seq<Unit>, a: seq<nat>, b: seq<nat>, n: nat, fold: nat, c: Configuration)
    requires n <= |units| && n <= |a| <= |b| && b[..|a|] == a
    ensures Held(units, b, n, fold, c) == Held(units, a, n, fold, c)
  {
    if n > 0 {
      HeldAlike(units, a, b, n - 1, fold, c);
      assert b[n - 1] == b[..|a|][n - 1];
    }
  }

  /** Units among the first n that hold configuration c at all. */
  function Holding(units: seq<Unit>, n: nat, c: Configuration): nat
    requires n <= |units|
  {
    if n == 0 then 0 else Holding(units, n - 1, c) + (if c in units[n - 1] then 1 else 0)
  }

  lemma {:induction false} FoldsShare(units: seq<Unit>, folds: seq<nat>, n: nat, c: Configuration)
    requires n <= |units| && n <= |folds| && forall i :: 0 <= i < |folds| ==> folds[i] < 2
    ensures Held(units, folds, n, 0, c) + Held(units, folds, n, 1, c) == Holding(units, n, c)
  {
    if n > 0 { FoldsShare(units, folds, n - 1, c); }
  }

  // ----- one configuration per unit -----

  lemma {:induction false} SingletonLead(units: seq<Unit>, n: nat, c: Configuration)
    requires n <= |units| && forall i :: 0 <= i < |units| ==> |units[i]| == 1
    ensures -1 <= Lead(Assigned(units, n).0, c) <= 1
  {
    if n > 0 {
      SingletonLead(units, n - 1, c);
      var (t, folds) := Assigned(units, n - 1);
      var unit := units[n - 1];
      var fold := ChooseFold(t, unit, n - 1);
      assert unit == [unit[0]];
      assert Score(t.first, unit) == Get(t.first, unit[0]) + Score(t.first, []);
      assert Score(t.second, unit) == Get(t.second, unit[0]) + Score(t.second, []);
      AddOneLead(t, unit[0], fold, c);
      assert AddUnit(t, unit, fold) == AddUnit(AddOne(t, unit[0], fold), [], fold);
    }
  }

  /**
    When each unit has one configuration, the units of every configuration are split in
    half, up to one: ten units give five per side.
   */
  lemma SingletonsSplitEvenly(units: seq<Unit>, c: Configuration)
    requires forall i :: 0 <= i < |units| ==> |units[i]| == 1
    ensures
      var folds := Assigned(units, |units|).1;
      var total, a, b := Holding(units, |units|, c), Held(units, folds, |units|, 0, c),
                         Held(units, folds, |units|, 1, c);
      && a + b == total
      && total / 2 <= a && total / 2 <= b
      && (total % 2 == 0 ==> a == b == total / 2)
  {
    SingletonLead(units, |units|, c);
    CountsAreHeld(units, |units|, c);
    FoldsShare(units, Assigned(units, |units|).1, |units|, c);
  }
}
