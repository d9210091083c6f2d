/**
  The greedy item panel (src/llm_hardtest/calibration.py:883-923): repeatedly take the item
  that confirms the most directional targets not confirmed yet, with deterministic ties.
 */
module Panel {
  import opened Numbers

  /** Names are compared only by their order, which `place` stands for. */
  datatype Item = Item(place: int)
  datatype Target = Target(place: int)

  /** What is known about one candidate item. */
  datatype Evidence = Evidence(targets: set<Target>, dependency: set<Item>, margin: real, effect: real)

  datatype Pick = Pick(item: Item, gained: set<Target>)

  /** The sort key of one ranked candidate, in the order the tuple is compared. */
  datatype Score = Score(gain: nat, clashes: nat, degree: nat, margin: real, effect: real, item: Item)

  predicate Ahead(a: Score, b: Score) {
    if a.gain != b.gain then a.gain > b.gain
    else if a.clashes != b.clashes then a.clashes < b.clashes
    else if a.degree != b.degree then a.degree < b.degree
    else if a.margin != b.margin then a.margin > b.margin
    else if a.effect != b.effect then a.effect > b.effect
    else a.item.place < b.item.place
  }

  type Pool = map<Item, Evidence>

  function ScoreOf(pool: Pool, uncovered: set<Target>, chosen: set<Item>, item: Item): Score
    requires item in pool
  {
    var e := pool[item];
    Score(|e.targets * uncovered|, |e.dependency * chosen|, |e.dependency|, e.margin, e.effect, item)
  }

  predicate Useful(pool: Pool, uncovered: set<Target>, item: Item) {
    item in pool && pool[item].targets * uncovered != {}
  }

  /** The item min(ranked) selects: useful, and ahead of every other useful item. */
  ghost predicate IsBest(pool: Pool, uncovered: set<Target>, chosen: set<Item>, among: set<Item>, best: Item) {
    && best in among && Useful(pool, uncovered, best)
    && forall i :: i in among && i != best && Useful(pool, uncovered, i) ==>
         Ahead(ScoreOf(pool, uncovered, chosen, best), ScoreOf(pool, uncovered, chosen, i))
  }

  lemma BestIsUnique(pool: Pool, uncovered: set<Target>, chosen: set<Item>, among: set<Item>, a: Item, b: Item)
    requires IsBest(pool, uncovered, chosen, among, a) && IsBest(pool, uncovered, chosen, among, b)
    ensures a == b
  {
  }

  /** The best item of those seen, or nothing useful among them. */
  ghost predicate BestOf(pool: Pool, uncovered: set<Target>, chosen: set<Item>, seen: set<Item>, best: Option<Item>) {
    if best.Some? then IsBest(pool, uncovered, chosen, seen, best.value)
    else forall i :: i in seen ==> !Useful(pool, uncovered, i)
  }

  lemma ConsiderNext(pool: Pool, uncovered: set<Target>, chosen: set<Item>, seen: set<Item>, best: Option<Item>,
                     item: Item)
    requires BestOf(pool, uncovered, chosen, seen, best) && item !in seen
    ensures
      var better := Useful(pool, uncovered, item)
        && (best.None? || Ahead(ScoreOf(pool, uncovered, chosen, item), ScoreOf(pool, uncovered, chosen, best.value)));
      BestOf(pool, uncovered, chosen, seen + {item}, if better then Some(item) else best)
  {
    if best.Some? && Useful(pool, uncovered, item) {
      var rival, mine := ScoreOf(pool, uncovered, chosen, best.value), ScoreOf(pool, uncovered, chosen, item);
      AheadOrNot(mine, rival);
      forall i | i in seen && i != best.value && Useful(pool, uncovered, i) && Ahead(mine, rival)
        ensures Ahead(mine, ScoreOf(pool, uncovered, chosen, i))
      {
        AheadOfMore(mine, rival, ScoreOf(pool, uncovered, chosen, i));
      }
    }
  }

  lemma AheadOrNot(a: Score, b: Score)
    requires a.item != b.item
    ensures Ahead(a, b) || Ahead(b, a)
  {
  }

  lemma AheadOfMore(a: Score, b: Score, c: Score)
    requires Ahead(a, b) && Ahead(b, c)
    ensures Ahead(a, c)
  {
  }

  /** One pass over the remaining items, in whatever order the set yields them. */
  method FindBest(pool: Pool, uncovered: set<Target>, chosen: set<Item>, remaining: set<Item>)
    returns (best: Option<Item>)
    ensures best.Some? ==> IsBest(pool, uncovered, chosen, remaining, best.value)
    ensures best.None? ==> forall i :: i in remaining ==> !Useful(pool, uncovered, i)
  {
    best := None;
    var todo: set<Item>, seen: set<Item> := remaining, {};
    while todo != {}
      invariant seen + todo == remaining && seen !! todo
      invariant BestOf(pool, uncovered, chosen, seen, best)
      decreases |todo|
    {
      var item :| item in todo;
      ConsiderNext(pool, uncovered, chosen, seen, best, item);
      todo, seen := todo - {item}, seen + {item};
      if Useful(pool, uncovered, item)
         && (best.None? ||
              Ahead(ScoreOf(pool, uncovered, chosen, item), ScoreOf(pool, uncovered, chosen, best.value))) {
        best := Some(item);
      }
    }
    assert seen == remaining;
  }

  lemma {:induction false} BestExists(pool: Pool, uncovered: set<Target>, chosen: set<Item>, among: set<Item>)
    requires exists i :: i in among && Useful(pool, uncovered, i)
    ensures exists b :: IsBest(pool, uncovered, chosen, among, b)
    decreases |among|
  {
    var i :| i in among && Useful(pool, uncovered, i);
    var rest := among - {i};
    if exists j :: j in rest && Useful(pool, uncovered, j) {
      BestExists(pool, uncovered, chosen, rest);
      var b :| IsBest(pool, uncovered, chosen, rest, b);
      var winner := if Ahead(ScoreOf(pool, uncovered, chosen, i), ScoreOf(pool, uncovered, chosen, b)) then i else b;
      assert IsBest(pool, uncovered, chosen, among, winner);
    } else {
      assert IsBest(pool, uncovered, chosen, among, i);
    }
  }

  ghost function Best(pool: Pool, uncovered: set<Target>, chosen: set<Item>, among: set<Item>): (best: Item)
    requires exists i :: i in among && Useful(pool, uncovered, i)
    ensures IsBest(pool, uncovered, chosen, among, best)
  {
    BestExists(pool, uncovered, chosen, among);
    var b :| IsBest(pool, uncovered, chosen, among, b);
    b
  }

  // ----- the loop -----

  ghost predicate Stuck(pool: Pool, uncovered: set<Target>, remaining: set<Item>) {
    forall i :: i in remaining ==> !Useful(pool, uncovered, i)
  }

  /** The picks that follow from a loop state. */
  ghost function Greedy(pool: Pool, uncovered: set<Target>, remaining: set<Item>, chosen: set<Item>, limit: Option<nat>)
    : seq<Pick>
    decreases |remaining|
  {
    if limit == Some(0) || Stuck(pool, uncovered, remaining) then []
    else
      var best := Best(pool, uncovered, chosen, remaining);
      var gained := pool[best].targets * uncovered;
      [Pick(best, gained)]
      + Greedy(pool, uncovered - gained, remaining - {best}, chosen + {best},
               Less(limit))
  }

  function AllTargets(pool: Pool): set<Target> {
    set i, x | i in pool && x in pool[i].targets :: x
  }

  function Gained(picks: seq<Pick>): set<Target> {
    if picks == [] then {} else picks[0].gained + Gained(picks[1..])
  }

  datatype Status = Insufficient | NoDecisiveItems | Partial | Complete

  function StatusOf(all: set<Target>, uncovered: set<Target>, eligiblePairs: nat): Status {
    if all == {} then (if eligiblePairs == 0 then Insufficient else NoDecisiveItems)
    else if uncovered != {} then Partial
    else Complete
  }

  function Less(limit: Option<nat>): Option<nat>
    requires limit != Some(0)
  {
    if limit.None? then None else Some(limit.value - 1)
  }

  lemma GreedyStep(pool: Pool, uncovered: set<Target>, remaining: set<Item>, chosen: set<Item>, limit: Option<nat>,
                   item: Item)
    requires limit != Some(0) && IsBest(pool, uncovered, chosen, remaining, item)
    ensures
      var gained := pool[item].targets * uncovered;
      Greedy(pool, uncovered, remaining, chosen, limit)
      == [Pick(item, gained)] + Greedy(pool, uncovered - gained, remaining - {item}, chosen + {item}, Less(limit))
  {
    assert !Stuck(pool, uncovered, remaining);
    BestIsUnique(pool, uncovered, chosen, remaining, item, Best(pool, uncovered, chosen, remaining));
  }

  method SelectPanel(pool: Pool, eligiblePairs: nat, maxItems: Option<int>)
    returns (outcome: Option<(seq<Pick>, set<Target>, Status)>)
    ensures outcome.None? <==> maxItems.Some? && maxItems.value < 1
    ensures outcome.Some? ==>
      && outcome.value.0 == Greedy(pool, AllTargets(pool), pool.Keys, {}, Left(maxItems, 0))
      && outcome.value.1 == AllTargets(pool) - Gained(outcome.value.0)
      && outcome.value.2 == StatusOf(AllTargets(pool), outcome.value.1, eligiblePairs)
  {
    if maxItems.Some? && maxItems.value < 1 {
      return None;
    }
    var all := AllTargets(pool);
    var selected, uncovered := PanelLoop(pool, all, maxItems);
    outcome := Some((selected, uncovered, StatusOf(all, uncovered, eligiblePairs)));
  }

  /** The loop has made the first picks of the greedy plan and can still make the others. */
  ghost predicate OnPlan(pool: Pool, all: set<Target>, maxItems: Option<int>,
                         selected: seq<Pick>, uncovered: set<Target>, remaining: set<Item>, names: set<Item>) {
    && (maxItems.Some? ==> |selected| <= maxItems.value)
    && uncovered == all - Gained(selected)
    && Greedy(pool, all, pool.Keys, {}, Left(maxItems, 0))
       == selected + Greedy(pool, uncovered, remaining, names, Left(maxItems, |selected|))
  }

  lemma PlanStep(pool: Pool, all: set<Target>, maxItems: Option<int>,
                 selected: seq<Pick>, uncovered: set<Target>, remaining: set<Item>, names: set<Item>, item: Item)
    requires OnPlan(pool, all, maxItems, selected, uncovered, remaining, names)
    requires maxItems.Some? ==> |selected| < maxItems.value
    requires IsBest(pool, uncovered, names, remaining, item)
    ensures
      var gained := pool[item].targets * uncovered;
      OnPlan(pool, all, maxItems, selected + [Pick(item, gained)],
             uncovered - gained, remaining - {item}, names + {item})
  {
    var gained := pool[item].targets * uncovered;
    var first := Pick(item, gained);
    GreedyStep(pool, uncovered, remaining, names, Left(maxItems, |selected|), item);
    LeavesLess(all, selected, first);
    Rebracket(Greedy(pool, all, pool.Keys, {}, Left(maxItems, 0)), selected, first,
              Greedy(pool, uncovered, remaining, names, Left(maxItems, |selected|)),
              Greedy(pool, uncovered - gained, remaining - {item}, names + {item}, Left(maxItems, |selected| + 1)));
  }

  lemma LeavesLess(all: set<Target>, selected: seq<Pick>, first: Pick)
    ensures all - Gained(selected + [first]) == (all - Gained(selected)) - first.gained
  {
    GainedAppend(selected, first);
  }

  lemma Rebracket(plan: seq<Pick>, front: seq<Pick>, first: Pick, tail: seq<Pick>, rest: seq<Pick>)
    requires plan == front + tail && tail == [first] + rest
    ensures plan == (front + [first]) + rest
  {
  }

  lemma PlanDone(pool: Pool, all: set<Target>, maxItems: Option<int>,
                 selected: seq<Pick>, uncovered: set<Target>, remaining: set<Item>, names: set<Item>)
    requires OnPlan(pool, all, maxItems, selected, uncovered, remaining, names)
    requires Stuck(pool, uncovered, remaining) || uncovered == {} || (maxItems.Some? && |selected| == maxItems.value)
    ensures selected == Greedy(pool, all, pool.Keys, {}, Left(maxItems, 0))
  {
    assert selected + [] == selected;
  }

  lemma PlanStart(pool: Pool, all: set<Target>, maxItems: Option<int>)
    requires maxItems.Some? ==> maxItems.value >= 0
    ensures OnPlan(pool, all, maxItems, [], all, pool.Keys, {})
  {
    var plan := Greedy(pool, all, pool.Keys, {}, Left(maxItems, 0));
    assert [] + plan == plan && all - {} == all;
  }

  method PanelLoop(pool: Pool, all: set<Target>,
                   maxItems: Option<int>) returns (selected: seq<Pick>, uncovered: set<Target>)
    requires maxItems.Some? ==> maxItems.value >= 1
    ensures selected == Greedy(pool, all, pool.Keys, {}, Left(maxItems, 0))
    ensures uncovered == all - Gained(selected)
  {
    uncovered, selected := all, [];
    var remaining, names: set<Item> := pool.Keys, {};
    PlanStart(pool, all, maxItems);
    while uncovered != {} && remaining != {} && (maxItems.None? || |selected| < maxItems.value)
      invariant OnPlan(pool, all, maxItems, selected, uncovered, remaining, names)
      decreases |remaining|
    {
      var found := FindBest(pool, uncovered, names, remaining);
      if found.None? {
        break;
      }
      var item := found.value;
      PlanStep(pool, all, maxItems, selected, uncovered, remaining, names, item);
      var gained := pool[item].targets * uncovered;
      selected := selected + [Pick(item, gained)];
      uncovered := uncovered - gained;
      remaining := remaining - {item};
      names := names + {item};
    }
    PlanDone(pool, all, maxItems, selected, uncovered, remaining, names);
  }

  function Left(maxItems: Option<int>, used: nat): Option<nat>
    requires maxItems.Some? ==> used <= maxItems.value
  {
    if maxItems.None? then None else Some(maxItems.value - used)
  }

  lemma {:induction false} GainedAppend(picks: seq<Pick>, last: Pick)
    ensures Gained(picks + [last]) == Gained(picks) + last.gained
  {
    if picks != [] {
      assert (picks + [last])[1..] == picks[1..] + [last];
      GainedAppend(picks[1..], last);
    }
  }

  // ----- what the picks are -----

  /** Every pick gains something, gains come from its item, and no target is gained twice. */
  ghost predicate Partitions(pool: Pool, uncovered: set<Target>, picks: seq<Pick>) {
    && (forall i :: 0 <= i < |picks| ==>
          && picks[i].gained != {}
          && picks[i].item in pool
          && picks[i].gained <= pool[picks[i].item].targets
          && picks[i].gained <= uncovered)
    && (forall i, j :: 0 <= i < j < |picks| ==> picks[i].gained !! picks[j].gained && picks[i].item != picks[j].item)
  }

  lemma {:induction false} GreedyPartitions(pool: Pool, uncovered: set<Target>, remaining: set<Item>,
                                            chosen: set<Item>, limit: Option<nat>)
    ensures
      var picks := Greedy(pool, uncovered, remaining, chosen, limit);
      && Partitions(pool, uncovered, picks)
      && (forall i :: 0 <= i < |picks| ==> picks[i].item in remaining)
      && Gained(picks) <= uncovered
      && (limit.Some? ==> |picks| <= limit.value)
    decreases |remaining|
  {
    var picks := Greedy(pool, uncovered, remaining, chosen, limit);
    if picks != [] {
      var best := Best(pool, uncovered, chosen, remaining);
      var gained := pool[best].targets * uncovered;
      GreedyPartitions(pool, uncovered - gained, remaining - {best}, chosen + {best},
                       Less(limit));
      PartitionCons(pool, uncovered, picks[0], picks[1..]);
    }
  }

  lemma PartitionCons(pool: Pool, uncovered: set<Target>, first: Pick, rest: seq<Pick>)
    requires first.gained != {} && first.item in pool
    requires first.gained <= pool[first.item].targets && first.gained <= uncovered
    requires Partitions(pool, uncovered - first.gained, rest)
    requires forall i :: 0 <= i < |rest| ==> rest[i].item != first.item
    ensures Partitions(pool, uncovered, [first] + rest)
  {
    var all := [first] + rest;
    forall j | 0 < j < |all| ensures all[0].gained !! all[j].gained && all[0].item != all[j].item {
      assert all[j] == rest[j - 1];
    }
    forall i, j | 0 < i < j < |all| ensures all[i].gained !! all[j].gained && all[i].item != all[j].item {
      assert all[i] == rest[i - 1] && all[j] == rest[j - 1];
    }
  }

  /** Items no longer remaining have nothing uncovered left. */
  ghost predicate Spent(pool: Pool, uncovered: set<Target>, remaining: set<Item>) {
    forall i :: i in pool && i !in remaining ==> pool[i].targets !! uncovered
  }

  lemma SomeoneIsUseful(pool: Pool, uncovered: set<Target>, remaining: set<Item>, x: Target)
    requires x in uncovered && x in AllTargets(pool) && Spent(pool, uncovered, remaining)
    ensures !Stuck(pool, uncovered, remaining)
  {
    var i :| i in pool && x in pool[i].targets;
    assert x in pool[i].targets * uncovered;
    assert Useful(pool, uncovered, i);
  }

  /** Without a limit the panel covers every target. */
  lemma {:induction false} UnboundedCoversAll(pool: Pool, uncovered: set<Target>, remaining: set<Item>,
                                              chosen: set<Item>)
    requires uncovered <= AllTargets(pool) && Spent(pool, uncovered, remaining)
    ensures Gained(Greedy(pool, uncovered, remaining, chosen, None)) == uncovered
    decreases |remaining|
  {
    if Stuck(pool, uncovered, remaining) {
      if x :| x in uncovered {
        SomeoneIsUseful(pool, uncovered, remaining, x);
      }
    } else {
      var best := Best(pool, uncovered, chosen, remaining);
      var gained := pool[best].targets * uncovered;
      UnboundedCoversAll(pool, uncovered - gained, remaining - {best}, chosen + {best});
    }
  }

  lemma UnboundedPanelIsComplete(pool: Pool, eligiblePairs: nat)
    requires AllTargets(pool) != {}
    ensures
      var picks := Greedy(pool, AllTargets(pool), pool.Keys, {}, None);
      StatusOf(AllTargets(pool), AllTargets(pool) - Gained(picks), eligiblePairs) == Complete
  {
    UnboundedCoversAll(pool, AllTargets(pool), pool.Keys, {});
  }

  // ----- how fast it covers -----

  ghost predicate Covers(pool: Pool, cover: seq<Item>, uncovered: set<Target>) {
    forall x :: x in uncovered ==> exists i :: 0 <= i < |cover| && cover[i] in pool && x in pool[cover[i]].targets
  }

  lemma {:induction false} SubsetSize<T>(a: set<T>, b: set<T>)
    requires a <= b
    ensures |a| <= |b|
    decreases |a|
  {
    if a != {} {
      var x :| x in a;
      SubsetSize(a - {x}, b - {x});
    }
  }

  lemma NothingToCover(pool: Pool, uncovered: set<Target>)
    requires Covers(pool, [], uncovered)
    ensures |uncovered| == 0
  {
    if x :| x in uncovered { }
  }

  lemma SplitSize<T>(whole: set<T>, part: set<T>)
    requires part <= whole
    ensures |whole| == |part| + |whole - part|
  {
    assert whole == part + (whole - part);
  }

  /** No more than count times most. */
  ghost predicate UpTo(n: nat, count: nat, most: nat) {
    n <= Times(count, most)
  }

  /** Repeated addition, so that the induction needs no products. */
  ghost function Times(count: nat, most: nat): nat {
    if count == 0 then 0 else Times(count - 1, most) + most
  }

  lemma {:induction false} TimesIsProduct(count: nat, most: nat)
    ensures Times(count, most) == count * most
  {
    if count > 0 {
      TimesIsProduct(count - 1, most);
      assert count * most == (count - 1) * most + most;
    }
  }

  lemma OneMore(count: nat, most: nat, left: nat, head: nat, whole: nat)
    requires count > 0 && UpTo(left, count - 1, most) && head <= most && whole == head + left
    ensures UpTo(whole, count, most)
  {
  }

  function Gain(pool: Pool, uncovered: set<Target>, item: Item): set<Target> {
    if item in pool then pool[item].targets * uncovered else {}
  }

  ghost predicate GainsAtMost(pool: Pool, cover: seq<Item>, uncovered: set<Target>, most: nat) {
    forall i :: 0 <= i < |cover| ==> |Gain(pool, uncovered, cover[i])| <= most
  }

  lemma RestGains(pool: Pool, cover: seq<Item>, uncovered: set<Target>, left: set<Target>, most: nat)
    requires cover != [] && left <= uncovered && GainsAtMost(pool, cover, uncovered, most)
    ensures GainsAtMost(pool, cover[1..], left, most)
  {
    var rest := cover[1..];
    forall i | 0 <= i < |rest| ensures |Gain(pool, left, rest[i])| <= most {
      assert rest[i] == cover[i + 1];
      SubsetSize(Gain(pool, left, rest[i]), Gain(pool, uncovered, rest[i]));
    }
  }

  lemma RestCovers(pool: Pool, cover: seq<Item>, uncovered: set<Target>)
    requires cover != [] && Covers(pool, cover, uncovered)
    ensures Covers(pool, cover[1..], uncovered - Gain(pool, uncovered, cover[0]))
  {
    var rest := cover[1..];
    forall x | x in uncovered - Gain(pool, uncovered, cover[0])
      ensures exists i :: 0 <= i < |rest| && rest[i] in pool && x in pool[rest[i]].targets
    {
      var i :| 0 <= i < |cover| && cover[i] in pool && x in pool[cover[i]].targets;
      assert rest[i - 1] == cover[i];
    }
  }

  /** If every item of a cover gains at most `most`, the cover gains at most |cover| times that. */
  lemma {:induction false} CoverBound(pool: Pool, cover: seq<Item>, uncovered: set<Target>, most: nat)
    requires Covers(pool, cover, uncovered) && GainsAtMost(pool, cover, uncovered, most)
    ensures UpTo(|uncovered|, |cover|, most)
    decreases |cover|
  {
    if cover == [] {
      NoneCovers(pool, cover, uncovered, most);
    } else {
      var left := uncovered - Gain(pool, uncovered, cover[0]);
      RestCovers(pool, cover, uncovered);
      RestGains(pool, cover, uncovered, left, most);
      CoverBound(pool, cover[1..], left, most);
      FirstCovers(pool, cover, uncovered, most);
    }
  }

  lemma NoneCovers(pool: Pool, cover: seq<Item>, uncovered: set<Target>, most: nat)
    requires cover == [] && Covers(pool, cover, uncovered)
    ensures UpTo(|uncovered|, |cover|, most)
  {
    NothingToCover(pool, uncovered);
  }

  lemma FirstCovers(pool: Pool, cover: seq<Item>, uncovered: set<Target>, most: nat)
    requires cover != [] && GainsAtMost(pool, cover, uncovered, most)
    requires UpTo(|uncovered - Gain(pool, uncovered, cover[0])|, |cover[1..]|, most)
    ensures UpTo(|uncovered|, |cover|, most)
  {
    var head := Gain(pool, uncovered, cover[0]);
    SplitSize(uncovered, head);
    OneMore(|cover|, most, |uncovered - head|, |head|, |uncovered|);
  }

  lemma BestGainsMost(pool: Pool, uncovered: set<Target>, remaining: set<Item>, chosen: set<Item>, best: Item,
                      item: Item)
    requires IsBest(pool, uncovered, chosen, remaining, best) && Spent(pool, uncovered, remaining)
    ensures |Gain(pool, uncovered, item)| <= |Gain(pool, uncovered, best)|
  {
    if !Useful(pool, uncovered, item) {
      assert Gain(pool, uncovered, item) == {};
    } else if item != best {
      assert item in remaining;
      assert Ahead(ScoreOf(pool, uncovered, chosen, best), ScoreOf(pool, uncovered, chosen, item));
    }
  }

  /** The greedy pick covers at least its share of what a cover of size k would. */
  lemma GreedyShare(pool: Pool, cover: seq<Item>, uncovered: set<Target>, remaining: set<Item>, chosen: set<Item>,
                    best: Item)
    requires Covers(pool, cover, uncovered) && Spent(pool, uncovered, remaining)
    requires IsBest(pool, uncovered, chosen, remaining, best)
    ensures Shrinks(|uncovered|, |uncovered - Gain(pool, uncovered, best)|, |cover|)
  {
    var gained := Gain(pool, uncovered, best);
    forall i | 0 <= i < |cover| ensures |Gain(pool, uncovered, cover[i])| <= |gained| {
      BestGainsMost(pool, uncovered, remaining, chosen, best, cover[i]);
    }
    CoverBound(pool, cover, uncovered, |gained|);
    SplitSize(uncovered, gained);
    TimesIsProduct(|cover|, |gained|);
    ShareArithmetic(|cover|, |uncovered|, |gained|, |uncovered - gained|);
  }

  lemma ShareArithmetic(k: nat, whole: nat, gain: nat, left: nat)
    requires whole == gain + left && whole <= k * gain
    ensures Shrinks(whole, left, k)
  {
    assert k * left == k * whole - k * gain;
  }

  function Power(base: int, exponent: nat): int {
    if exponent == 0 then 1 else base * Power(base, exponent - 1)
  }

  lemma {:induction false} PowerNonnegative(base: nat, exponent: nat)
    ensures Power(base, exponent) >= 0
  {
    if exponent > 0 { PowerNonnegative(base, exponent - 1); }
  }

  /** Each pick leaves at most (k-1)/k of what was uncovered before it. */
  ghost predicate Shrinks(before: nat, after: nat, k: nat) {
    k * after <= (k - 1) * before
  }

  /** The number of targets still uncovered after the first t picks. */
  function Uncovered(uncovered: set<Target>, picks: seq<Pick>, t: nat): nat
    requires t <= |picks|
  {
    |uncovered - Gained(picks[..t])|
  }

  lemma {:induction false} EveryPickShrinks(pool: Pool, cover: seq<Item>, uncovered: set<Target>, remaining: set<Item>,
                                            chosen: set<Item>, limit: Option<nat>, t: nat)
    requires Covers(pool, cover, uncovered) && Spent(pool, uncovered, remaining)
    requires t < |Greedy(pool, uncovered, remaining, chosen, limit)|
    ensures
      var picks := Greedy(pool, uncovered, remaining, chosen, limit);
      Shrinks(Uncovered(uncovered, picks, t), Uncovered(uncovered, picks, t + 1), |cover|)
    decreases |remaining|
  {
    var picks := Greedy(pool, uncovered, remaining, chosen, limit);
    var best := Best(pool, uncovered, chosen, remaining);
    var gained := pool[best].targets * uncovered;
    GreedyStep(pool, uncovered, remaining, chosen, limit, best);
    AfterFirst(uncovered, picks, t + 1);
    if t == 0 {
      GreedyShare(pool, cover, uncovered, remaining, chosen, best);
      BeforeFirst(uncovered, picks);
      BeforeFirst(uncovered - gained, picks[1..]);
    } else {
      AfterFirst(uncovered, picks, t);
      KeepsCover(pool, cover, uncovered, remaining, best);
      EveryPickShrinks(pool, cover, uncovered - gained, remaining - {best}, chosen + {best}, Less(limit), t - 1);
    }
  }

  lemma BeforeFirst(uncovered: set<Target>, picks: seq<Pick>)
    ensures uncovered - Gained(picks[..0]) == uncovered
  {
  }

  lemma KeepsCover(pool: Pool, cover: seq<Item>, uncovered: set<Target>, remaining: set<Item>, best: Item)
    requires Covers(pool, cover, uncovered) && Spent(pool, uncovered, remaining) && best in pool
    ensures
      var next := uncovered - pool[best].targets * uncovered;
      Covers(pool, cover, next) && Spent(pool, next, remaining - {best})
  {
  }

  lemma AfterFirst(uncovered: set<Target>, picks: seq<Pick>, t: nat)
    requires 0 < t <= |picks|
    ensures uncovered - Gained(picks[..t]) == (uncovered - picks[0].gained) - Gained(picks[1..][..t - 1])
  {
    assert picks[..t][1..] == picks[1..][..t - 1];
  }

  /** At most whole * ((k-1)/k)^t are left. */
  ghost predicate Geometric(left: nat, whole: nat, k: nat, t: nat) {
    left * Power(k, t) <= whole * Power(k - 1, t)
  }

  lemma GeometricStart(whole: nat, k: nat)
    ensures Geometric(whole, whole, k, 0)
  {
  }

  lemma GeometricStep(k: nat, t: nat, left: nat, next: nat, whole: nat)
    requires k >= 1 && t >= 1 && Geometric(next, whole, k, t - 1) && Shrinks(next, left, k)
    ensures Geometric(left, whole, k, t)
  {
    var p, q := Power(k, t - 1), Power(k - 1, t - 1);
    PowerNonnegative(k, t - 1);
    ScaleOrder(k * left, (k - 1) * next, p);
    ScaleOrder(next * p, whole * q, k - 1);
    Regroup(left, k, p);
    Regroup(next, k - 1, p);
    Regroup(whole, k - 1, q);
  }

  lemma ScaleOrder(a: int, b: int, n: nat)
    requires a <= b
    ensures a * n <= b * n
  {
  }

  lemma Regroup(a: int, b: int, c: int)
    ensures (b * a) * c == a * (b * c) && (a * c) * b == a * (b * c)
  {
  }

  /** Counts that shrink at every step decay geometrically. */
  lemma {:induction false} GeometricDecay(left: seq<nat>, k: nat, t: nat)
    requires t < |left| && k >= 1 && forall i :: 0 <= i < t ==> Shrinks(left[i], left[i + 1], k)
    ensures Geometric(left[t], left[0], k, t)
  {
    if t == 0 {
      GeometricStart(left[0], k);
    } else {
      GeometricDecay(left, k, t - 1);
      assert Shrinks(left[t - 1], left[t - 1 + 1], k);
      GeometricStep(k, t, left[t], left[t - 1], left[0]);
    }
  }

  /** The targets left uncovered before each of the first t picks and after the last. */
  function Remaining(all: set<Target>, picks: seq<Pick>, t: nat): (left: seq<nat>)
    requires t <= |picks|
    ensures |left| == t + 1 && forall i :: 0 <= i <= t ==> left[i] == Uncovered(all, picks, i)
  {
    seq(t + 1, i requires 0 <= i <= t => Uncovered(all, picks, i))
  }

  /**
    Geometric coverage: if some k items cover all n targets, then after t picks at most
    n * ((k-1)/k)^t targets are uncovered.
   */
  lemma PanelCoverage(pool: Pool, cover: seq<Item>, limit: Option<nat>, t: nat)
    requires cover != [] && Covers(pool, cover, AllTargets(pool))
    requires t <= |Greedy(pool, AllTargets(pool), pool.Keys, {}, limit)|
    ensures
      var picks := Greedy(pool, AllTargets(pool), pool.Keys, {}, limit);
      Geometric(Uncovered(AllTargets(pool), picks, t), |AllTargets(pool)|, |cover|, t)
  {
    var all := AllTargets(pool);
    var picks := Greedy(pool, all, pool.Keys, {}, limit);
    var left := Remaining(all, picks, t);
    forall i | 0 <= i < t ensures Shrinks(left[i], left[i + 1], |cover|) {
      EveryPickShrinks(pool, cover, all, pool.Keys, {}, limit, i);
    }
    BeforeFirst(all, picks);
    assert left[0] == |all|;
    GeometricDecay(left, |cover|, t);
  }
}
