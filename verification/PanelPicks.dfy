/**
  What each pick of the greedy panel has over the items passed by, and what its status says
  (src/llm_hardtest/calibration.py:883-923).
 */
module PanelPicks {
  import opened Numbers
  import opened Panel

  // ----- no item passed by would have been the better pick -----

  function NewTargets(pool: Pool, left: set<Target>, item: Item): nat
    requires item in pool
  {
    |pool[item].targets * left|
  }

  /** How many items picked before depend on this one. */
  function Clashes(pool: Pool, earlier: set<Item>, item: Item): nat
    requires item in pool
  {
    |pool[item].dependency * earlier|
  }

  /** More new targets; among equals fewer clashes with the items picked before, then fewer dependencies, then
      the larger margin, then the larger effect, then the earlier name. */
  ghost predicate NoBetter(pool: Pool, left: set<Target>, earlier: set<Item>, y: Item, x: Item)
    requires x in pool && y in pool
  {
    var gain := NewTargets(pool, left, x) == NewTargets(pool, left, y);
    var clash := gain && Clashes(pool, earlier, x) == Clashes(pool, earlier, y);
    var degree := clash && |pool[x].dependency| == |pool[y].dependency|;
    var margin := degree && pool[x].margin == pool[y].margin;
    var effect := margin && pool[x].effect == pool[y].effect;
    && NewTargets(pool, left, x) <= NewTargets(pool, left, y)
    && (gain ==> Clashes(pool, earlier, y) <= Clashes(pool, earlier, x))
    && (clash ==> |pool[y].dependency| <= |pool[x].dependency|)
    && (degree ==> pool[y].margin >= pool[x].margin)
    && (margin ==> pool[y].effect >= pool[x].effect)
    && (effect ==> y.place <= x.place)
  }

  function Items(picks: seq<Pick>): set<Item> {
    if picks == [] then {} else {picks[0].item} + Items(picks[1..])
  }

  lemma BestIsNoBetter(pool: Pool, left: set<Target>, earlier: set<Item>, among: set<Item>, y: Item, x: Item)
    requires IsBest(pool, left, earlier, among, y) && x in among && x in pool
    ensures NoBetter(pool, left, earlier, y, x)
  {
    if x != y && !Useful(pool, left, x) {
      assert pool[y].targets * left != {};
    }
  }

  lemma {:induction false} PickFrom(pool: Pool, left: set<Target>, remaining: set<Item>, earlier: set<Item>,
                                    limit: Option<nat>, t: nat, x: Item)
    requires
      var picks := Greedy(pool, left, remaining, earlier, limit);
      t < |picks| && x in remaining && x in pool && x !in Items(picks[..t])
    ensures
      var picks := Greedy(pool, left, remaining, earlier, limit);
      picks[t].item in pool
      && NoBetter(pool, left - Gained(picks[..t]), earlier + Items(picks[..t]), picks[t].item, x)
    decreases |remaining|
  {
    var picks := Greedy(pool, left, remaining, earlier, limit);
    var best := Best(pool, left, earlier, remaining);
    var gained := pool[best].targets * left;
    if t == 0 {
      BestIsNoBetter(pool, left, earlier, remaining, best, x);
      assert left - Gained([]) == left && earlier + Items([]) == earlier;
    } else {
      var rest := Greedy(pool, left - gained, remaining - {best}, earlier + {best}, Less(limit));
      assert picks[0] == Pick(best, gained) && picks[1..] == rest;
      FirstOfPrefix(picks, t);
      PickFrom(pool, left - gained, remaining - {best}, earlier + {best}, Less(limit), t - 1, x);
      LaterPick(pool, left, earlier, picks[0], Gained(rest[..t - 1]), Items(rest[..t - 1]), rest[t - 1].item, x);
    }
  }

  lemma LaterPick(pool: Pool, left: set<Target>, earlier: set<Item>, first: Pick, gained: set<Target>,
                  items: set<Item>, y: Item, x: Item)
    requires x in pool && y in pool
    requires NoBetter(pool, left - first.gained - gained, earlier + {first.item} + items, y, x)
    ensures NoBetter(pool, left - (first.gained + gained), earlier + ({first.item} + items), y, x)
  {
    assert left - (first.gained + gained) == left - first.gained - gained;
    assert earlier + ({first.item} + items) == earlier + {first.item} + items;
  }

  lemma FirstOfPrefix(picks: seq<Pick>, t: nat)
    requires 0 < t <= |picks|
    ensures Gained(picks[..t]) == picks[0].gained + Gained(picks[1..][..t - 1])
    ensures Items(picks[..t]) == {picks[0].item} + Items(picks[1..][..t - 1])
  {
    assert picks[..t][1..] == picks[1..][..t - 1];
  }

  /** At every pick, no item that was not picked before has more new targets, or as many and a better tie-break. */
  lemma PicksAreBest(pool: Pool, limit: Option<nat>, t: nat, x: Item)
    requires
      var picks := Greedy(pool, AllTargets(pool), pool.Keys, {}, limit);
      t < |picks| && x in pool && x !in Items(picks[..t])
    ensures
      var picks := Greedy(pool, AllTargets(pool), pool.Keys, {}, limit);
      picks[t].item in pool
      && NoBetter(pool, AllTargets(pool) - Gained(picks[..t]), Items(picks[..t]), picks[t].item, x)
  {
    var picks := Greedy(pool, AllTargets(pool), pool.Keys, {}, limit);
    PickFrom(pool, AllTargets(pool), pool.Keys, {}, limit, t, x);
    assert {} + Items(picks[..t]) == Items(picks[..t]);
  }

  // ----- the status -----

  lemma {:induction false} ShortMeansCovered(pool: Pool, uncovered: set<Target>, remaining: set<Item>,
                                             chosen: set<Item>, limit: Option<nat>)
    requires uncovered <= AllTargets(pool) && Spent(pool, uncovered, remaining)
    requires limit.Some? ==> |Greedy(pool, uncovered, remaining, chosen, limit)| < limit.value
    ensures Gained(Greedy(pool, uncovered, remaining, chosen, limit)) == uncovered
    decreases |remaining|
  {
    if Stuck(pool, uncovered, remaining) {
      if x :| x in uncovered {
        SomeoneIsUseful(pool, uncovered, remaining, x);
      }
    } else {
      var best := Best(pool, uncovered, chosen, remaining);
      var gained := pool[best].targets * uncovered;
      ShortMeansCovered(pool, uncovered - gained, remaining - {best}, chosen + {best}, Less(limit));
    }
  }

  /** Some item of the pool confirms this target. */
  ghost predicate Confirmed(pool: Pool, x: Target) {
    exists i :: i in pool && x in pool[i].targets
  }

  /** COMPLETE: there are targets and the picks gain them all. PARTIAL: some are left, and then the panel has been
      cut off at its limit. Without targets the eligible pairs decide. */
  lemma PanelStatusMeans(pool: Pool, eligiblePairs: nat, limit: Option<nat>)
    ensures
      var all := AllTargets(pool);
      var picks := Greedy(pool, all, pool.Keys, {}, limit);
      var status := StatusOf(all, all - Gained(picks), eligiblePairs);
      && (status == Complete <==>
            (exists x :: Confirmed(pool, x)) && forall x :: Confirmed(pool, x) ==> x in Gained(picks))
      && (status == Partial <==> exists x :: Confirmed(pool, x) && x !in Gained(picks))
      && (status == Partial ==> limit == Some(|picks|))
      && (status == Insufficient <==> eligiblePairs == 0 && forall x :: !Confirmed(pool, x))
      && (status == NoDecisiveItems <==> eligiblePairs > 0 && forall x :: !Confirmed(pool, x))
  {
    var all := AllTargets(pool);
    var picks := Greedy(pool, all, pool.Keys, {}, limit);
    GreedyPartitions(pool, all, pool.Keys, {}, limit);
    if limit != Some(|picks|) {
      ShortMeansCovered(pool, all, pool.Keys, {}, limit);
    }
    StatusFromSets(pool, all, Gained(picks), eligiblePairs);
  }

  lemma StatusFromSets(pool: Pool, all: set<Target>, gained: set<Target>, eligiblePairs: nat)
    requires all == AllTargets(pool) && gained <= all
    ensures
      var status := StatusOf(all, all - gained, eligiblePairs);
      && (status == Complete <==> (exists x :: Confirmed(pool, x)) && forall x :: Confirmed(pool, x) ==> x in gained)
      && (status == Partial <==> exists x :: Confirmed(pool, x) && x !in gained)
      && (status == Partial ==> gained != all)
      && (status == Insufficient <==> eligiblePairs == 0 && forall x :: !Confirmed(pool, x))
      && (status == NoDecisiveItems <==> eligiblePairs > 0 && forall x :: !Confirmed(pool, x))
  {
    forall x ensures Confirmed(pool, x) <==> x in all {
    }
    assert all - gained == {} ==> forall x :: x in all ==> x in gained by {
      forall x | x in all && x !in gained ensures x in all - gained {
      }
    }
    if all - gained != {} {
      var x :| x in all - gained;
      assert Confirmed(pool, x);
    }
    if all != {} {
      var x :| x in all;
      assert Confirmed(pool, x);
    }
  }
}
