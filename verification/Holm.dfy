/**
  Holm's step-down correction with reserved family slots
  (src/llm_hardtest/paired_comparison.py:197-206, src/llm_hardtest/calibration.py:1094-1104).
 */
module Holm {
  import opened Numbers
  import opened ObjectiveRows

  datatype Key = Key(p: real, objective: int)

  predicate Before(a: Key, b: Key) {
    a.p < b.p || (a.p == b.p && a.objective < b.objective)
  }

  ghost predicate Ascending(keys: seq<Key>) {
    forall i, j :: 0 <= i < j < |keys| ==> Before(keys[i], keys[j])
  }

  ghost predicate Probabilities(keys: seq<Key>) {
    forall i :: 0 <= i < |keys| ==> 0.0 <= keys[i].p <= 1.0
  }

  /** A p-value times the slots still open at its rank. */
  function Product(p: real, slots: int): real {
    p * slots as real
  }

  /** The unclamped-by-history value at a zero-based rank. */
  function Scaled(keys: seq<Key>, family: int, rank: nat): real
    requires rank < |keys|
  {
    Min(1.0, Product(keys[rank].p, family - rank))
  }

  /** The running maximum the loop carries as `previous`. */
  function Adjusted(keys: seq<Key>, family: int, rank: nat): real
    requires rank < |keys|
  {
    Max(if rank == 0 then 0.0 else Adjusted(keys, family, rank - 1), Scaled(keys, family, rank))
  }

  // ----- order and bounds -----

  lemma {:induction false} AdjustedNondecreasing(keys: seq<Key>, family: int, i: nat, j: nat)
    requires i <= j < |keys|
    ensures Adjusted(keys, family, i) <= Adjusted(keys, family, j)
    decreases j
  {
    if i < j {
      AdjustedNondecreasing(keys, family, i, j - 1);
    }
  }

  /** Every adjusted value is attained at some rank not after its own. */
  lemma {:induction false} AdjustedAttained(keys: seq<Key>, family: int, rank: nat) returns (at: nat)
    requires rank < |keys| && |keys| <= family && Probabilities(keys)
    ensures at <= rank && Adjusted(keys, family, rank) == Scaled(keys, family, at)
  {
    at := rank;
    ScaledBounds(keys, family, rank);
    if rank > 0 && Adjusted(keys, family, rank - 1) > Scaled(keys, family, rank) {
      at := AdjustedAttained(keys, family, rank - 1);
    }
  }

  lemma ScaledBounds(keys: seq<Key>, family: int, rank: nat)
    requires rank < |keys| && |keys| <= family && Probabilities(keys)
    ensures 0.0 <= Scaled(keys, family, rank) <= 1.0
    ensures keys[rank].p <= Scaled(keys, family, rank)
  {
    var p, slots := keys[rank].p, (family - rank) as real;
    assert slots >= 1.0;
    assert p * (slots - 1.0) >= 0.0;
    assert p * slots == p * (slots - 1.0) + p;
  }

  lemma AdjustedBounds(keys: seq<Key>, family: int, rank: nat)
    requires rank < |keys| && |keys| <= family && Probabilities(keys)
    ensures keys[rank].p <= Adjusted(keys, family, rank) <= 1.0
  {
    ScaledBounds(keys, family, rank);
    var at := AdjustedAttained(keys, family, rank);
    ScaledBounds(keys, family, at);
  }

  // ----- step-down rejection -----

  /** Step-down Holm: reject in order until the first scaled p-value that misses alpha. */
  function StepDown(keys: seq<Key>, family: int, alpha: real, from: nat): (stop: nat)
    requires from <= |keys|
    ensures from <= stop <= |keys|
    decreases |keys| - from
  {
    if from < |keys| && Product(keys[from].p, family - from) < alpha
    then StepDown(keys, family, alpha, from + 1)
    else from
  }

  lemma {:induction false} StepDownSplits(keys: seq<Key>, family: int, alpha: real, from: nat)
    requires from <= |keys| && 0.0 < alpha <= 1.0
    ensures
      var stop := StepDown(keys, family, alpha, from);
      && (forall i :: from <= i < stop ==> Scaled(keys, family, i) < alpha)
      && (stop < |keys| ==> Scaled(keys, family, stop) >= alpha)
    decreases |keys| - from
  {
    if from < |keys| && Product(keys[from].p, family - from) < alpha {
      StepDownSplits(keys, family, alpha, from + 1);
    }
  }

  lemma {:induction false} AdjustedBelow(keys: seq<Key>, family: int, alpha: real, rank: nat)
    requires rank < |keys| && alpha > 0.0
    ensures Adjusted(keys, family, rank) < alpha <==> forall i :: 0 <= i <= rank ==> Scaled(keys, family, i) < alpha
  {
    if rank > 0 {
      AdjustedBelow(keys, family, alpha, rank - 1);
    }
  }

  /** An adjusted p-value is below alpha exactly for the rows step-down Holm rejects. */
  lemma RejectedExactly(keys: seq<Key>, family: int, alpha: real, rank: nat)
    requires rank < |keys| && 0.0 < alpha <= 1.0
    ensures Adjusted(keys, family, rank) < alpha <==> rank < StepDown(keys, family, alpha, 0)
  {
    StepDownSplits(keys, family, alpha, 0);
    AdjustedBelow(keys, family, alpha, rank);
  }

  // ----- the familywise argument -----

  ghost predicate Ranks(chosen: set<nat>, keys: seq<Key>) {
    forall i :: i in chosen ==> i < |keys|
  }

  lemma {:induction false} CountBetween(chosen: set<nat>, low: nat, high: nat)
    requires low <= high
    requires forall i :: i in chosen ==> low <= i < high
    ensures |chosen| <= high - low
    decreases high - low
  {
    if low == high {
      assert chosen == {};
    } else {
      CountBetween(chosen - {low}, low + 1, high);
    }
  }

  /**
    If any member of a set of hypotheses is rejected, then one member passes the
    Bonferroni test over that set and the reserved slots.
   */
  lemma Familywise(keys: seq<Key>, family: int, alpha: real, chosen: set<nat>, hit: nat) returns (member: nat)
    requires Ranks(chosen, keys) && hit in chosen
    requires |keys| <= family && Probabilities(keys) && 0.0 < alpha <= 1.0
    requires Adjusted(keys, family, hit) < alpha
    ensures member in chosen
    ensures Product(keys[member].p, |chosen| + family - |keys|) < alpha
  {
    member := Least(chosen, hit);
    CountBetween(chosen, member, |keys|);
    AdjustedBelow(keys, family, alpha, hit);
    BelowScaled(keys, family, alpha, member);
    FewerSlots(keys[member].p, |chosen| + family - |keys|, family - member);
  }

  lemma BelowScaled(keys: seq<Key>, family: int, alpha: real, rank: nat)
    requires rank < |keys| && alpha <= 1.0 && Scaled(keys, family, rank) < alpha
    ensures Product(keys[rank].p, family - rank) < alpha
  {
  }

  lemma FewerSlots(p: real, few: int, many: int)
    requires 0.0 <= p && 0 <= few <= many
    ensures Product(p, few) <= Product(p, many)
  {
    ProductGrows(p, p, few as real, many as real);
  }

  lemma {:induction false} Least(chosen: set<nat>, bound: nat) returns (least: nat)
    requires bound in chosen
    ensures least in chosen && least <= bound && forall i :: i in chosen ==> least <= i
    decreases bound
  {
    if i :| i in chosen && i < bound {
      least := Least(chosen, i);
    } else {
      least := bound;
    }
  }

  // ----- subset queries under one declared family -----

  lemma {:induction false} LaterInWhole(part: seq<Key>, whole: seq<Key>, rank: nat, place: nat)
    requires Ascending(part) && Ascending(whole)
    requires forall i :: 0 <= i < |part| ==> part[i] in whole
    requires rank < |part| && place < |whole| && part[rank] == whole[place]
    ensures rank <= place
    decreases rank
  {
    if rank > 0 {
      assert part[rank - 1] in whole;
      var before :| 0 <= before < |whole| && whole[before] == part[rank - 1];
      assert Before(whole[before], whole[place]);
      assert before < place;
      LaterInWhole(part, whole, rank - 1, before);
    }
  }

  lemma {:induction false} FirstAtLeast(part: seq<Key>, bound: Key, rank: nat) returns (first: nat)
    requires rank < |part| && !Before(part[rank], bound)
    ensures first <= rank && !Before(part[first], bound)
    ensures first > 0 ==> Before(part[first - 1], bound)
    decreases rank
  {
    if rank > 0 && !Before(part[rank - 1], bound) {
      first := FirstAtLeast(part, bound, rank - 1);
    } else {
      first := rank;
    }
  }

  /** A hypothesis asked in a smaller query gets at least the adjusted p-value of the full query. */
  lemma SubsetAdjusted(part: seq<Key>, whole: seq<Key>, family: int, rank: nat, place: nat)
    requires Ascending(part) && Ascending(whole) && Probabilities(whole)
    requires forall i :: 0 <= i < |part| ==> part[i] in whole
    requires rank < |part| && place < |whole| && part[rank] == whole[place]
    requires |whole| <= family
    ensures Adjusted(part, family, rank) >= Adjusted(whole, family, place)
  {
    var at := AdjustedAttained(whole, family, place);
    assert !Before(part[rank], whole[at]);
    var first := FirstAtLeast(part, whole[at], rank);
    FirstNotLater(part, whole, first, at);
    AdjustedNondecreasing(part, family, first, rank);
    assert part[first] in whole;
    ScaledOrder(part, first, whole, at, family);
  }

  lemma ScaledOrder(part: seq<Key>, first: nat, whole: seq<Key>, at: nat, family: int)
    requires first < |part| && at < |whole| <= family && first <= at
    requires 0.0 <= whole[at].p <= part[first].p
    ensures Scaled(whole, family, at) <= Scaled(part, family, first)
  {
    ProductGrows(whole[at].p, part[first].p, (family - at) as real, (family - first) as real);
  }

  lemma FirstNotLater(part: seq<Key>, whole: seq<Key>, first: nat, at: nat)
    requires Ascending(part) && Ascending(whole) && first < |part| && at < |whole|
    requires forall i :: 0 <= i < |part| ==> part[i] in whole
    requires first > 0 ==> Before(part[first - 1], whole[at])
    ensures first <= at
  {
    if first > 0 {
      assert part[first - 1] in whole;
      var before :| 0 <= before < |whole| && whole[before] == part[first - 1];
      assert before < at;
      LaterInWhole(part, whole, first - 1, before);
    }
  }

  lemma ProductGrows(p: real, q: real, f: real, g: real)
    requires 0.0 <= p <= q && 0.0 <= f <= g
    ensures p * f <= q * g
  {
    assert (q - p) * f >= 0.0;
    assert q * (g - f) >= 0.0;
    assert q * g == p * f + (q - p) * f + q * (g - f);
  }

  // ----- the published grid -----

  /** A multiple of one over the grid: round(x, 8) leaves such a number as it is. */
  predicate OnGrid(x: real, grid: real) {
    (x * grid).Floor as real == x * grid
  }

  lemma {:induction false} AdjustedOnGrid(keys: seq<Key>, family: int, rank: nat, grid: nat)
    requires rank < |keys|
    requires forall i :: 0 <= i < |keys| ==> OnGrid(keys[i].p, grid as real)
    ensures OnGrid(Adjusted(keys, family, rank), grid as real)
  {
    if rank > 0 {
      AdjustedOnGrid(keys, family, rank - 1, grid);
    }
    ScaledOnGrid(keys, family, rank, grid);
    assert OnGrid(0.0, grid as real);
  }

  lemma ScaledOnGrid(keys: seq<Key>, family: int, rank: nat, grid: nat)
    requires rank < |keys| && OnGrid(keys[rank].p, grid as real)
    ensures OnGrid(Scaled(keys, family, rank), grid as real)
  {
    MultipleOnGrid(keys[rank].p, family - rank, grid as real, Product(keys[rank].p, family - rank));
    OneOnGrid(grid);
  }

  lemma OneOnGrid(grid: nat)
    ensures OnGrid(1.0, grid as real)
  {
    assert 1.0 * grid as real == grid as real;
  }

  lemma MultipleOnGrid(p: real, slots: int, grid: real, x: real)
    requires OnGrid(p, grid) && x == p * slots as real
    ensures OnGrid(x, grid)
  {
    var k := (p * grid).Floor;
    Regroup(p, slots as real, grid);
    assert x * grid == (k * slots) as real;
  }

  lemma Regroup(a: real, b: real, c: real)
    ensures a * b * c == a * c * b
  {
  }

  // ----- the two loop forms -----

  lemma CapCommutes(previous: real, scaled: real)
    requires previous <= 1.0
    ensures Min(1.0, Max(previous, scaled)) == Max(previous, Min(1.0, scaled)) <= 1.0
  {
  }

  // ----- rows -----

  function KeyOf(row: Row): Key
    requires row.pRaw.Some?
  {
    Key(row.pRaw.value, row.objective)
  }

  /** A tested row on its way through sorted(): its key and where it sits in the list. */
  datatype Entry = Entry(key: Key, slot: nat)

  ghost predicate AscendingEntries(es: seq<Entry>) {
    forall i, j :: 0 <= i < j < |es| ==> Before(es[i].key, es[j].key)
  }

  function InsertEntry(es: seq<Entry>, e: Entry): (r: seq<Entry>)
    ensures |r| == |es| + 1
    ensures forall x :: x in r <==> x == e || x in es
  {
    if es == [] || Before(e.key, es[0].key) then [e] + es
    else
      assert es == [es[0]] + es[1..];
      [es[0]] + InsertEntry(es[1..], e)
  }

  /** The tested rows among the first n, in the order sorted() visits them. */
  function Entries(rows: seq<Row>, n: nat): seq<Entry>
    requires n <= |rows|
  {
    if n == 0 then []
    else if rows[n - 1].pRaw.None? then Entries(rows, n - 1)
    else InsertEntry(Entries(rows, n - 1), Entry(KeyOf(rows[n - 1]), n - 1))
  }

  function Order(rows: seq<Row>): seq<Entry> {
    Entries(rows, |rows|)
  }

  ghost predicate EntryOf(rows: seq<Row>, e: Entry) {
    e.slot < |rows| && rows[e.slot].pRaw.Some? && e.key == KeyOf(rows[e.slot])
  }

  lemma {:induction false} EntriesAreRows(rows: seq<Row>, n: nat)
    requires n <= |rows|
    ensures forall e :: e in Entries(rows, n) <==> EntryOf(rows, e) && e.slot < n
  {
    if n > 0 {
      EntriesAreRows(rows, n - 1);
      forall e ensures e in Entries(rows, n) <==> EntryOf(rows, e) && e.slot < n {
        assert e in Entries(rows, n - 1) <==> EntryOf(rows, e) && e.slot < n - 1;
      }
    }
  }

  /** Sorting keeps every tested row and yields strictly ascending keys. */
  lemma {:induction false} EntriesAscend(rows: seq<Row>, n: nat)
    requires n <= |rows| && DistinctObjectives(rows)
    ensures AscendingEntries(Entries(rows, n))
  {
    if n > 0 {
      EntriesAscend(rows, n - 1);
      if rows[n - 1].pRaw.Some? {
        EntriesAreRows(rows, n - 1);
        InsertAscends(Entries(rows, n - 1), Entry(KeyOf(rows[n - 1]), n - 1));
      }
    }
  }

  lemma {:induction false} InsertAscends(es: seq<Entry>, e: Entry)
    requires AscendingEntries(es)
    requires forall x :: x in es ==> x.key.objective != e.key.objective
    ensures AscendingEntries(InsertEntry(es, e))
    decreases |es|
  {
    if es != [] {
      assert es[0] in es;
      if !Before(e.key, es[0].key) {
        InsertAscends(es[1..], e);
        AscendingCons(es[0], InsertEntry(es[1..], e));
      } else {
        AscendingCons(e, es);
      }
    }
  }

  lemma AscendingCons(first: Entry, rest: seq<Entry>)
    requires AscendingEntries(rest) && forall x :: x in rest ==> Before(first.key, x.key)
    ensures AscendingEntries([first] + rest)
  {
    var all := [first] + rest;
    forall i, j | 0 <= i < j < |all| ensures Before(all[i].key, all[j].key) {
      assert all[j] == rest[j - 1] && rest[j - 1] in rest;
      if i > 0 { assert all[i] == rest[i - 1]; }
    }
  }

  function Keys(es: seq<Entry>): (r: seq<Key>)
    ensures |r| == |es| && forall i :: 0 <= i < |r| ==> r[i] == es[i].key
  {
    seq(|es|, i requires 0 <= i < |es| => es[i].key)
  }

  function RankOf(rows: seq<Row>, slot: nat): (rank: nat)
    requires slot < |rows| && rows[slot].pRaw.Some?
    ensures rank < |Order(rows)| && Order(rows)[rank] == Entry(KeyOf(rows[slot]), slot)
  {
    EntriesAreRows(rows, |rows|);
    assert EntryOf(rows, Entry(KeyOf(rows[slot]), slot));
    FindEntry(Order(rows), Entry(KeyOf(rows[slot]), slot))
  }

  function FindEntry(es: seq<Entry>, e: Entry): (i: nat)
    requires e in es
    ensures i < |es| && es[i] == e
  {
    if es[0] == e then 0 else 1 + FindEntry(es[1..], e)
  }

  function HolmOf(rows: seq<Row>, family: int, slot: nat): real
    requires slot < |rows| && rows[slot].pRaw.Some?
  {
    Adjusted(Keys(Order(rows)), family, RankOf(rows, slot))
  }

  /** What the in-place pass leaves behind. */
  function WithHolm(rows: seq<Row>, family: int): (r: seq<Row>)
    ensures |r| == |rows|
  {
    seq(|rows|, i requires 0 <= i < |rows| =>
      if rows[i].pRaw.None? then rows[i] else rows[i].(pHolm := Some(HolmOf(rows, family, i))))
  }

  /** A visiting order that names each of its rows once. */
  ghost predicate Visits(rows: seq<Row>, es: seq<Entry>) {
    && (forall i :: 0 <= i < |es| ==> EntryOf(rows, es[i]))
    && (forall i, j :: 0 <= i < j < |es| ==> es[i].slot != es[j].slot)
  }

  lemma OrderVisits(rows: seq<Row>)
    requires DistinctObjectives(rows)
    ensures Visits(rows, Order(rows))
  {
    EntriesAreRows(rows, |rows|);
    EntriesAscend(rows, |rows|);
    var es := Order(rows);
    forall i | 0 <= i < |es| ensures EntryOf(rows, es[i]) {
      assert es[i] in es;
    }
  }

  /** The rows after the first `rank` entries of the order have received their values. */
  ghost predicate Written(was: seq<Row>, now: seq<Row>, es: seq<Entry>, values: seq<real>, rank: nat)
    requires Visits(was, es)
  {
    && |now| == |was|
    && rank <= |es| && rank <= |values|
    && (forall r :: 0 <= r < rank ==> now[es[r].slot] == was[es[r].slot].(pHolm := Some(values[r])))
    && (forall s: nat :: s < |was| && (forall r :: 0 <= r < rank ==> es[r].slot != s) ==> now[s] == was[s])
  }

  lemma WriteNext(was: seq<Row>, now: seq<Row>, es: seq<Entry>, values: seq<real>, rank: nat)
    requires Visits(was, es) && Written(was, now, es, values, rank)
    requires rank < |es| && rank < |values|
    ensures EntryOf(was, es[rank])
    ensures now[es[rank].slot] == was[es[rank].slot]
    ensures Written(was, now[es[rank].slot := was[es[rank].slot].(pHolm := Some(values[rank]))], es, values, rank + 1)
  {
    var slot := es[rank].slot;
    var next := now[slot := was[slot].(pHolm := Some(values[rank]))];
    forall s: nat | s < |was| && forall r :: 0 <= r < rank + 1 ==> es[r].slot != s
      ensures next[s] == was[s]
    {
      assert s != slot;
    }
  }

  function AllAdjusted(keys: seq<Key>, family: int): (r: seq<real>)
    ensures |r| == |keys| && forall i :: 0 <= i < |r| ==> r[i] == Adjusted(keys, family, i)
  {
    seq(|keys|, i requires 0 <= i < |keys| => Adjusted(keys, family, i))
  }

  lemma WrittenAll(was: seq<Row>, now: seq<Row>, family: int)
    requires Visits(was, Order(was))
    requires Written(was, now, Order(was), AllAdjusted(Keys(Order(was)), family), |Order(was)|)
    ensures now == WithHolm(was, family)
  {
    var es := Order(was);
    forall s: nat | s < |was| ensures now[s] == WithHolm(was, family)[s] {
      if was[s].pRaw.Some? {
        assert es[RankOf(was, s)].slot == s;
      } else {
        assert forall r :: 0 <= r < |es| ==> EntryOf(was, es[r]);
      }
    }
  }

  method HolmAdjust(rows: array<Row>, family: int) returns (ok: bool)
    requires DistinctObjectives(rows[..])
    modifies rows
    ensures ok <==> |Order(old(rows[..]))| <= family
    ensures !ok ==> rows[..] == old(rows[..])
    ensures ok ==> rows[..] == WithHolm(old(rows[..]), family)
  {
    var order := Order(rows[..]);
    if family < |order| {
      return false;
    }
    OrderVisits(rows[..]);
    WriteRanks(rows, order, family);
    WrittenAll(old(rows[..]), rows[..], family);
    ok := true;
  }

  /** One assignment of the loop over the sorted rows. */
  method WriteRank(rows: array<Row>, ghost was: seq<Row>, order: seq<Entry>, ghost values: seq<real>, rank: nat,
                   value: real)
    requires Visits(was, order) && Written(was, rows[..], order, values, rank)
    requires rank < |order| && rank < |values| && value == values[rank]
    modifies rows
    ensures Written(was, rows[..], order, values, rank + 1)
  {
    WriteNext(was, rows[..], order, values, rank);
    var slot := order[rank].slot;
    assert rows[slot] == rows[..][slot];
    ghost var next := rows[..][slot := was[slot].(pHolm := Some(value))];
    rows[slot] := rows[slot].(pHolm := Some(value));
    assert rows[..] == next;
  }

  /** Ranks still to be visited have kept their p-value. */
  lemma StillRaw(was: seq<Row>, now: seq<Row>, es: seq<Entry>, values: seq<real>, rank: nat)
    requires Visits(was, es) && Written(was, now, es, values, rank) && rank < |es| && rank < |values|
    ensures es[rank].slot < |now| && now[es[rank].slot].pRaw == Some(es[rank].key.p)
  {
    WriteNext(was, now, es, values, rank);
  }

  /** The loop over the sorted rows, carrying the running maximum. */
  method WriteRanks(rows: array<Row>, order: seq<Entry>, family: int)
    requires Visits(rows[..], order)
    modifies rows
    ensures Written(old(rows[..]), rows[..], order, AllAdjusted(Keys(order), family), |order|)
  {
    ghost var was := rows[..];
    ghost var keys := Keys(order);
    ghost var values := AllAdjusted(keys, family);
    var previous := 0.0;
    for rank := 0 to |order|
      invariant previous == if rank == 0 then 0.0 else values[rank - 1]
      invariant Written(was, rows[..], order, values, rank)
    {
      StillRaw(was, rows[..], order, values, rank);
      var p := rows[order[rank].slot].pRaw.value;
      previous := Max(previous, Min(1.0, Product(p, family - rank)));
      WriteRank(rows, was, order, values, rank, previous);
    }
  }

  /**
    The out-of-fold loop: the family is the tested rows, and the cap comes after the maximum.
    A row's objective stands for its place by target, item and position, the order in which
    the stable sort breaks ties.
   */
  method HoldoutHolm(rows: array<Row>)
    requires DistinctObjectives(rows[..])
    modifies rows
    ensures rows[..] == WithHolm(old(rows[..]), |Order(old(rows[..]))|)
  {
    ghost var was := rows[..];
    var order := Order(rows[..]);
    OrderVisits(was);
    ghost var keys := Keys(order);
    ghost var values := AllAdjusted(keys, |order|);
    var previous := 0.0;
    for rank := 0 to |order|
      invariant previous == (if rank == 0 then 0.0 else values[rank - 1]) <= 1.0
      invariant Written(was, rows[..], order, values, rank)
    {
      StillRaw(was, rows[..], order, values, rank);
      var scaled := Product(rows[order[rank].slot].pRaw.value, |order| - rank);
      CapCommutes(previous, scaled);
      previous := Min(1.0, Max(previous, scaled));
      WriteRank(rows, was, order, values, rank, previous);
    }
    WrittenAll(was, rows[..], |order|);
  }

  /** Every tested objective of one query is tested with the same p-value in the other. */
  ghost predicate PartOf(part: seq<Row>, whole: seq<Row>) {
    forall a :: 0 <= a < |part| && part[a].pRaw.Some? ==> Answered(whole, part[a])
  }

  ghost predicate Answered(whole: seq<Row>, row: Row) {
    exists b :: 0 <= b < |whole| && whole[b].objective == row.objective && whole[b].pRaw == row.pRaw
  }

  /** Narrowing a query under the same declared family never lowers an adjusted p-value. */
  lemma SubsetSafe(part: seq<Row>, whole: seq<Row>, family: int, i: nat, j: nat)
    requires DistinctObjectives(part) && DistinctObjectives(whole) && ValidPValues(whole)
    requires PartOf(part, whole) && |Order(whole)| <= family
    requires i < |part| && j < |whole| && part[i].pRaw.Some?
    requires whole[j].objective == part[i].objective && whole[j].pRaw == part[i].pRaw
    ensures HolmOf(part, family, i) >= HolmOf(whole, family, j)
  {
    var few, many := Keys(Order(part)), Keys(Order(whole));
    EntriesAscend(part, |part|);
    EntriesAscend(whole, |whole|);
    OrderVisits(part);
    OrderVisits(whole);
    forall a | 0 <= a < |few| ensures few[a] in many {
      var row := part[Order(part)[a].slot];
      assert EntryOf(part, Order(part)[a]);
      assert Answered(whole, row);
      var b :| 0 <= b < |whole| && whole[b].objective == row.objective && whole[b].pRaw == row.pRaw;
      assert many[RankOf(whole, b)] == few[a];
    }
    forall a | 0 <= a < |many| ensures 0.0 <= many[a].p <= 1.0 {
      assert EntryOf(whole, Order(whole)[a]);
    }
    SubsetAdjusted(few, many, family, RankOf(part, i), RankOf(whole, j));
  }

  // ----- without a declared family -----

  /** When each query's family is what it tests, narrowing from n to m hypotheses never lowers an adjusted p-value. */
  ghost predicate NarrowingIsSafe(m: nat, n: nat) {
    forall part: seq<Key>, whole: seq<Key>, rank: nat, place: nat ::
      && |part| == m && |whole| == n && Ascending(part) && Ascending(whole) && Probabilities(whole)
      && (forall i :: 0 <= i < |part| ==> part[i] in whole)
      && rank < |part| && place < |whole| && part[rank] == whole[place]
      ==> Adjusted(part, m, rank) >= Adjusted(whole, n, place)
  }

  /** n hypotheses with one p-value. */
  function Ties(p: real, n: nat): (keys: seq<Key>)
    ensures |keys| == n && Ascending(keys) && forall i :: 0 <= i < n ==> keys[i] == Key(p, i)
  {
    seq(n, i => Key(p, i))
  }

  /** The default family is subset-safe only for a query that is not narrowed at all. */
  lemma DefaultFamilyIsSafeExactly(m: nat, n: nat)
    requires 1 <= m <= n
    ensures NarrowingIsSafe(m, n) <==> m == n
  {
    if m == n {
      forall part: seq<Key>, whole: seq<Key>, rank: nat, place: nat |
        && |part| == m && |whole| == n && Ascending(part) && Ascending(whole) && Probabilities(whole)
        && (forall i :: 0 <= i < |part| ==> part[i] in whole)
        && rank < |part| && place < |whole| && part[rank] == whole[place]
        ensures Adjusted(part, m, rank) >= Adjusted(whole, n, place)
      {
        SubsetAdjusted(part, whole, n, rank, place);
      }
    } else {
      var p := 1.0 / n as real;
      var part, whole := Ties(p, m), Ties(p, n);
      FewerTies(m, n, p);
      assert part[0] == whole[0];
      assert forall i :: 0 <= i < |part| ==> part[i] == whole[i];
      assert Adjusted(part, m, 0) < Adjusted(whole, n, 0);
    }
  }

  lemma FewerTies(m: nat, n: nat, p: real)
    requires 1 <= m < n && p == 1.0 / n as real
    ensures 0.0 <= p <= 1.0
    ensures Adjusted(Ties(p, m), m, 0) < Adjusted(Ties(p, n), n, 0)
  {
    Reciprocal(n as real);
    PartOfOne(n as real, m as real, p);
    FirstAdjusted(Ties(p, m), m, Product(p, m));
    FirstAdjusted(Ties(p, n), n, Product(p, n));
  }

  lemma FirstAdjusted(keys: seq<Key>, family: int, scaled: real)
    requires keys != [] && scaled == Product(keys[0].p, family) && 0.0 <= scaled <= 1.0
    ensures Adjusted(keys, family, 0) == scaled
  {
  }

  lemma Reciprocal(n: real)
    requires n > 0.0
    ensures 1.0 / n > 0.0 && (1.0 / n) * n == 1.0
  {
  }

  lemma PartOfOne(n: real, m: real, p: real)
    requires 1.0 <= m < n && 0.0 < p && p * n == 1.0
    ensures p <= 1.0 && 0.0 <= p * m < 1.0
  {
    Stretch(p, 1.0, n);
    Stretch(p, 0.0, m);
    var whole := p * n;
    assert p * m < whole by { Stretch(p, m, n); }
  }

  lemma Stretch(k: real, x: real, y: real)
    requires k > 0.0 && x < y
    ensures k * x < k * y
  {
  }
}
