/**
  Conservation in aggregation: every run of every bundle is counted once, under its own key
  (src/llm_hardtest/community_results.py:121-217).
 */
module Conservation {
  import opened Sequences
  import opened Bundles
  import opened OrderFree
  import opened Aggregation

  datatype Totals = Totals(runs: nat, passed: real, total: real, incomplete: real, manualReview: real,
                           infrastructure: real)

  function Together(a: Totals, b: Totals): Totals {
    Totals(a.runs + b.runs, a.passed + b.passed, a.total + b.total, a.incomplete + b.incomplete,
           a.manualReview + b.manualReview, a.infrastructure + b.infrastructure)
  }

  function TotalsOf(runs: seq<Run>): Totals {
    Totals(|runs|, SumBy(runs, PassedOf), SumBy(runs, TotalOf), SumBy(runs, IncompleteOf),
           SumBy(runs, ReviewOf), SumBy(runs, ErrorsOf))
  }

  /** The runs with a key, whatever their bundle. */
  function WithKey(runs: seq<Run>, key: Key): seq<Run> {
    if runs == [] then []
    else (if KeyOf(runs[0]) == key then [runs[0]] else []) + WithKey(runs[1..], key)
  }

  function ShownBy(g: Group): Totals {
    Totals(g.runs, g.passed, g.total, g.incomplete, g.manualReview, g.infrastructure)
  }

  function ShownIn(s: Stats): Totals {
    Totals(s.runs, s.passed, s.total, s.incomplete, s.manualReview, s.infrastructure)
  }

  function InCell(c: Cell): Totals {
    Totals(c.runs, c.passed, c.total, c.incomplete, c.manualReview, c.infrastructure)
  }

  lemma LocalTotals(runs: seq<Run>)
    ensures InCell(CellOf(LocalOf(runs))) == TotalsOf(runs)
  {
    LocalFields(runs);
  }

  lemma TotalsConcat(a: seq<Run>, b: seq<Run>)
    ensures TotalsOf(a + b) == Together(TotalsOf(a), TotalsOf(b))
  {
    SumByConcat(a, b, PassedOf);
    SumByConcat(a, b, TotalOf);
    SumByConcat(a, b, IncompleteOf);
    SumByConcat(a, b, ReviewOf);
    SumByConcat(a, b, ErrorsOf);
  }

  lemma {:induction false} WithKeyConcat(a: seq<Run>, b: seq<Run>, key: Key)
    ensures WithKey(a + b, key) == WithKey(a, key) + WithKey(b, key)
    decreases |a|
  {
    if a == [] {
      assert a + b == b;
    } else {
      assert (a + b)[1..] == a[1..] + b;
      WithKeyConcat(a[1..], b, key);
    }
  }

  lemma {:induction false} WithKeyOfBundle(runs: seq<Run>, bundle: Id, key: Key)
    requires OneBundle(runs, bundle)
    ensures WithKey(runs, key) == Matching(runs, bundle, key)
    decreases |runs|
  {
    if runs != [] { WithKeyOfBundle(runs[1..], bundle, key); }
  }

  /** One bundle contributes to a key exactly the totals of its runs with that key. */
  lemma BundleContribution(s: Submission, key: Key)
    requires ValidSubmission(s)
    ensures
      var locals, mine := LocalsOf(RunsOf(s)), WithKey(RunsOf(s), key);
      && (key in locals <==> mine != [])
      && (key in locals ==> InCell(CellOf(locals[key])) == TotalsOf(mine))
  {
    RunsComeFromModels(s, |s.models|);
    LocalsLookup(RunsOf(s), s.bundle, key);
    WithKeyOfBundle(RunsOf(s), s.bundle, key);
    LocalTotals(WithKey(RunsOf(s), key));
  }

  /** Bundles with at least one run under a key. */
  function Contributors(subs: seq<Submission>, key: Key): nat
    requires ValidSubmissions(subs)
  {
    if subs == [] then 0
    else Contributors(subs[..|subs| - 1], key) + (if WithKey(RunsOf(subs[|subs| - 1]), key) != [] then 1 else 0)
  }

  /** The cells of a key show the totals of its runs, one cell per contributing bundle. */
  ghost predicate Shows(cells: seq<Cell>, mine: seq<Run>, bundles: nat) {
    && |cells| == bundles && (cells != [] <==> mine != [])
    && GroupOf(cells).submissions == bundles && ShownBy(GroupOf(cells)) == TotalsOf(mine)
  }

  lemma OneMoreBundle(before: seq<Cell>, earlier: seq<Run>, bundles: nat, locals: Locals, key: Key, mine: seq<Run>)
    requires Shows(before, earlier, bundles)
    requires key in locals <==> mine != []
    requires key in locals ==> InCell(CellOf(locals[key])) == TotalsOf(mine)
    ensures Shows(before + CellHere(locals, key), earlier + mine, bundles + (if mine != [] then 1 else 0))
  {
    TotalsConcat(earlier, mine);
    if key in locals {
      GroupAppend(before, CellOf(locals[key]));
    } else {
      assert before + [] == before && earlier + [] == earlier;
    }
  }

  /** What the last bundle adds to the cells, the runs and the contributors of a key. */
  lemma LastCells(init: seq<Submission>, s: Submission, key: Key)
    requires ValidSubmissions(init) && ValidSubmissions(init + [s]) && ValidSubmission(s)
    ensures CellsIn(BundleLocals(init + [s]), key)
         == CellsIn(BundleLocals(init), key) + CellHere(LocalsOf(RunsOf(s)), key)
  {
    var before := BundleLocals(init);
    assert BundleLocals(init + [s]) == before + [LocalsOf(RunsOf(s))];
    CellsAppend(before, LocalsOf(RunsOf(s)), key);
  }

  lemma CellsAppend(list: seq<Locals>, last: Locals, key: Key)
    ensures CellsIn(list + [last], key) == CellsIn(list, key) + CellHere(last, key)
  {
    assert (list + [last])[..|list|] == list;
  }

  lemma LastRuns(init: seq<Submission>, s: Submission, key: Key)
    requires ValidSubmissions(init) && ValidSubmissions(init + [s]) && ValidSubmission(s)
    ensures WithKey(AllRuns(init + [s]), key) == WithKey(AllRuns(init), key) + WithKey(RunsOf(s), key)
  {
    assert (init + [s])[..|init|] == init;
    WithKeyConcat(AllRuns(init), RunsOf(s), key);
  }

  lemma LastContributor(init: seq<Submission>, s: Submission, key: Key)
    requires ValidSubmissions(init) && ValidSubmissions(init + [s]) && ValidSubmission(s)
    ensures Contributors(init + [s], key) == Contributors(init, key) + (if WithKey(RunsOf(s), key) != [] then 1 else 0)
  {
    assert (init + [s])[..|init|] == init;
  }

  lemma {:induction false} Conserved(subs: seq<Submission>, key: Key)
    requires ValidSubmissions(subs)
    ensures Shows(CellsIn(BundleLocals(subs), key), WithKey(AllRuns(subs), key), Contributors(subs, key))
    decreases |subs|
  {
    if subs != [] {
      var init, s := subs[..|subs| - 1], subs[|subs| - 1];
      assert subs == init + [s];
      Conserved(init, key);
      LastCells(init, s, key);
      LastRuns(init, s, key);
      LastContributor(init, s, key);
      BundleContribution(s, key);
      OneMoreBundle(CellsIn(BundleLocals(init), key), WithKey(AllRuns(init), key), Contributors(init, key),
                    LocalsOf(RunsOf(s)), key, WithKey(RunsOf(s), key));
    }
  }

  /** A row exists exactly for the keys some run has; its totals are those of all runs with the key,
      and its submissions are the bundles that have one. */
  lemma NothingIsLost(subs: seq<Submission>, wilson: Wilson, key: Key)
    requires ValidSubmissions(subs) && Consistent(map[], AllModels(subs))
    ensures
      var rows, mine := DirectRows(subs, wilson), WithKey(AllRuns(subs), key);
      && (key in rows <==> mine != [])
      && (key in rows ==> ShownIn(rows[key].stats) == TotalsOf(mine))
      && (key in rows ==> rows[key].stats.submissions == Contributors(subs, key))
  {
    DirectKnown(subs);
    MergeLookup(BundleLocals(subs), key);
    Conserved(subs, key);
  }
}
