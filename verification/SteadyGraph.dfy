/**
  Code whose graph fusion and optimizer leave alone: no branch depends on what can become a constant, and every
  block is reached. Of such code it can be told beforehand where the peephole loop will cut.
 */
module SteadyGraph {
  import opened Options
  import opened Mir
  import opened Ssa
  import opened Rewriting
  import opened Removal
  import opened Graph
  import opened Scan
  import opened RewritingPasses
  import opened DeletingPasses
  import opened BranchPasses
  import opened Chains
  import opened Fusion
  import opened CopyFusion
  import opened LostValues
  import opened FallThrough
  import opened Pipeline
  import Optimizer

  // ---------------------------------------------------------------- what becomes of instructions

  /** The instruction stays, or something else than a load or a call becomes simpler. */
  predicate Stems(was: Inst, now: Inst) {
    || now == was
    || (&& !was.Load? && !was.Call? && Dest(was).Some? && Dest(now) == Dest(was)
        && (now.LoadConst? || now.Copy? || (was.Binary? && now.Binary?) || (was.MethodCall? && now.MethodCall?)))
  }

  predicate StemsAt(f: Func, g: Func, c: nat, i: nat, j: nat) {
    At(f, c, i) && At(g, c, j) && Stems(InstAt(f, c, i), InstAt(g, c, j))
  }

  /** The same graph, and every instruction stems from one of the same block. */
  ghost predicate Steady(f: Func, g: Func) {
    SameGraph(f, g) && forall c: nat, j: nat :: At(g, c, j) ==> exists i: nat :: StemsAt(f, g, c, i, j)
  }

  lemma SteadyTransitive(f: Func, g: Func, h: Func)
    requires Steady(f, g) && Steady(g, h)
    ensures Steady(f, h)
  {
    forall c: nat, j: nat | At(h, c, j)
      ensures exists i: nat :: StemsAt(f, h, c, i, j)
    {
      var k: nat :| StemsAt(g, h, c, k, j);
      var i: nat :| StemsAt(f, g, c, i, k);
      assert StemsAt(f, h, c, i, j);
    }
  }

  lemma SameShapeIsSteady(f: Func, g: Func)
    requires SameShape(f, g) && forall c: nat, j: nat :: At(f, c, j) ==> Stems(InstAt(f, c, j), InstAt(g, c, j))
    ensures Steady(f, g)
  {
    forall c: nat, j: nat | At(g, c, j)
      ensures exists i: nat :: StemsAt(f, g, c, i, j)
    {
      assert At(f, c, j) && StemsAt(f, g, c, j, j);
    }
  }

  lemma ScannedIsSteady<M>(step: (M, Inst, Inst) -> M, init: M, leave: M -> M, rewrite: (M, Inst) -> Option<Inst>,
                           f: Func, g: Func)
    requires Scanned(step, init, leave, rewrite, f, g)
    requires forall t, inst, now :: rewrite(t, inst) == Some(now) ==> Stems(inst, now)
    ensures Steady(f, g)
  {
    forall c: nat, j: nat | At(f, c, j)
      ensures Stems(InstAt(f, c, j), InstAt(g, c, j))
    {
      assert rewrite(TableAt(step, init, leave, f, g, c, j), InstAt(f, c, j)) == Some(InstAt(g, c, j));
    }
    SameShapeIsSteady(f, g);
  }

  lemma FilteredIsSteady(f: Func, g: Func, keep: Inst -> bool)
    requires Filtered(f, g, keep)
    ensures Steady(f, g)
  {
    forall c: nat, j: nat | At(g, c, j)
      ensures exists i: nat :: StemsAt(f, g, c, i, j)
    {
      var i := KeptSource(f.blocks[c].insts, keep, |f.blocks[c].insts|, j);
      assert StemsAt(f, g, c, i, j);
    }
  }

  // ---------------------------------------------------------------- the graph

  /** No branch depends on anything but what was loaded or returned by a call. */
  ghost predicate Undecided(f: Func) {
    forall b: nat, c: nat, j: nat ::
      b < |f.blocks| && f.blocks[b].term.CondBranch? && Def(f, f.blocks[b].term.cond, c, j)
      ==> InstAt(f, c, j).Load? || InstAt(f, c, j).Call?
  }

  lemma SteadyStaysUndecided(f: Func, g: Func)
    requires Steady(f, g) && Undecided(f)
    ensures Undecided(g)
  {
    forall b: nat, c: nat, j: nat |
      b < |g.blocks| && g.blocks[b].term.CondBranch? && Def(g, g.blocks[b].term.cond, c, j)
      ensures InstAt(g, c, j).Load? || InstAt(g, c, j).Call?
    {
      var i: nat :| StemsAt(f, g, c, i, j);
      assert Def(f, f.blocks[b].term.cond, c, i);
    }
  }

  lemma SteadyStaysReached(f: Func, g: Func)
    requires Steady(f, g) && EveryBlockReached(f)
    ensures EveryBlockReached(g)
  {
    SamePaths(f, g);
    forall b | 0 <= b < |g.blocks|
      ensures Reachable(g, b)
    {
      assert Reachable(f, b);
      var p :| PathTo(f, p, b);
      assert PathTo(g, p, b);
    }
  }

  lemma {:induction false} ConstantsAreLoaded(f: Func, b: nat, i: nat, r: RegId)
    requires b < |f.blocks| && i <= |f.blocks[b].insts| && r in TableAt(LearnConst, map[], Unchanged, f, f, b, i)
    ensures exists c: nat, j: nat :: Def(f, r, c, j) && InstAt(f, c, j).LoadConst?
    decreases b, i
  {
    if i > 0 {
      var inst := InstAt(f, b, i - 1);
      if inst.LoadConst? && inst.dest == r {
        assert Def(f, r, b, i - 1);
      } else {
        ConstantsAreLoaded(f, b, i - 1, r);
      }
    } else {
      ConstantsAreLoaded(f, b - 1, |f.blocks[b - 1].insts|, r);
    }
  }

  lemma UndecidedBranchesStay(f: Func, g: Func)
    requires FoldsBranches(f, g) && Undecided(f)
    ensures g == f
  {
    forall b: nat | b < |f.blocks|
      ensures g.blocks[b] == f.blocks[b]
    {
      var term := f.blocks[b].term;
      if term.CondBranch? && term.cond in AllConstants(f) {
        ConstantsAreLoaded(f, |f.blocks| - 1, |f.blocks[|f.blocks| - 1].insts|, term.cond);
      }
    }
    assert g.blocks == f.blocks;
  }

  lemma {:induction false} AllAreSources(bs: seq<BasicBlock>, labels: set<Label>, n: nat)
    requires n <= |bs| && forall b :: 0 <= b < n ==> bs[b].lbl in labels
    ensures |Sources(bs, labels, n)| == n && forall k :: 0 <= k < n ==> Sources(bs, labels, n)[k] == k
  {
    if n > 0 {
      AllAreSources(bs, labels, n - 1);
    }
  }

  lemma ReachedBlocksStay(f: Func, g: Func)
    requires UnreachableGone(f, g) && EveryBlockReached(f)
    ensures g == f
  {
    if |f.blocks| > 1 {
      var labels :| SmallestClosed(f, labels) && Retains(f, g, labels);
      forall b | 0 <= b < |f.blocks|
        ensures f.blocks[b].lbl in labels
      {
        assert Reachable(f, b);
        var p :| PathTo(f, p, b);
        PathStaysInside(f, labels, p, b);
      }
      AllAreSources(f.blocks, labels, |f.blocks|);
      assert g.blocks == f.blocks;
    }
  }

  // ---------------------------------------------------------------- rounds, and the whole

  lemma RoundIsSteady(checks: bool, f: Func, g: Func)
    requires Optimizer.Round(checks, f, g) && Undecided(f) && EveryBlockReached(f)
    ensures Steady(f, g) && Undecided(g) && EveryBlockReached(g)
  {
    hide Scanned, Steady, Undecided, EveryBlockReached, FoldsBranches, UnreachableGone;
    var reused, stores :| Optimizer.RoundThrough(checks, f, reused, stores, g);
    var folded, propagated, code, nops, decided :|
      && FoldsConstants(checks, f, folded) && PropagatesConstants(folded, propagated)
      && ReusesResults(propagated, reused)
      && DeadStoresGone(reused, stores) && DeadCodeGone(stores, code) && Filtered(code, nops, IsNotNop)
      && FoldsBranches(nops, decided) && UnreachableGone(decided, g);
    ScansAreSteady(checks, f, folded, propagated, reused);
    DeletionsAreSteady(reused, stores, code, nops);
    SteadyTransitive(f, reused, nops);
    SteadyStaysUndecided(f, nops);
    SteadyStaysReached(f, nops);
    UndecidedBranchesStay(nops, decided);
    ReachedBlocksStay(decided, g);
  }

  lemma ScansAreSteady(checks: bool, f: Func, folded: Func, propagated: Func, reused: Func)
    requires FoldsConstants(checks, f, folded) && PropagatesConstants(folded, propagated)
    requires ReusesResults(propagated, reused)
    ensures Steady(f, reused)
  {
    hide Scanned, Steady;
    ScannedIsSteady(LearnConst, map[], Unchanged, Folder(checks), f, folded);
    ScannedIsSteady(LearnConst, map[], Unchanged, PropagateInst, folded, propagated);
    ScannedIsSteady(LearnBinary, map[], Unchanged, ReuseInst, propagated, reused);
    SteadyTransitive(f, folded, propagated);
    SteadyTransitive(f, propagated, reused);
  }

  lemma DeletionsAreSteady(f: Func, stores: Func, code: Func, nops: Func)
    requires DeadStoresGone(f, stores) && DeadCodeGone(stores, code) && Filtered(code, nops, IsNotNop)
    ensures Steady(f, nops)
  {
    hide Steady, Filtered;
    var loaded :| LoadedNames(f, loaded) && Filtered(f, stores, StoreIsLive(loaded));
    var used :| UsedRegisters(stores, used) && Filtered(stores, code, ResultIsUsed(used));
    FilteredIsSteady(f, stores, StoreIsLive(loaded));
    FilteredIsSteady(stores, code, ResultIsUsed(used));
    FilteredIsSteady(code, nops, IsNotNop);
    SteadyTransitive(f, stores, code);
    SteadyTransitive(f, code, nops);
  }

  lemma {:induction false} RoundsAreSteady(checks: bool, n: nat, f: Func, g: Func)
    requires Optimizer.Rounds(checks, n, f, g) && Undecided(f) && EveryBlockReached(f)
    ensures Steady(f, g) && Undecided(g) && EveryBlockReached(g)
  {
    hide Optimizer.Round, Undecided, EveryBlockReached, Steady;
    if n == 0 {
      SameShapeIsSteady(f, f);
    } else {
      var h :| Optimizer.Rounds(checks, n - 1, f, h) && Optimizer.Round(checks, h, g);
      RoundsAreSteady(checks, n - 1, f, h);
      RoundIsSteady(checks, h, g);
      SteadyTransitive(f, h, g);
    }
  }

  lemma CompiledIsSteady(checks: bool, f: Func, g: Func)
    requires Compiled(checks, f, g) && Undecided(f) && EveryBlockReached(f)
    ensures Steady(f, g)
  {
    hide Scanned, Steady, Undecided, EveryBlockReached, Optimizer.Rounds;
    var f1, f2, f3 :| FusesIntegers(f, f1) && FusesStrings(f1, f2) && FusesCopies(f2, f3)
                      && Optimizer.Rounds(checks, Optimizer.ROUNDS, f3, g);
    ScannedIsSteady(LearnInteger, NO_INTEGERS, RecordPlaceholders, FuseIntegers, f, f1);
    ScannedIsSteady(LearnLoaded, map[], Unchanged, FuseStrings, f1, f2);
    ScannedIsSteady<Chain>(LinkCopy, NoCopies(), Unchanged, FuseCopy, f2, f3);
    SteadyTransitive(f, f1, f2);
    SteadyTransitive(f, f2, f3);
    SteadyStaysUndecided(f, f3);
    SteadyStaysReached(f, f3);
    RoundsAreSteady(checks, Optimizer.ROUNDS, f3, g);
    SteadyTransitive(f, f3, g);
  }

  // ---------------------------------------------------------------- cuts

  lemma {:induction false} SteadyStaysQuiet(f: Func, g: Func, lbl: Label, n: nat)
    requires Steady(f, g) && Quiet(f, lbl, n)
    ensures Quiet(g, lbl, n)
    decreases n
  {
    SameLabelsFindFrom(f.blocks, g.blocks, lbl, 0);
    if Find(f.blocks, lbl).Some? {
      var b := Find(f.blocks, lbl).value;
      forall j: nat | j < |g.blocks[b].insts|
        ensures Pure(g.blocks[b].insts[j])
      {
        assert At(g, b, j) && InstAt(g, b, j) == g.blocks[b].insts[j];
        var i: nat :| StemsAt(f, g, b, i, j);
        assert f.blocks[b].insts[i] in f.blocks[b].insts && InstAt(f, b, i) == f.blocks[b].insts[i];
      }
      match f.blocks[b].term
      case Branch(l) => SteadyStaysQuiet(f, g, l, n - 1);
      case CondBranch(_, x, y) =>
        SteadyStaysQuiet(f, g, x, n - 1);
        SteadyStaysQuiet(f, g, y, n - 1);
      case _ =>
    }
  }

  lemma SteadyStaysHarmless(f: Func, g: Func)
    requires Steady(f, g) && HarmlessCuts(f)
    ensures HarmlessCuts(g)
  {
    SamePaths(f, g);
    forall b: nat | IsCut(g, b) && Reachable(g, b)
      ensures QuietSometime(g, g.blocks[b].term.target)
    {
      var p :| PathTo(g, p, b);
      assert PathTo(f, p, b);
      assert IsCut(f, b) && QuietSometime(f, f.blocks[b].term.target);
      var n: nat :| Quiet(f, f.blocks[b].term.target, n);
      SteadyStaysQuiet(f, g, f.blocks[b].term.target, n);
    }
  }

  lemma MaskedIsSteady(f: Func, g: Func, live: iset<RegId>)
    requires Steady(f, g)
    ensures Steady(Mask(f, live), Mask(g, live))
  {
    var f', g' := Mask(f, live), Mask(g, live);
    forall c: nat, j: nat | At(g', c, j)
      ensures exists i: nat :: StemsAt(f', g', c, i, j)
    {
      assert At(g, c, j);
      var i: nat :| StemsAt(f, g, c, i, j);
      assert StemsAt(f', g', c, i, j);
    }
  }
}
