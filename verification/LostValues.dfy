/**
  Functions that return the value of a conditional. The register of that value is not live in the sense of the
  passes, so they may change it; but with its returns masked, the function is fit for every pass. So the calls
  are kept, whatever the function returns.
 */
module LostValues {
  import opened Options
  import opened Mir
  import opened Ssa
  import opened Rewriting
  import opened Removal
  import opened Graph
  import opened Scan
  import opened Improvement
  import opened RewritingPasses
  import opened DeletingPasses
  import opened BranchPasses
  import opened Chains
  import opened Fusion
  import opened Peephole
  import Optimizer
  import PeepholeLoop

  /** A return of a register that is not live returns nothing. */
  ghost function MaskTerm(live: iset<RegId>, term: Terminator): Terminator {
    match term
    case Return(Some(r)) => if r in live then term else Return(None)
    case _ => term
  }

  ghost function Mask(f: Func, live: iset<RegId>): (g: Func)
    ensures g.params == f.params && |g.blocks| == |f.blocks|
    ensures forall b :: 0 <= b < |f.blocks| ==> g.blocks[b] == f.blocks[b].(term := MaskTerm(live, f.blocks[b].term))
  {
    Func(f.params,
         seq(|f.blocks|, b requires 0 <= b < |f.blocks| => f.blocks[b].(term := MaskTerm(live, f.blocks[b].term))))
  }

  // ---------------------------------------------------------------- runs

  lemma {:induction false} MaskedRun(m: Mode, world: World, f: Func, live: iset<RegId>, lbl: Label, st: State, gas: nat)
    ensures SameButValue(Run(m, world, f.blocks, lbl, st, gas), Run(m, world, Mask(f, live).blocks, lbl, st, gas))
    decreases gas
  {
    SameLabelsFindFrom(f.blocks, Mask(f, live).blocks, lbl, 0);
    if gas > 0 && Find(f.blocks, lbl).Some? {
      var block := f.blocks[Find(f.blocks, lbl).value];
      var e := ExecFrom(m, world, block.insts, 0, st);
      if e.Next? {
        match block.term
        case Branch(l) => MaskedRun(m, world, f, live, l, e.st, gas - 1);
        case CondBranch(r, t, el) =>
          MaskedRun(m, world, f, live, if Get(e.st.regs, r).IsTruthy() then t else el, e.st, gas - 1);
        case _ =>
      }
    }
  }

  // If masked functions run alike, the functions do but for the value.
  lemma UnmaskedRuns(m: Mode, f: Func, g: Func, live: iset<RegId>, world: World, args: seq<Value>, globals: Globals,
                     trace: seq<Event>, gas: nat)
    requires RefinesFunc(m, Mask(f, live), Mask(g, live))
    requires !RunFunc(m, world, f, args, globals, trace, gas).Aborted?
    ensures SameButValue(RunFunc(m, world, f, args, globals, trace, gas),
                         RunFunc(m, world, g, args, globals, trace, gas))
  {
    assert EntryLabel(f.blocks) == EntryLabel(Mask(f, live).blocks);
    assert EntryLabel(g.blocks) == EntryLabel(Mask(g, live).blocks);
    MaskedRun(m, world, f, live, EntryLabel(f.blocks), Enter(f, args, globals, trace), gas);
    MaskedRun(m, world, g, live, EntryLabel(g.blocks), Enter(g, args, globals, trace), gas);
    assert Refines(RunFunc(m, world, Mask(f, live), args, globals, trace, gas),
                   RunFunc(m, world, Mask(g, live), args, globals, trace, gas));
  }

  // ---------------------------------------------------------------- every pass is the same pass on masked functions

  ghost predicate SameInsts(f: Func, f': Func) {
    |f.blocks| == |f'.blocks| && forall b :: 0 <= b < |f.blocks| ==> f.blocks[b].insts == f'.blocks[b].insts
  }

  lemma {:induction false} EnteringAlike<M>(step: (M, Inst, Inst) -> M, init: M, leave: M -> M, f: Func, g: Func,
                                            f': Func, g': Func, b: nat)
    requires SameShape(f, g) && SameShape(f', g') && SameInsts(f, f') && SameInsts(g, g') && b <= |f.blocks|
    ensures Entering(step, init, leave, f, g, b) == Entering(step, init, leave, f', g', b)
  {
    if b > 0 {
      EnteringAlike(step, init, leave, f, g, f', g', b - 1);
    }
  }

  lemma MaskedShape(f: Func, g: Func, live: iset<RegId>)
    requires SameShape(f, g)
    ensures SameShape(Mask(f, live), Mask(g, live)) && SameInsts(f, Mask(f, live)) && SameInsts(g, Mask(g, live))
  {
  }

  lemma ScannedMasked<M>(step: (M, Inst, Inst) -> M, init: M, leave: M -> M, rewrite: (M, Inst) -> Option<Inst>,
                         f: Func, g: Func, live: iset<RegId>)
    requires Scanned(step, init, leave, rewrite, f, g)
    ensures Scanned(step, init, leave, rewrite, Mask(f, live), Mask(g, live))
  {
    var f', g' := Mask(f, live), Mask(g, live);
    MaskedShape(f, g, live);
    forall c: nat, j: nat | At(f', c, j)
      ensures rewrite(TableAt(step, init, leave, f', g', c, j), InstAt(f', c, j)) == Some(InstAt(g', c, j))
    {
      assert At(f, c, j);
      EnteringAlike(step, init, leave, f, g, f', g', c);
    }
  }

  lemma FilteredMasked(f: Func, g: Func, keep: Inst -> bool, live: iset<RegId>)
    requires Filtered(f, g, keep)
    ensures Filtered(Mask(f, live), Mask(g, live), keep)
  {
  }

  lemma FoldsBranchesMasked(f: Func, g: Func, live: iset<RegId>)
    requires FoldsBranches(f, g)
    ensures FoldsBranches(Mask(f, live), Mask(g, live))
  {
    var f' := Mask(f, live);
    EnteringAlike(LearnConst, map[], Unchanged, f, f, f', f', |f.blocks|);
  }

  lemma ClosedMasked(f: Func, labels: set<Label>, live: iset<RegId>)
    ensures Closed(f, labels) <==> Closed(Mask(f, live), labels)
  {
    var f' := Mask(f, live);
    assert forall b :: 0 <= b < |f.blocks| ==>
        f'.blocks[b].lbl == f.blocks[b].lbl && Targets(f'.blocks[b].term) == Targets(f.blocks[b].term);
    assert EntryLabel(f.blocks) == EntryLabel(f'.blocks);
  }

  lemma {:induction false} SourcesAlike(bs: seq<BasicBlock>, bs': seq<BasicBlock>, labels: set<Label>, n: nat)
    requires n <= |bs| == |bs'| && forall b :: 0 <= b < |bs| ==> bs[b].lbl == bs'[b].lbl
    ensures Graph.Sources(bs, labels, n) == Graph.Sources(bs', labels, n)
  {
    if n > 0 {
      SourcesAlike(bs, bs', labels, n - 1);
    }
  }

  lemma UnreachableGoneMasked(f: Func, g: Func, live: iset<RegId>)
    requires UnreachableGone(f, g)
    ensures UnreachableGone(Mask(f, live), Mask(g, live))
  {
    if |f.blocks| > 1 {
      var labels :| SmallestClosed(f, labels) && Retains(f, g, labels);
      var f' := Mask(f, live);
      ClosedMasked(f, labels, live);
      forall other | Closed(f', other)
        ensures labels <= other
      {
        ClosedMasked(f, other, live);
      }
      SourcesAlike(f.blocks, f'.blocks, labels, |f.blocks|);
      assert SmallestClosed(f', labels) && Retains(f', Mask(g, live), labels);
    }
  }

  lemma DeadStoresMasked(f: Func, g: Func, live: iset<RegId>)
    requires DeadStoresGone(f, g)
    ensures DeadStoresGone(Mask(f, live), Mask(g, live))
  {
    var loaded :| LoadedNames(f, loaded) && Filtered(f, g, StoreIsLive(loaded));
    var f' := Mask(f, live);
    FilteredMasked(f, g, StoreIsLive(loaded), live);
    assert forall b: nat, i: nat, name :: LoadsAt(f, b, i, name) <==> LoadsAt(f', b, i, name);
    assert forall name :: IsLoaded(f, name) <==> IsLoaded(f', name);
    assert LoadedNames(f', loaded);
  }

  lemma MaskedUsed(f: Func, live: iset<RegId>, r: RegId)
    requires BlockFree(Mask(f, live)) && IsUsed(Mask(f, live), r)
    ensures IsCounted(f, r)
  {
    var f' := Mask(f, live);
    if b: nat, i: nat :| UsesAt(f', b, i, r) {
      assert At(f', b, i);
      assert CountsAt(f, b, i, r);
    } else {
      var b :| 0 <= b < |f'.blocks| && r in TermUses(f'.blocks[b].term);
      assert r in TermUses(f.blocks[b].term);
    }
  }

  // A register that only a masked return reads is kept nevertheless: what is deleted nobody reads.
  lemma DeadCodeMasked(m: Mode, f: Func, g: Func, live: iset<RegId>)
    requires DeadCodeGone(f, g) && BlockFree(Mask(f, live))
    ensures Improves(m, Mask(f, live), Mask(g, live)) && KeepsForm(Mask(f, live), Mask(g, live))
  {
    var used :| UsedRegisters(f, used) && Filtered(f, g, ResultIsUsed(used));
    var f' := Mask(f, live);
    FilteredMasked(f, g, ResultIsUsed(used), live);
    forall r | IsUsed(f', r)
      ensures r in used
    {
      MaskedUsed(f, live, r);
    }
    hide IsUsed;
    RemovalImproves(m, f', Mask(g, live), ResultIsUsed(used));
  }

  // ---------------------------------------------------------------- rounds

  /** What a pass is worth for functions whose returns are masked. */
  ghost predicate ImprovesMasked(m: Mode, f: Func, g: Func, live: iset<RegId>) {
    ImprovesKeepingSelf(m, Mask(f, live), Mask(g, live), live)
  }

  lemma NothingImprovesMasked(m: Mode, f: Func, live: iset<RegId>)
    ensures ImprovesMasked(m, f, f, live)
  {
  }

  lemma ImprovesMaskedTransitive(m: Mode, f: Func, g: Func, h: Func, live: iset<RegId>)
    requires ImprovesMasked(m, f, g, live) && ImprovesMasked(m, g, h, live)
    ensures ImprovesMasked(m, f, h, live)
  {
    KeepingSelfTransitive(m, Mask(f, live), Mask(g, live), Mask(h, live), live);
  }

  lemma PassImprovesMasked(m: Mode, f: Func, g: Func, live: iset<RegId>)
    requires Improves(m, Mask(f, live), Mask(g, live)) && KeepsForm(Mask(f, live), Mask(g, live))
    ensures ImprovesMasked(m, f, g, live)
  {
    hide Improves, KeepsForm, ImprovesKeepingSelf;
    ImprovesInForm(m, Mask(f, live), Mask(g, live), live);
  }

  lemma RoundImprovesMasked(m: Mode, f: Func, g: Func, live: iset<RegId>)
    requires m.disciplined && Optimizer.Round(m.overflowChecks, f, g)
    ensures ImprovesMasked(m, f, g, live)
  {
    hide RefinesFunc, Optimizable, Scanned, Improves, KeepsForm, ImprovesMasked;
    var reused, stores :| Optimizer.RoundThrough(m.overflowChecks, f, reused, stores, g);
    var folded, propagated, code, nops, decided :|
      && FoldsConstants(m.overflowChecks, f, folded)
      && PropagatesConstants(folded, propagated)
      && ReusesResults(propagated, reused)
      && DeadStoresGone(reused, stores)
      && DeadCodeGone(stores, code)
      && Filtered(code, nops, IsNotNop)
      && FoldsBranches(nops, decided)
      && UnreachableGone(decided, g);
    ScansImproveMasked(m, f, folded, propagated, reused, live);
    DeletionsImproveMasked(m, reused, stores, code, live);
    FilteredMasked(code, nops, IsNotNop, live);
    NopsGoneIsSound(m, Mask(code, live), Mask(nops, live));
    PassImprovesMasked(m, code, nops, live);
    FoldsBranchesMasked(nops, decided, live);
    BranchFoldingImproves(m, Mask(nops, live), Mask(decided, live));
    BranchFoldingKeepsForm(Mask(nops, live), Mask(decided, live));
    PassImprovesMasked(m, nops, decided, live);
    UnreachableGoneMasked(decided, g, live);
    UnreachableRemovalImproves(m, Mask(decided, live), Mask(g, live));
    UnreachableRemovalKeepsForm(Mask(decided, live), Mask(g, live));
    PassImprovesMasked(m, decided, g, live);
    ImprovesMaskedTransitive(m, f, reused, code, live);
    ImprovesMaskedTransitive(m, f, code, nops, live);
    ImprovesMaskedTransitive(m, f, nops, decided, live);
    ImprovesMaskedTransitive(m, f, decided, g, live);
  }

  lemma DeletionsImproveMasked(m: Mode, f: Func, stores: Func, code: Func, live: iset<RegId>)
    requires DeadStoresGone(f, stores) && DeadCodeGone(stores, code)
    ensures ImprovesMasked(m, f, code, live)
  {
    hide RefinesFunc, Strict, RepeatsDominated, DeadStoresGone, DeadCodeGone, BlockFree, StoresSelf, AnyConsultsSelf;
    DeadStoresMasked(f, stores, live);
    DeadStoresKeepForm(Mask(f, live), Mask(stores, live), live);
    if Optimizable(Mask(f, live), live) {
      StrictIsSingle(Mask(f, live), live);
      if SelfKept(Mask(f, live), Mask(stores, live)) {
        DeadStoresAreSound(m, Mask(f, live), Mask(stores, live));
      }
      DeadCodeMasked(m, stores, code, live);
    }
    assert ImprovesMasked(m, f, stores, live);
    if Optimizable(Mask(f, live), live) {
      PassImprovesMasked(m, stores, code, live);
      ImprovesMaskedTransitive(m, f, stores, code, live);
    }
  }

  lemma ScansImproveMasked(m: Mode, f: Func, folded: Func, propagated: Func, reused: Func, live: iset<RegId>)
    requires m.disciplined && FoldsConstants(m.overflowChecks, f, folded)
    requires PropagatesConstants(folded, propagated) && ReusesResults(propagated, reused)
    ensures ImprovesMasked(m, f, reused, live)
  {
    hide RefinesFunc, Scanned, Improves, KeepsForm, ImprovesMasked;
    ScannedMasked(LearnConst, map[], Unchanged, Folder(m.overflowChecks), f, folded, live);
    FoldingImproves(m, Mask(f, live), Mask(folded, live));
    FoldingKeepsForm(m.overflowChecks, Mask(f, live), Mask(folded, live));
    PassImprovesMasked(m, f, folded, live);
    ScannedMasked(LearnConst, map[], Unchanged, PropagateInst, folded, propagated, live);
    PropagationImproves(m, Mask(folded, live), Mask(propagated, live));
    PropagationKeepsForm(Mask(folded, live), Mask(propagated, live));
    PassImprovesMasked(m, folded, propagated, live);
    ScannedMasked(LearnBinary, map[], Unchanged, ReuseInst, propagated, reused, live);
    ReuseImprovesMasked(m, propagated, reused, live);
    ImprovesMaskedTransitive(m, f, folded, propagated, live);
    ImprovesMaskedTransitive(m, f, propagated, reused, live);
  }

  lemma ReuseImprovesMasked(m: Mode, f: Func, g: Func, live: iset<RegId>)
    requires ReusesResults(Mask(f, live), Mask(g, live))
    ensures ImprovesMasked(m, f, g, live)
  {
    hide RefinesFunc, ReusesResults, KeepsForm;
    ReuseKeepsForm(Mask(f, live), Mask(g, live));
    if Optimizable(Mask(f, live), live) {
      ReuseImproves(m, Mask(f, live), Mask(g, live));
      PassImprovesMasked(m, f, g, live);
    }
  }

  lemma {:induction false} RoundsImproveMasked(m: Mode, n: nat, f: Func, g: Func, live: iset<RegId>)
    requires m.disciplined && Optimizer.Rounds(m.overflowChecks, n, f, g)
    ensures ImprovesMasked(m, f, g, live)
  {
    hide Optimizer.Round, ImprovesMasked;
    if n == 0 {
      NothingImprovesMasked(m, f, live);
    } else {
      var h :| Optimizer.Rounds(m.overflowChecks, n - 1, f, h) && Optimizer.Round(m.overflowChecks, h, g);
      RoundsImproveMasked(m, n - 1, f, h, live);
      RoundImprovesMasked(m, h, g, live);
      ImprovesMaskedTransitive(m, f, h, g, live);
    }
  }

  // ---------------------------------------------------------------- the peephole loop

  lemma ShorteningMasked(f: Func, g: Func, live: iset<RegId>)
    requires ShortensCopies(f, g)
    ensures ShortensCopies(Mask(f, live), Mask(g, live))
  {
    var f' := Mask(f, live);
    MaskedShape(f, g, live);
    EnteringAlike<Chain>(LinkCopy, NoCopies(), Unchanged, f, f, f', f', |f.blocks|);
    assert forall b: nat, i: nat :: At(f', b, i) ==> At(f, b, i);
  }

  lemma CuttingMasked(f: Func, g: Func, live: iset<RegId>)
    requires CutsFallthroughs(f, g)
    ensures CutsFallthroughs(Mask(f, live), Mask(g, live))
  {
  }

  lemma SweepMasked(f: Func, g: Func, live: iset<RegId>)
    requires PeepholeLoop.Sweep(f, g)
    ensures PeepholeLoop.Sweep(Mask(f, live), Mask(g, live))
  {
    hide Scanned;
    var shortened, forwarded, cut :|
      ShortensCopies(f, shortened) && ForwardsStores(shortened, forwarded)
      && CutsFallthroughs(forwarded, cut) && SimplifiesIdentities(cut, g);
    ShorteningMasked(f, shortened, live);
    ScannedMasked(LearnStore, map[], Forget, ForwardStore, shortened, forwarded, live);
    CuttingMasked(forwarded, cut, live);
    ScannedMasked(LearnLoaded, map[], Unchanged, SimplifyIdentity, cut, g, live);
  }

  lemma {:induction false} SweepsMasked(n: nat, f: Func, g: Func, live: iset<RegId>)
    requires PeepholeLoop.Sweeps(n, f, g)
    ensures PeepholeLoop.Sweeps(n, Mask(f, live), Mask(g, live))
  {
    hide PeepholeLoop.Sweep;
    if n > 0 {
      var h :| PeepholeLoop.Sweeps(n - 1, f, h) && PeepholeLoop.Sweep(h, g);
      SweepsMasked(n - 1, f, h, live);
      SweepMasked(h, g, live);
    }
  }
}
