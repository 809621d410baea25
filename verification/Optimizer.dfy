/** The function optimizer: eight passes in order, three rounds. */
module Optimizer {
  import opened Mir
  import opened Ssa
  import opened Removal
  import opened Scan
  import opened Improvement
  import opened RewritingPasses
  import opened DeletingPasses
  import opened BranchPasses

  const ROUNDS := 3

  /** One round: every pass once, in this order, with the code before and after the removal of dead stores. */
  ghost predicate RoundThrough(overflowChecks: bool, f: Func, reused: Func, stores: Func, g: Func) {
    exists folded, propagated, code, nops, decided ::
      && FoldsConstants(overflowChecks, f, folded)
      && PropagatesConstants(folded, propagated)
      && ReusesResults(propagated, reused)
      && DeadStoresGone(reused, stores)
      && DeadCodeGone(stores, code)
      && Filtered(code, nops, IsNotNop)
      && FoldsBranches(nops, decided)
      && UnreachableGone(decided, g)
  }

  ghost predicate Round(overflowChecks: bool, f: Func, g: Func) {
    exists reused, stores :: RoundThrough(overflowChecks, f, reused, stores, g)
  }

  ghost predicate Rounds(overflowChecks: bool, n: nat, f: Func, g: Func) {
    if n == 0 then f == g
    else exists h :: Rounds(overflowChecks, n - 1, f, h) && Round(overflowChecks, h, g)
  }

  /** Some round before the n-th stops the compiler. */
  ghost predicate RoundsStop(overflowChecks: bool, n: nat, f: Func) {
    exists k: nat, h :: k < n && Rounds(overflowChecks, k, f, h) && FoldingStops(overflowChecks, h)
  }

  // ---------------------------------------------------------------- rounds that stay in form

  /**
    A round in which common-subexpression elimination leaves strict form and dead-code elimination spares the
    operands of block calls.
   */
  ghost predicate RoundInForm(overflowChecks: bool, f: Func, g: Func, live: iset<RegId>) {
    exists reused, stores ::
      RoundThrough(overflowChecks, f, reused, stores, g) && Strict(reused, live) && OperandsSpared(stores)
  }

  ghost predicate RoundsInForm(overflowChecks: bool, n: nat, f: Func, g: Func, live: iset<RegId>) {
    if n == 0 then f == g
    else exists h :: RoundsInForm(overflowChecks, n - 1, f, h, live) && RoundInForm(overflowChecks, h, g, live)
  }

  /** Strict form stays, and as long as self is kept every run. */
  ghost predicate KeepsRuns(m: Mode, f: Func, g: Func, live: iset<RegId>) {
    Strict(g, live) && AddsNoSelf(f, g) && (SelfKept(f, g) ==> RefinesFunc(m, f, g))
  }

  lemma KeepsRunsTransitive(m: Mode, f: Func, g: Func, h: Func, live: iset<RegId>)
    requires KeepsRuns(m, f, g, live) && KeepsRuns(m, g, h, live)
    ensures KeepsRuns(m, f, h, live)
  {
    hide Strict, AnyConsultsSelf, StoresSelf, RefinesFunc;
    if SelfKept(f, h) {
      RefinesTransitive(m, f, g, h);
    }
  }

  lemma RoundKeepsRuns(m: Mode, f: Func, g: Func, live: iset<RegId>)
    requires m.disciplined && Strict(f, live) && RoundInForm(m.overflowChecks, f, g, live)
    ensures KeepsRuns(m, f, g, live)
  {
    hide Strict, AnyConsultsSelf, StoresSelf, RefinesFunc, Scanned, OperandsSpared, RepeatsDominated, BlockFree,
         SingleDef;
    var reused, stores :|
      RoundThrough(m.overflowChecks, f, reused, stores, g) && Strict(reused, live) && OperandsSpared(stores);
    var folded, propagated, code, nops, decided :|
      && FoldsConstants(m.overflowChecks, f, folded)
      && PropagatesConstants(folded, propagated)
      && ReusesResults(propagated, reused)
      && DeadStoresGone(reused, stores)
      && DeadCodeGone(stores, code)
      && Filtered(code, nops, IsNotNop)
      && FoldsBranches(nops, decided)
      && UnreachableGone(decided, g);
    ScansKeepRuns(m, f, folded, propagated, reused, live);
    DeadStoresKeepForm(reused, stores, live);
    if SelfKept(reused, stores) {
      DeadStoresAreSound(m, reused, stores);
    }
    CleaningKeepsRuns(m, stores, code, nops, decided, g, live);
    KeepsRunsTransitive(m, f, reused, stores, live);
    KeepsRunsTransitive(m, f, stores, g, live);
  }

  lemma ScansKeepRuns(m: Mode, f: Func, folded: Func, propagated: Func, reused: Func, live: iset<RegId>)
    requires m.disciplined && Strict(f, live) && FoldsConstants(m.overflowChecks, f, folded)
    requires PropagatesConstants(folded, propagated) && ReusesResults(propagated, reused) && Strict(reused, live)
    ensures KeepsRuns(m, f, reused, live)
  {
    hide Strict, AnyConsultsSelf, StoresSelf, RefinesFunc, Scanned, RepeatsDominated, BlockFree, SingleDef;
    FoldingImproves(m, f, folded);
    FoldingKeepsForm(m.overflowChecks, f, folded);
    PropagationImproves(m, folded, propagated);
    PropagationKeepsForm(folded, propagated);
    ReuseIsSound(m, propagated, reused, live);
    ReuseKeepsForm(propagated, reused);
    KeepsRunsTransitive(m, f, folded, propagated, live);
    KeepsRunsTransitive(m, f, propagated, reused, live);
  }

  lemma CleaningKeepsRuns(m: Mode, stores: Func, code: Func, nops: Func, decided: Func, g: Func, live: iset<RegId>)
    requires Strict(stores, live) && OperandsSpared(stores) && DeadCodeGone(stores, code)
    requires Filtered(code, nops, IsNotNop)
    requires FoldsBranches(nops, decided) && UnreachableGone(decided, g)
    ensures KeepsRuns(m, stores, g, live)
  {
    hide Strict, AnyConsultsSelf, StoresSelf, RefinesFunc, OperandsSpared, RepeatsDominated, BlockFree, SingleDef;
    DeadCodeIsSound(m, stores, code);
    NopsGoneIsSound(m, code, nops);
    BranchFoldingImproves(m, nops, decided);
    BranchFoldingKeepsForm(nops, decided);
    UnreachableRemovalImproves(m, decided, g);
    UnreachableRemovalKeepsForm(decided, g);
    KeepsRunsTransitive(m, stores, code, nops, live);
    KeepsRunsTransitive(m, stores, nops, decided, live);
    KeepsRunsTransitive(m, stores, decided, g, live);
  }

  lemma {:induction false} RoundsKeepRuns(m: Mode, n: nat, f: Func, g: Func, live: iset<RegId>)
    requires m.disciplined && Strict(f, live) && RoundsInForm(m.overflowChecks, n, f, g, live)
    ensures KeepsRuns(m, f, g, live)
  {
    hide RoundInForm, Strict, StoresSelf, AnyConsultsSelf;
    if n > 0 {
      var h :| RoundsInForm(m.overflowChecks, n - 1, f, h, live) && RoundInForm(m.overflowChecks, h, g, live);
      RoundsKeepRuns(m, n - 1, f, h, live);
      RoundKeepsRuns(m, h, g, live);
      KeepsRunsTransitive(m, f, h, g, live);
    }
  }

  // The main result: however many rounds that stay in form, a run that does not abort is unchanged.
  lemma OptimizingIsSound(checks: bool, n: nat, f: Func, g: Func, live: iset<RegId>, world: World,
                          args: seq<Value>, globals: Globals, trace: seq<Event>, gas: nat)
    requires RoundsInForm(checks, n, f, g, live) && Strict(f, live) && SelfKept(f, g)
    requires !RunFunc(Mode(checks, true, false, false), world, f, args, globals, trace, gas).Aborted?
    ensures RunFunc(Mode(checks, false, false, false), world, g, args, globals, trace, gas)
            == RunFunc(Mode(checks, false, false, false), world, f, args, globals, trace, gas)
    ensures Strict(g, live)
  {
    var m := Mode(checks, true, false, false);
    RoundsKeepRuns(m, n, f, g, live);
    assert Refines(RunFunc(m, world, f, args, globals, trace, gas), RunFunc(m, world, g, args, globals, trace, gas));
    DisciplineErased(m, world, f.blocks, EntryLabel(f.blocks), Enter(f, args, globals, trace), gas);
    DisciplineErased(m, world, g.blocks, EntryLabel(g.blocks), Enter(g, args, globals, trace), gas);
  }

  // ---------------------------------------------------------------- functions all of whose rounds stay in form

  lemma OptimizableRound(checks: bool, f: Func, g: Func, live: iset<RegId>)
    requires Optimizable(f, live) && Round(checks, f, g)
    ensures RoundInForm(checks, f, g, live) && Optimizable(g, live)
  {
    hide Strict, AnyConsultsSelf, StoresSelf, RefinesFunc, Scanned, OperandsSpared, RepeatsDominated, BlockFree,
         SingleDef;
    var m := Mode(checks, true, false, false);
    var reused, stores :| RoundThrough(checks, f, reused, stores, g);
    var folded, propagated, code, nops, decided :|
      && FoldsConstants(checks, f, folded)
      && PropagatesConstants(folded, propagated)
      && ReusesResults(propagated, reused)
      && DeadStoresGone(reused, stores)
      && DeadCodeGone(stores, code)
      && Filtered(code, nops, IsNotNop)
      && FoldsBranches(nops, decided)
      && UnreachableGone(decided, g);
    FoldingImproves(m, f, folded);
    FoldingKeepsForm(checks, f, folded);
    OptimizableStays(m, f, folded, live);
    PropagationImproves(m, folded, propagated);
    PropagationKeepsForm(folded, propagated);
    OptimizableStays(m, folded, propagated, live);
    ReuseImproves(m, propagated, reused);
    ReuseKeepsForm(propagated, reused);
    OptimizableStays(m, propagated, reused, live);
    DeadStoresKeepForm(reused, stores, live);
    StrictIsSingle(reused, live);
    BlockFreeIsSpared(stores);
    CleaningKeepsOptimizable(m, stores, code, nops, decided, g, live);
  }

  lemma CleaningKeepsOptimizable(m: Mode, stores: Func, code: Func, nops: Func, decided: Func, g: Func,
                                 live: iset<RegId>)
    requires Optimizable(stores, live) && OperandsSpared(stores) && DeadCodeGone(stores, code)
    requires Filtered(code, nops, IsNotNop) && FoldsBranches(nops, decided) && UnreachableGone(decided, g)
    ensures Optimizable(g, live)
  {
    hide *;
    DeadCodeIsSound(m, stores, code);
    OptimizableStays(m, stores, code, live);
    NopsGoneIsSound(m, code, nops);
    OptimizableStays(m, code, nops, live);
    BranchFoldingImproves(m, nops, decided);
    BranchFoldingKeepsForm(nops, decided);
    OptimizableStays(m, nops, decided, live);
    UnreachableRemovalImproves(m, decided, g);
    UnreachableRemovalKeepsForm(decided, g);
    OptimizableStays(m, decided, g, live);
  }

  lemma OptimizableStays(m: Mode, f: Func, g: Func, live: iset<RegId>)
    requires Optimizable(f, live) && Improves(m, f, g) && KeepsForm(f, g)
    ensures Optimizable(g, live)
  {
  }

  // With dominated repeats and no block calls, every round stays in form.
  lemma {:induction false} OptimizableRounds(checks: bool, n: nat, f: Func, g: Func, live: iset<RegId>)
    requires Optimizable(f, live) && Rounds(checks, n, f, g)
    ensures RoundsInForm(checks, n, f, g, live) && Optimizable(g, live)
  {
    hide Round, RoundInForm, Optimizable;
    if n > 0 {
      var h :| Rounds(checks, n - 1, f, h) && Round(checks, h, g);
      OptimizableRounds(checks, n - 1, f, h, live);
      OptimizableRound(checks, h, g, live);
    }
  }

  lemma RoundsImprove(m: Mode, n: nat, f: Func, g: Func, live: iset<RegId>)
    requires m.disciplined && Rounds(m.overflowChecks, n, f, g)
    ensures ImprovesKeepingSelf(m, f, g, live)
  {
    hide Rounds, RoundsInForm, Strict, RefinesFunc, StoresSelf, AnyConsultsSelf, RepeatsDominated, BlockFree;
    if Optimizable(f, live) {
      OptimizableRounds(m.overflowChecks, n, f, g, live);
      RoundsKeepRuns(m, n, f, g, live);
    }
  }

  // Whatever the function, rounds bring in no names.
  lemma RoundKeepsNames(checks: bool, f: Func, g: Func)
    requires Round(checks, f, g)
    ensures KeepsNames(f, g)
  {
    hide Scanned, FoldsBranches, UnreachableGone, KeepsNames, Filtered;
    var reused, stores :| RoundThrough(checks, f, reused, stores, g);
    var folded, propagated, code, nops, decided :|
      && FoldsConstants(checks, f, folded) && PropagatesConstants(folded, propagated)
      && ReusesResults(propagated, reused)
      && DeadStoresGone(reused, stores) && DeadCodeGone(stores, code) && Filtered(code, nops, IsNotNop)
      && FoldsBranches(nops, decided) && UnreachableGone(decided, g);
    var loaded :| LoadedNames(reused, loaded) && Filtered(reused, stores, StoreIsLive(loaded));
    var used :| UsedRegisters(stores, used) && Filtered(stores, code, ResultIsUsed(used));
    FoldingKeepsForm(checks, f, folded);
    PropagationKeepsForm(folded, propagated);
    ReuseKeepsForm(propagated, reused);
    FilteredKeepsNames(reused, stores, StoreIsLive(loaded));
    FilteredKeepsNames(stores, code, ResultIsUsed(used));
    FilteredKeepsNames(code, nops, IsNotNop);
    BranchFoldingKeepsForm(nops, decided);
    UnreachableRemovalKeepsForm(decided, g);
    KeepsNamesTransitive(f, folded, propagated);
    KeepsNamesTransitive(f, propagated, reused);
    KeepsNamesTransitive(f, reused, stores);
    KeepsNamesTransitive(f, stores, code);
    KeepsNamesTransitive(f, code, nops);
    KeepsNamesTransitive(f, nops, decided);
    KeepsNamesTransitive(f, decided, g);
  }

  lemma {:induction false} RoundsKeepNames(checks: bool, n: nat, f: Func, g: Func)
    requires Rounds(checks, n, f, g)
    ensures KeepsNames(f, g)
  {
    hide Round;
    if n > 0 {
      hide KeepsNames;
      var h :| Rounds(checks, n - 1, f, h) && Round(checks, h, g);
      RoundsKeepNames(checks, n - 1, f, h);
      RoundKeepsNames(checks, h, g);
      KeepsNamesTransitive(f, h, g);
    }
  }

  // ---------------------------------------------------------------- a round has one result

  lemma RoundIsUnique(checks: bool, f: Func, g: Func, g': Func)
    requires Round(checks, f, g) && Round(checks, f, g')
    ensures g == g'
  {
    hide Scanned, DeadStoresGone, DeadCodeGone, Filtered, FoldsBranches, UnreachableGone;
    var reused, stores :| RoundThrough(checks, f, reused, stores, g);
    var folded, propagated, code, nops, decided :|
      && FoldsConstants(checks, f, folded) && PropagatesConstants(folded, propagated)
      && ReusesResults(propagated, reused)
      && DeadStoresGone(reused, stores) && DeadCodeGone(stores, code) && Filtered(code, nops, IsNotNop)
      && FoldsBranches(nops, decided) && UnreachableGone(decided, g);
    var reused', stores' :| RoundThrough(checks, f, reused', stores', g');
    var folded', propagated', code', nops', decided' :|
      && FoldsConstants(checks, f, folded') && PropagatesConstants(folded', propagated')
      && ReusesResults(propagated', reused')
      && DeadStoresGone(reused', stores') && DeadCodeGone(stores', code') && Filtered(code', nops', IsNotNop)
      && FoldsBranches(nops', decided') && UnreachableGone(decided', g');
    ScannedIsUnique(LearnConst, map[], Unchanged, Folder(checks), f, folded, folded');
    ScannedIsUnique(LearnConst, map[], Unchanged, PropagateInst, folded, propagated, propagated');
    ScannedIsUnique(LearnBinary, map[], Unchanged, ReuseInst, propagated, reused, reused');
    DeadStoresGoneIsUnique(reused, stores, stores');
    DeadCodeGoneIsUnique(stores, code, code');
    FilteredIsUnique(code, nops, nops', IsNotNop);
    FoldsBranchesIsUnique(nops, decided, decided');
    UnreachableGoneIsUnique(decided, g, g');
  }

  lemma RoundDoesNotStop(checks: bool, f: Func, g: Func)
    requires Round(checks, f, g)
    ensures !FoldingStops(checks, f)
  {
    hide Scanned, DeadStoresGone, DeadCodeGone, Filtered, FoldsBranches, UnreachableGone, GetsStuck;
    var reused, stores :| RoundThrough(checks, f, reused, stores, g);
    var folded, propagated, code, nops, decided :|
      && FoldsConstants(checks, f, folded) && PropagatesConstants(folded, propagated)
      && ReusesResults(propagated, reused)
      && DeadStoresGone(reused, stores) && DeadCodeGone(stores, code) && Filtered(code, nops, IsNotNop)
      && FoldsBranches(nops, decided) && UnreachableGone(decided, g);
    ScannedIsNotStuck(LearnConst, map[], Unchanged, Folder(checks), f, folded);
  }

  lemma {:induction false} RoundsAreUnique(checks: bool, n: nat, f: Func, g: Func, g': Func)
    requires Rounds(checks, n, f, g) && Rounds(checks, n, f, g')
    ensures g == g'
  {
    hide Round;
    if n > 0 {
      var h :| Rounds(checks, n - 1, f, h) && Round(checks, h, g);
      var h' :| Rounds(checks, n - 1, f, h') && Round(checks, h', g');
      RoundsAreUnique(checks, n - 1, f, h, h');
      RoundIsUnique(checks, h, g, g');
    }
  }

  // A round that has been performed, or more, did not stop.
  lemma {:induction false} RoundsDoNotStop(checks: bool, n: nat, f: Func, g: Func)
    requires Rounds(checks, n, f, g)
    ensures !RoundsStop(checks, n, f)
  {
    hide Round, FoldingStops;
    if n > 0 {
      var h :| Rounds(checks, n - 1, f, h) && Round(checks, h, g);
      RoundsDoNotStop(checks, n - 1, f, h);
      RoundDoesNotStop(checks, h, g);
      if k: nat, h' :| k < n && Rounds(checks, k, f, h') && FoldingStops(checks, h') {
        if k == n - 1 {
          RoundsAreUnique(checks, n - 1, f, h, h');
        }
      }
    }
  }

  // ---------------------------------------------------------------- in place

  method OptimizeRound(overflowChecks: bool, func: MirFunction) returns (panicked: bool)
    modifies func
    ensures panicked <==> FoldingStops(overflowChecks, old(func.Value()))
    ensures !panicked ==> Round(overflowChecks, old(func.Value()), func.Value())
  {
    hide Scanned, DeadStoresGone, DeadCodeGone, Filtered, FoldsBranches, UnreachableGone, GetsStuck;
    ghost var f := func.Value();
    panicked := ConstantFolding(overflowChecks, func);
    if panicked {
      return;
    }
    ghost var folded := func.Value();
    ConstantPropagation(func);
    ghost var propagated := func.Value();
    CommonSubexpressionElimination(func);
    ghost var reused := func.Value();
    RemoveDeadStores(func);
    ghost var stores := func.Value();
    DeadCodeElimination(func);
    ghost var code := func.Value();
    RemoveNops(func);
    ghost var nops := func.Value();
    ConstantBranchFolding(func);
    ghost var decided := func.Value();
    RemoveUnreachableBlocks(func);
    assert RoundThrough(overflowChecks, f, reused, stores, func.Value());
  }

  method OptimizeFunction(overflowChecks: bool, func: MirFunction) returns (panicked: bool)
    modifies func
    ensures panicked <==> RoundsStop(overflowChecks, 3, old(func.Value()))
    ensures !panicked ==> Rounds(overflowChecks, 3, old(func.Value()), func.Value())
  {
    hide Round, FoldingStops;
    for round := 0 to ROUNDS
      invariant Rounds(overflowChecks, round, old(func.Value()), func.Value())
    {
      panicked := OptimizeRound(overflowChecks, func);
      if panicked {
        return;
      }
    }
    RoundsDoNotStop(overflowChecks, ROUNDS, old(func.Value()), func.Value());
    return false;
  }
}
