/** From trees to optimized code: lowering, fusion and optimization together. */
module Pipeline {
  import opened Options
  import opened Mir
  import opened Ssa
  import opened Rewriting
  import opened Removal
  import opened Scan
  import opened Improvement
  import opened Fusion
  import opened Chains
  import opened CopyFusion
  import opened Hir
  import opened HirOptimize
  import opened Lower
  import opened LowerForm
  import opened LowerMeaning
  import opened LowerCorrect
  import opened LoweredCode
  import opened LostValues
  import opened FallThrough
  import opened Peephole
  import Optimizer
  import PeepholeLoop

  // ---------------------------------------------------------------- copy fusion on lowered code

  /** No operation reads the result of a conditional. */
  ghost predicate OperandsNotCopied(f: Func) {
    forall b: nat, i: nat, r :: At(f, b, i) && InstAt(f, b, i).Binary? && r in Uses(InstAt(f, b, i))
      ==> !DefinedByCopy(f, r)
  }

  lemma BlockLocalOperandsNotCopied(f: Func)
    requires BlockLocal(f)
    ensures OperandsNotCopied(f)
  {
    forall b: nat, i: nat, r | At(f, b, i) && InstAt(f, b, i).Binary? && r in Uses(InstAt(f, b, i))
      ensures !DefinedByCopy(f, r)
    {
      if c: nat, j: nat :| Def(f, r, c, j) && InstAt(f, c, j).Copy? {
        OperandInItsBlock(f, b, i, r, c, j);
      }
    }
  }

  /** Operations only ever become constants. */
  ghost predicate FoldsOnly(f: Func, g: Func) {
    && SameShape(f, g)
    && forall b: nat, i: nat :: At(f, b, i) ==>
         || InstAt(g, b, i) == InstAt(f, b, i)
         || (InstAt(f, b, i).Binary? && InstAt(g, b, i).LoadConst? && InstAt(g, b, i).dest == InstAt(f, b, i).dest)
  }

  lemma FoldingKeepsOperands(f: Func, g: Func)
    requires OperandsNotCopied(f) && FoldsOnly(f, g)
    ensures OperandsNotCopied(g)
  {
    assert forall r, b: nat, i: nat ::
             Def(g, r, b, i) && InstAt(g, b, i).Copy? ==> Def(f, r, b, i) && InstAt(f, b, i).Copy?;
    assert forall r :: DefinedByCopy(g, r) ==> DefinedByCopy(f, r);
  }

  lemma {:induction false} ChainHoldsCopies(f: Func, g: Func, b: nat, i: nat, r: RegId)
    requires SameShape(f, g) && b < |f.blocks| && i <= |f.blocks[b].insts|
    requires r in TableAt<Chain>(LinkCopy, NoCopies(), Unchanged, f, g, b, i)
    ensures DefinedByCopy(f, r)
    decreases b, i
  {
    if i > 0 {
      assert At(f, b, i - 1);
      var was := InstAt(f, b, i - 1);
      if was.Copy? && was.dest == r {
        assert Def(f, r, b, i - 1);
      } else {
        ChainHoldsCopies(f, g, b, i - 1, r);
      }
    } else {
      ChainHoldsCopies(f, g, b - 1, |f.blocks[b - 1].insts|, r);
    }
  }

  lemma CopyFusionKeepsNames(f: Func, g: Func)
    requires FusesCopies(f, g)
    ensures KeepsNames(f, g)
  {
    forall b: nat, i: nat | At(g, b, i)
      ensures At(f, b, i)
      ensures FuseCopy(TableAt<Chain>(LinkCopy, NoCopies(), Unchanged, f, g, b, i), InstAt(f, b, i))
              == Some(InstAt(g, b, i))
    {
      assert At(f, b, i);
    }
    assert forall b: nat, i: nat :: At(g, b, i) ==> (ConsultsSelf(InstAt(g, b, i)) ==> ConsultsSelf(InstAt(f, b, i)));
    assert forall b: nat, i: nat ::
             At(g, b, i) && (InstAt(g, b, i).Store? || InstAt(g, b, i).Load?) ==> InstAt(f, b, i) == InstAt(g, b, i);
    hide Scanned, FuseCopy;
  }

  lemma CopyFusionKeepsOptimizable(m: Mode, f: Func, g: Func, live: iset<RegId>)
    requires Optimizable(f, live) && OperandsNotCopied(f) && FusesCopies(f, g)
    ensures Optimizable(g, live) && AddsNoSelf(f, g) && RefinesFunc(m, f, g)
  {
    hide Strict, RepeatsDominated, BlockFree, FusesCopies;
    CopyFusionIsSound(m, f, g, live);
    CopyFusionKeepsRepeats(f, g);
    CopyFusionKeepsNames(f, g);
  }

  lemma CompiledKeepsNames(checks: bool, f: Func, g: Func)
    requires Compiled(checks, f, g)
    ensures KeepsNames(f, g)
  {
    hide KeepsNames, FusesIntegers, FusesStrings, FusesCopies, FoldsOnly, Optimizer.Rounds;
    var f1, f2, f3 :| FusesIntegers(f, f1) && FusesStrings(f1, f2) && FusesCopies(f2, f3)
                      && Optimizer.Rounds(checks, Optimizer.ROUNDS, f3, g);
    IntegerFusionFolds(f, f1);
    FoldsOnlyKeepsForm(f, f1);
    StringFusionFolds(f1, f2);
    FoldsOnlyKeepsForm(f1, f2);
    CopyFusionKeepsNames(f2, f3);
    Optimizer.RoundsKeepNames(checks, Optimizer.ROUNDS, f3, g);
    KeepsNamesTransitive(f, f1, f2);
    KeepsNamesTransitive(f, f2, f3);
    KeepsNamesTransitive(f, f3, g);
  }

  lemma CopyFusionKeepsRepeats(f: Func, g: Func)
    requires RepeatsDominated(f) && OperandsNotCopied(f) && FusesCopies(f, g)
    ensures RepeatsDominated(g)
  {
    hide FusesCopies, OperandsNotCopied, Available;
    CopyFusionKeepsDests(f, g);
    forall b: nat, i: nat | At(f, b, i) && InstAt(f, b, i).Binary?
      ensures InstAt(g, b, i) == InstAt(f, b, i)
    {
      OperationsStay(f, g, b, i);
    }
    forall b: nat, i: nat, c: nat, j: nat |
      At(g, b, i) && At(g, c, j) && Before(b, i, c, j) && SameOperation(InstAt(g, b, i), InstAt(g, c, j))
      ensures Available(g, InstAt(g, b, i).dest, c, j)
    {
      assert At(f, b, i) && At(f, c, j);
      SameAvailable(f, g, InstAt(g, b, i).dest, c, j);
    }
  }

  lemma CopyFusionKeepsDests(f: Func, g: Func)
    requires FusesCopies(f, g)
    ensures SameShape(f, g) && SameDests(f, g)
    ensures forall b: nat, i: nat :: At(f, b, i) ==> (InstAt(f, b, i).Binary? <==> InstAt(g, b, i).Binary?)
  {
    forall b: nat, i: nat | At(f, b, i)
      ensures Dest(InstAt(f, b, i)) == Dest(InstAt(g, b, i)) && (InstAt(f, b, i).Binary? <==> InstAt(g, b, i).Binary?)
    {
      var chain := TableAt<Chain>(LinkCopy, NoCopies(), Unchanged, f, g, b, i);
      assert FuseCopy(chain, InstAt(f, b, i)) == Some(InstAt(g, b, i));
    }
  }

  lemma OperationsStay(f: Func, g: Func, b: nat, i: nat)
    requires OperandsNotCopied(f) && FusesCopies(f, g) && At(f, b, i) && InstAt(f, b, i).Binary?
    ensures InstAt(g, b, i) == InstAt(f, b, i)
  {
    var inst := InstAt(f, b, i);
    var chain := TableAt<Chain>(LinkCopy, NoCopies(), Unchanged, f, g, b, i);
    assert inst.left in Uses(inst) && inst.right in Uses(inst);
    if inst.left in chain {
      ChainHoldsCopies(f, g, b, i, inst.left);
    }
    if inst.right in chain {
      ChainHoldsCopies(f, g, b, i, inst.right);
    }
  }

  // ---------------------------------------------------------------- the whole

  /** Fusion and optimization of f, as the compiler orders them. */
  ghost predicate Compiled(overflowChecks: bool, f: Func, g: Func) {
    exists f1, f2, f3 ::
      && FusesIntegers(f, f1) && FusesStrings(f1, f2) && FusesCopies(f2, f3)
      && Optimizer.Rounds(overflowChecks, Optimizer.ROUNDS, f3, g)
  }

  /** The compiler itself stops, in fusion or in some round of optimization. */
  ghost predicate CompilingStops(overflowChecks: bool, f: Func) {
    || IntegerFusionStops(f)
    || exists f1, f2, f3 ::
         && FusesIntegers(f, f1) && FusesStrings(f1, f2) && FusesCopies(f2, f3)
         && Optimizer.RoundsStop(overflowChecks, Optimizer.ROUNDS, f3)
  }

  lemma IntegerFusionFolds(f: Func, g: Func)
    requires FusesIntegers(f, g)
    ensures FoldsOnly(f, g)
  {
    forall b: nat, i: nat | At(f, b, i)
      ensures InstAt(g, b, i) == InstAt(f, b, i)
              || (InstAt(f, b, i).Binary? && InstAt(g, b, i).LoadConst? && InstAt(g, b, i).dest == InstAt(f, b, i).dest)
    {
      assert FuseIntegers(TableAt(LearnInteger, NO_INTEGERS, RecordPlaceholders, f, g, b, i), InstAt(f, b, i))
             == Some(InstAt(g, b, i));
    }
  }

  lemma StringFusionFolds(f: Func, g: Func)
    requires FusesStrings(f, g)
    ensures FoldsOnly(f, g)
  {
    forall b: nat, i: nat | At(f, b, i)
      ensures InstAt(g, b, i) == InstAt(f, b, i)
              || (InstAt(f, b, i).Binary? && InstAt(g, b, i).LoadConst? && InstAt(g, b, i).dest == InstAt(f, b, i).dest)
    {
      assert FuseStrings(TableAt(LearnLoaded, map[], Unchanged, f, g, b, i), InstAt(f, b, i)) == Some(InstAt(g, b, i));
    }
  }

  lemma FoldsOnlyKeepsForm(f: Func, g: Func)
    requires FoldsOnly(f, g)
    ensures KeepsForm(f, g)
  {
    SimplifyingKeepsForm(f, g);
  }

  // The three passes of fusion, on any strict function.
  lemma FusionIsSound(m: Mode, f: Func, f1: Func, f2: Func, f3: Func, live: iset<RegId>)
    requires Strict(f, live) && PlaceholdersUnused(f, f1)
    requires FusesIntegers(f, f1) && FusesStrings(f1, f2) && FusesCopies(f2, f3)
    ensures Strict(f3, live) && RefinesFunc(m, f, f3)
  {
    hide RefinesFunc, Strict, FusesIntegers, FusesStrings, FusesCopies, PlaceholdersUnused;
    IntegerFusionImproves(m, f, f1);
    StringFusionImproves(m, f1, f2);
    CopyFusionIsSound(m, f2, f3, live);
    RefinesTransitive(m, f, f1, f2);
    RefinesTransitive(m, f, f2, f3);
  }

  lemma FusionKeepsOptimizable(m: Mode, f: Func, f1: Func, f2: Func, f3: Func, live: iset<RegId>)
    requires Optimizable(f, live) && OperandsNotCopied(f) && PlaceholdersUnused(f, f1)
    requires FusesIntegers(f, f1) && FusesStrings(f1, f2) && FusesCopies(f2, f3)
    ensures Optimizable(f3, live) && AddsNoSelf(f, f3) && RefinesFunc(m, f, f3)
  {
    hide RefinesFunc, Strict, SingleDef, RepeatsDominated, BlockFree, StoresSelf, AnyConsultsSelf, FusesIntegers,
         FusesStrings, FusesCopies, OperandsNotCopied, OperandsLocal, PlaceholdersUnused;
    FusionIsSound(m, f, f1, f2, f3, live);
    IntegerFusionImproves(m, f, f1);
    StringFusionImproves(m, f1, f2);
    IntegerFusionFolds(f, f1);
    StringFusionFolds(f1, f2);
    FoldsOnlyKeepsForm(f, f1);
    FoldsOnlyKeepsForm(f1, f2);
    StrictIsSingle(f, live);
    StrictIsSingle(f1, live);
    FoldingKeepsOperands(f, f1);
    FoldingKeepsOperands(f1, f2);
    CopyFusionKeepsOptimizable(m, f2, f3, live);
  }

  lemma LoweredCompilesSoundly(m: Mode, f: Func, g: Func)
    requires m.disciplined && BlockLocal(f) && SelfKept(f, g) && Compiled(m.overflowChecks, f, g)
    ensures RefinesFunc(m, f, g) && Optimizable(g, NotCopied(f)) && Strict(g, NotCopied(f))
  {
    hide RefinesFunc, Optimizable, Strict, FusesIntegers, FusesStrings, FusesCopies, OperandsNotCopied, OperandsLocal,
         PlaceholdersUnused, BlockLocal, StoresSelf, AnyConsultsSelf, Optimizer.Rounds;
    var f1, f2, f3 :| FusesIntegers(f, f1) && FusesStrings(f1, f2) && FusesCopies(f2, f3)
                      && Optimizer.Rounds(m.overflowChecks, Optimizer.ROUNDS, f3, g);
    var live := NotCopied(f);
    BlockLocalIsOptimizable(f);
    BlockLocalOperandsNotCopied(f);
    LocalOperandsUseNoPlaceholders(f, f1);
    FusionKeepsOptimizable(m, f, f1, f2, f3, live);
    Optimizer.RoundsImprove(m, Optimizer.ROUNDS, f3, g, live);
    RefinesTransitive(m, f, f3, g);
    OptimizableIsStrict(g, live);
  }

  lemma OptimizableIsStrict(f: Func, live: iset<RegId>)
    requires Optimizable(f, live)
    ensures Strict(f, live)
  {
  }

  // The same where the function may return the value of a conditional: with such returns masked.
  lemma MaskedCompilesSoundly(m: Mode, f: Func, g: Func)
    requires m.disciplined && BlockLocal(Mask(f, NotCopied(f))) && SelfKept(f, g) && Compiled(m.overflowChecks, f, g)
    ensures var live := NotCopied(f);
            && RefinesFunc(m, Mask(f, live), Mask(g, live))
            && Optimizable(Mask(g, live), live) && Strict(Mask(g, live), live)
  {
    hide RefinesFunc, Optimizable, Strict, Scanned, OperandsNotCopied, OperandsLocal, PlaceholdersUnused, BlockLocal,
         StoresSelf, AnyConsultsSelf, Optimizer.Rounds, NotCopied;
    var f1, f2, f3 :| FusesIntegers(f, f1) && FusesStrings(f1, f2) && FusesCopies(f2, f3)
                      && Optimizer.Rounds(m.overflowChecks, Optimizer.ROUNDS, f3, g);
    var live := NotCopied(f);
    var f' := Mask(f, live);
    MaskKeepsInsts(f, live);
    MaskKeepsInsts(g, live);
    BlockLocalIsOptimizable(f');
    BlockLocalOperandsNotCopied(f');
    LocalOperandsUseNoPlaceholders(f', Mask(f1, live));
    ScannedMasked(LearnInteger, NO_INTEGERS, RecordPlaceholders, FuseIntegers, f, f1, live);
    ScannedMasked(LearnLoaded, map[], Unchanged, FuseStrings, f1, f2, live);
    ScannedMasked<Chain>(LinkCopy, NoCopies(), Unchanged, FuseCopy, f2, f3, live);
    FusionKeepsOptimizable(m, f', Mask(f1, live), Mask(f2, live), Mask(f3, live), live);
    RoundsImproveMasked(m, Optimizer.ROUNDS, f3, g, live);
    RefinesTransitive(m, f', Mask(f3, live), Mask(g, live));
    OptimizableIsStrict(Mask(g, live), live);
  }

  lemma MaskKeepsInsts(f: Func, live: iset<RegId>)
    ensures NotCopied(Mask(f, live)) == NotCopied(f)
    ensures StoresSelf(f) <==> StoresSelf(Mask(f, live))
    ensures AnyConsultsSelf(f) <==> AnyConsultsSelf(Mask(f, live))
  {
    var g := Mask(f, live);
    assert forall c: nat, i: nat :: At(f, c, i) <==> At(g, c, i);
    assert forall c: nat, i: nat :: At(f, c, i) ==> InstAt(f, c, i) == InstAt(g, c, i);
    assert forall r, c: nat, i: nat :: Def(f, r, c, i) <==> Def(g, r, c, i);
    assert forall r :: DefinedByCopy(f, r) <==> DefinedByCopy(g, r);
  }

  // If the evaluation of the tree does not abort, the compiled code makes the same calls and ends alike, for every
  // world, every argument list and every amount of gas; and unless the body ends in a conditional it returns the
  // same value.
  lemma CompilingIsCorrect(checks: bool, world: World, params: seq<string>, body: seq<Node>, g: Func,
                           args: seq<Value>, globals: Globals, trace: seq<Event>, gas: nat)
    requires AllStmts(body)
    requires var f := LowerFunction(params, body); SelfKept(f, g) && Compiled(checks, f, g)
    requires !EvalFunc(Mode(checks, true, false, false), world, params, body, args, globals, trace, gas).Aborted?
    ensures var o := RunFunc(Mode(checks, false, false, false), world, g, args, globals, trace, gas);
            var o' := EvalFunc(Mode(checks, false, false, false), world, params, body, args, globals, trace, gas);
            SameButValue(o, o') && (BodyHasValue(body) ==> o == o')
  {
    hide Compiled, LowerFunction, EvalFunc, RefinesFunc, SelfKept, BlockLocal, ValueSurvives, IsStmt, WellValued,
         BodyHasValue;
    var f, m := LowerFunction(params, body), Mode(checks, true, false, false);
    AllStmtsWellValued(body);
    LoweringIsCorrect(m, world, params, body, args, globals, trace, gas);
    LoweringIsCorrect(Plain(m), world, params, body, args, globals, trace, gas);
    LoweredIsBlockLocal(params, body);
    MaskedCompilesSoundly(m, f, g);
    UnmaskedRuns(m, f, g, NotCopied(f), world, args, globals, trace, gas);
    PlainRun(m, world, f, args, globals, trace, gas);
    PlainRun(m, world, g, args, globals, trace, gas);
    if BodyHasValue(body) {
      ValuedSurvives(Plain(m), world, params, body, args, globals, trace, gas);
      LoweredCompilesSoundly(m, f, g);
      RefinedRun(m, world, f, g, args, globals, trace, gas);
    }
  }

  lemma AllStmtsWellValued(body: seq<Node>)
    requires AllStmts(body)
    ensures AllWellValued(body)
  {
    forall n | n in body
      ensures WellValued(n)
    {
      StmtIsWellValued(n);
    }
  }

  lemma PlainRun(m: Mode, world: World, f: Func, args: seq<Value>, globals: Globals, trace: seq<Event>, gas: nat)
    ensures Refines(RunFunc(m, world, f, args, globals, trace, gas),
                    RunFunc(Plain(m), world, f, args, globals, trace, gas))
  {
    DisciplineErased(m, world, f.blocks, EntryLabel(f.blocks), Enter(f, args, globals, trace), gas);
  }

  lemma RefinedRun(m: Mode, world: World, f: Func, g: Func, args: seq<Value>, globals: Globals, trace: seq<Event>,
                   gas: nat)
    requires RefinesFunc(m, f, g)
    ensures Refines(RunFunc(m, world, f, args, globals, trace, gas), RunFunc(m, world, g, args, globals, trace, gas))
  {
  }

  lemma ValuedSurvives(m: Mode, world: World, params: seq<string>, body: seq<Node>, args: seq<Value>,
                       globals: Globals, trace: seq<Event>, gas: nat)
    requires BodyHasValue(body)
    ensures ValueSurvives(m, world, params, body, args, globals, trace, gas)
  {
    if gas > 0 {
      BodyHasValueReaches(m, world, body, BindNames(State(map[], map[], globals, trace), params, args, |params|),
                          gas - 1);
    }
  }

  // ---------------------------------------------------------------- with the tree optimizer in front

  lemma {:induction false} OptimizedExpr(checks: bool, n: Node)
    requires IsExpr(n)
    ensures IsExpr(OptimizeNode(checks, n))
  {
    match n
    case BinaryOp(_, l, r) =>
      OptimizedExpr(checks, l);
      OptimizedExpr(checks, r);
    case UnaryOp(_, x) => OptimizedExpr(checks, x);
    case CallNode(_, args) =>
      forall a | a in args
        ensures IsExpr(OptimizeNode(checks, a))
      {
        OptimizedExpr(checks, a);
      }
    case Assign(_, value) => OptimizedExpr(checks, value);
    case _ =>
  }

  lemma {:induction false} OptimizedStmt(checks: bool, n: Node)
    requires IsStmt(n)
    ensures IsStmt(OptimizeNode(checks, n))
    ensures HasValue(n) ==> HasValue(OptimizeNode(checks, n))
  {
    hide FoldBinary, WellValued;
    match n
    case If(c, t, e) =>
      OptimizedExpr(checks, c);
      OptimizedStmts(checks, t);
      OptimizedStmts(checks, e);
      OptimizedArms(checks, n);
    case Loop(c, body) =>
      OptimizedExpr(checks, c);
      OptimizedStmts(checks, body);
    case Sequence(ns) => OptimizedStmts(checks, ns);
    case ReturnNode(_) =>
    case NopNode =>
    case _ =>
      OptimizedExpr(checks, n);
      ExprIsWellValued(OptimizeNode(checks, n));
      ExprIsStmt(OptimizeNode(checks, n));
  }

  lemma OptimizedArms(checks: bool, n: Node)
    requires n.If? && IsExpr(OptimizeNode(checks, n.cond))
    requires AllStmts(OptimizeAll(checks, n.thenBody)) && AllStmts(OptimizeAll(checks, n.elseBody))
    ensures IsStmt(OptimizeNode(checks, n))
  {
    hide OptimizeAll, FoldBinary, WellValued, HasValue, BodyHasValue;
    var c := OptimizeNode(checks, n.cond);
    var (t, e) := (OptimizeAll(checks, n.thenBody), OptimizeAll(checks, n.elseBody));
    assert OptimizeNode(checks, n) in {If(c, t, e), Sequence(t), Sequence(e)};
  }

  lemma ExprIsStmt(n: Node)
    requires IsExpr(n)
    ensures IsStmt(n)
  {
  }

  lemma {:induction false} OptimizedStmts(checks: bool, ns: seq<Node>)
    requires AllStmts(ns)
    ensures AllStmts(OptimizeAll(checks, ns))
    ensures BodyHasValue(ns) ==> BodyHasValue(OptimizeAll(checks, ns))
  {
    forall k | 0 <= k < |ns|
      ensures IsStmt(OptimizeNode(checks, ns[k])) && (HasValue(ns[k]) ==> HasValue(OptimizeNode(checks, ns[k])))
    {
      OptimizedStmt(checks, ns[k]);
    }
  }

  /** In no amount of gas does the tree meet a fault. */
  ghost predicate NeverFaults(m: Mode, world: World, params: seq<string>, body: seq<Node>, args: seq<Value>,
                              globals: Globals, trace: seq<Event>)
  {
    forall gas: nat :: !EvalFunc(m, world, params, body, args, globals, trace, gas).Aborted?
  }

  // From source tree to optimized code: if the tree meets no fault, the compiled function ends exactly if the tree
  // does, after the same calls; and unless the body ends in a conditional it returns the same value.
  lemma CompilerIsCorrect(checks: bool, world: World, params: seq<string>, body: seq<Node>, g: Func,
                          args: seq<Value>, globals: Globals, trace: seq<Event>, o: Outcome)
    requires AllStmts(body) && FitBody(body, true) && !o.OutOfGas?
    requires var f := LowerFunction(params, OptimizeAll(checks, body)); SelfKept(f, g) && Compiled(checks, f, g)
    requires NeverFaults(Mode(checks, true, false, false), world, params, body, args, globals, trace)
    ensures var m := Mode(checks, false, false, false);
            (exists gas: nat :: SameButValue(EvalFunc(m, world, params, body, args, globals, trace, gas), o))
            <==> exists gas: nat :: SameButValue(RunFunc(m, world, g, args, globals, trace, gas), o)
    ensures var m := Mode(checks, false, false, false);
            BodyHasValue(body) ==>
              ((exists gas: nat :: EvalFunc(m, world, params, body, args, globals, trace, gas) == o)
               <==> exists gas: nat :: RunFunc(m, world, g, args, globals, trace, gas) == o)
  {
    hide SelfKept, Compiled, LowerFunction, FitBody, RunFunc, EvalFunc;
    var m, body' := Mode(checks, false, false, false), OptimizeAll(checks, body);
    OptimizedStmts(checks, body);
    OptimizingKeepsMeaning(Mode(checks, true, false, false), world, params, body, args, globals, trace, Aborted);
    OptimizingKeepsMeaning(m, world, params, body, args, globals, trace, o);
    forall gas: nat
      ensures var r := RunFunc(m, world, g, args, globals, trace, gas);
              var r' := EvalFunc(m, world, params, body', args, globals, trace, gas);
              SameButValue(r, r') && (BodyHasValue(body) ==> r == r')
    {
      CompilingIsCorrect(checks, world, params, body', g, args, globals, trace, gas);
    }
    if gas: nat :| SameButValue(EvalFunc(m, world, params, body, args, globals, trace, gas), o) {
      OptimizingKeepsMeaning(m, world, params, body, args, globals, trace,
                             EvalFunc(m, world, params, body, args, globals, trace, gas));
    }
    if gas: nat :| SameButValue(RunFunc(m, world, g, args, globals, trace, gas), o) {
      OptimizingKeepsMeaning(m, world, params, body, args, globals, trace,
                             EvalFunc(m, world, params, body', args, globals, trace, gas));
    }
  }

  // With the peephole loop at the end: where it can only cut harmless branches, and simplify only identities of
  // numbers and nil, the final code returns exactly what the tree returns.
  lemma FinalCodeIsCorrect(checks: bool, objects: bool, world: World, params: seq<string>, body: seq<Node>, g: Func,
                           n: nat, h: Func, args: seq<Value>, globals: Globals, trace: seq<Event>, o: Outcome)
    requires AllStmts(body) && BodyHasValue(body) && FitBody(body, true) && !o.OutOfGas?
    requires var f := LowerFunction(params, OptimizeAll(checks, body)); SelfKept(f, g) && Compiled(checks, f, g)
    requires var m := Mode(checks, true, true, objects);
             && PeepholeLoop.Sweeps(n, g, h) && HarmlessCuts(g) && StoresReadBack(m, g)
             && PlainNames(m, params) && NeverFaults(m, world, params, body, args, globals, trace)
    ensures var m := Mode(checks, false, false, false);
            (exists gas: nat :: EvalFunc(m, world, params, body, args, globals, trace, gas) == o)
            <==> exists gas: nat :: RunFunc(m, world, h, args, globals, trace, gas) == o
  {
    hide SelfKept, Compiled, LowerFunction, FitBody, RunFunc, EvalFunc, EndsAlike, BlockLocal, RefinesFunc,
         Optimizable, Strict, ValueSurvives, HarmlessCuts, StoresReadBack, PeepholeLoop.Sweeps;
    var m, body' := Mode(checks, true, true, objects), OptimizeAll(checks, body);
    var f := LowerFunction(params, body');
    OptimizedStmts(checks, body);
    OptimizingKeepsMeaning(m, world, params, body, args, globals, trace, Aborted);
    OptimizingKeepsMeaning(Plain(m), world, params, body, args, globals, trace, o);
    LoweredIsBlockLocal(params, body');
    LoweredCompilesSoundly(m, f, g);
    SweepsKeepEnds(m, n, g, h, NotCopied(f));
    AllStmtsWellValued(body');
    forall gas: nat
      ensures var r := RunFunc(m, world, g, args, globals, trace, gas);
              && !r.Aborted? && r == RunFunc(Plain(m), world, g, args, globals, trace, gas)
              && r == EvalFunc(Plain(m), world, params, body', args, globals, trace, gas)
    {
      assert !EvalFunc(m, world, params, body', args, globals, trace, gas).Aborted?;
      LoweringIsCorrect(m, world, params, body', args, globals, trace, gas);
      ValuedSurvives(m, world, params, body', args, globals, trace, gas);
      LoweringIsCorrect(Plain(m), world, params, body', args, globals, trace, gas);
      ValuedSurvives(Plain(m), world, params, body', args, globals, trace, gas);
      RefinedRun(m, world, f, g, args, globals, trace, gas);
      PlainRun(m, world, f, args, globals, trace, gas);
      PlainRun(m, world, g, args, globals, trace, gas);
    }
    SameEndings(m, world, g, h, args, globals, trace, o);
  }

  // Where g never aborts, g and h return the same.
  lemma SameEndings(m: Mode, world: World, g: Func, h: Func, args: seq<Value>, globals: Globals, trace: seq<Event>,
                    o: Outcome)
    requires EndsAlike(m, g, h) && !o.OutOfGas?
    requires forall gas: nat :: var r := RunFunc(m, world, g, args, globals, trace, gas);
               !r.Aborted? && r == RunFunc(Plain(m), world, g, args, globals, trace, gas)
    ensures (exists gas: nat :: RunFunc(Plain(m), world, g, args, globals, trace, gas) == o)
            <==> exists gas: nat :: RunFunc(Plain(m), world, h, args, globals, trace, gas) == o
  {
    hide RunFunc;
    if gas: nat :| RunFunc(Plain(m), world, g, args, globals, trace, gas) == o {
      PlainRun(m, world, h, args, globals, trace, gas);
      assert RunFunc(m, world, h, args, globals, trace, gas) == o;
    }
    if gas: nat :| RunFunc(Plain(m), world, h, args, globals, trace, gas) == o {
      PlainRun(m, world, h, args, globals, trace, gas);
      var o' := RunFunc(m, world, h, args, globals, trace, gas);
      assert ComesTo(m, world, g, args, globals, trace, o');
    }
  }

  // The same where the body may end in a conditional: with returns of its value left out, its branches can be cut.
  lemma FinalCodeKeepsCalls(checks: bool, objects: bool, world: World, params: seq<string>, body: seq<Node>, g: Func,
                            n: nat, h: Func, args: seq<Value>, globals: Globals, trace: seq<Event>, o: Outcome)
    requires AllStmts(body) && FitBody(body, true) && !o.OutOfGas?
    requires var m, f := Mode(checks, true, true, objects), LowerFunction(params, OptimizeAll(checks, body));
             && SelfKept(f, g) && Compiled(checks, f, g) && PeepholeLoop.Sweeps(n, g, h)
             && HarmlessCuts(Mask(g, NotCopied(f))) && StoresReadBack(m, g)
             && PlainNames(m, params) && NeverFaults(m, world, params, body, args, globals, trace)
    ensures var m := Mode(checks, false, false, false);
            (exists gas: nat :: SameButValue(EvalFunc(m, world, params, body, args, globals, trace, gas), o))
            <==> exists gas: nat :: SameButValue(RunFunc(m, world, h, args, globals, trace, gas), o)
  {
    hide SelfKept, Compiled, LowerFunction, FitBody, RunFunc, EvalFunc, EndsAlike, BlockLocal, RefinesFunc,
         Optimizable, Strict, ValueSurvives, HarmlessCuts, StoresReadBack, PeepholeLoop.Sweeps, NotCopied;
    var m, body' := Mode(checks, true, true, objects), OptimizeAll(checks, body);
    var f := LowerFunction(params, body');
    var live := NotCopied(f);
    OptimizedStmts(checks, body);
    OptimizingKeepsMeaning(m, world, params, body, args, globals, trace, Aborted);
    LoweredIsBlockLocal(params, body');
    MaskedCompilesSoundly(m, f, g);
    SweepsMasked(n, g, h, live);
    MaskReadsBack(m, g, live);
    SweepsKeepEnds(m, n, Mask(g, live), Mask(h, live), live);
    AllStmtsWellValued(body');
    forall gas: nat
      ensures var r := RunFunc(m, world, Mask(g, live), args, globals, trace, gas);
              !r.Aborted? && SameButValue(r, EvalFunc(Plain(m), world, params, body', args, globals, trace, gas))
    {
      assert !EvalFunc(m, world, params, body', args, globals, trace, gas).Aborted?;
      LoweringIsCorrect(m, world, params, body', args, globals, trace, gas);
      LoweringIsCorrect(Plain(m), world, params, body', args, globals, trace, gas);
      PlainRun(m, world, f, args, globals, trace, gas);
      UnmaskedRuns(m, f, g, live, world, args, globals, trace, gas);
      MaskedCall(m, world, g, live, args, globals, trace, gas);
    }
    MaskedEndings(m, world, Mask(g, live), h, live, args, globals, trace, o);
    assert (exists gas: nat :: SameButValue(EvalFunc(Plain(m), world, params, body', args, globals, trace, gas), o))
           <==> exists gas: nat :: SameButValue(RunFunc(m, world, Mask(g, live), args, globals, trace, gas), o) by {
      if gas: nat :| SameButValue(EvalFunc(Plain(m), world, params, body', args, globals, trace, gas), o) {
        assert SameButValue(RunFunc(m, world, Mask(g, live), args, globals, trace, gas), o);
      }
      if gas: nat :| SameButValue(RunFunc(m, world, Mask(g, live), args, globals, trace, gas), o) {
        assert SameButValue(EvalFunc(Plain(m), world, params, body', args, globals, trace, gas), o);
      }
    }
    SameEndOptimized(m, world, params, body, args, globals, trace, o);
    assert Plain(m) == Mode(checks, false, false, false);
  }

  lemma MaskReadsBack(m: Mode, f: Func, live: iset<RegId>)
    requires StoresReadBack(m, f)
    ensures StoresReadBack(m, Mask(f, live))
  {
    var g := Mask(f, live);
    assert forall b: nat, i: nat :: At(g, b, i) ==> At(f, b, i) && InstAt(g, b, i) == InstAt(f, b, i);
  }

  lemma MaskedCall(m: Mode, world: World, f: Func, live: iset<RegId>, args: seq<Value>, globals: Globals,
                   trace: seq<Event>, gas: nat)
    ensures SameButValue(RunFunc(m, world, f, args, globals, trace, gas),
                         RunFunc(m, world, Mask(f, live), args, globals, trace, gas))
  {
    assert EntryLabel(f.blocks) == EntryLabel(Mask(f, live).blocks);
    MaskedRun(m, world, f, live, EntryLabel(f.blocks), Enter(f, args, globals, trace), gas);
  }

  // Where g never aborts, g and h end alike but for the value.
  lemma MaskedEndings(m: Mode, world: World, g: Func, h: Func, live: iset<RegId>, args: seq<Value>, globals: Globals,
                      trace: seq<Event>, o: Outcome)
    requires EndsAlike(m, g, Mask(h, live)) && !o.OutOfGas?
    requires forall gas: nat :: !RunFunc(m, world, g, args, globals, trace, gas).Aborted?
    ensures (exists gas: nat :: SameButValue(RunFunc(m, world, g, args, globals, trace, gas), o))
            <==> exists gas: nat :: SameButValue(RunFunc(Plain(m), world, h, args, globals, trace, gas), o)
  {
    hide RunFunc;
    forall gas: nat
      ensures var r := RunFunc(m, world, h, args, globals, trace, gas);
              && !r.Aborted? && r == RunFunc(Plain(m), world, h, args, globals, trace, gas)
              && SameButValue(r, RunFunc(m, world, Mask(h, live), args, globals, trace, gas))
    {
      MaskedCall(m, world, h, live, args, globals, trace, gas);
      PlainRun(m, world, h, args, globals, trace, gas);
      var o' := RunFunc(m, world, Mask(h, live), args, globals, trace, gas);
      assert !o'.OutOfGas? ==> ComesTo(m, world, g, args, globals, trace, o');
    }
    if gas: nat :| SameButValue(RunFunc(m, world, g, args, globals, trace, gas), o) {
      assert RunFunc(m, world, Mask(h, live), args, globals, trace, gas)
          == RunFunc(m, world, g, args, globals, trace, gas);
      assert SameButValue(RunFunc(Plain(m), world, h, args, globals, trace, gas), o);
    }
    if gas: nat :| SameButValue(RunFunc(Plain(m), world, h, args, globals, trace, gas), o) {
      var o' := RunFunc(m, world, Mask(h, live), args, globals, trace, gas);
      assert ComesTo(m, world, g, args, globals, trace, o');
    }
  }

  lemma SameEndOptimized(m: Mode, world: World, params: seq<string>, body: seq<Node>, args: seq<Value>,
                         globals: Globals, trace: seq<Event>, o: Outcome)
    requires FitBody(body, true) && !o.OutOfGas?
    ensures var body' := OptimizeAll(m.overflowChecks, body);
            (exists gas: nat :: SameButValue(EvalFunc(Plain(m), world, params, body, args, globals, trace, gas), o))
            <==> exists gas: nat :: SameButValue(EvalFunc(Plain(m), world, params, body', args, globals, trace, gas), o)
  {
    hide FitBody, EvalFunc, OptimizeAll;
    var body' := OptimizeAll(m.overflowChecks, body);
    if gas: nat :| SameButValue(EvalFunc(Plain(m), world, params, body, args, globals, trace, gas), o) {
      OptimizingKeepsMeaning(Plain(m), world, params, body, args, globals, trace,
                             EvalFunc(Plain(m), world, params, body, args, globals, trace, gas));
    }
    if gas: nat :| SameButValue(EvalFunc(Plain(m), world, params, body', args, globals, trace, gas), o) {
      OptimizingKeepsMeaning(Plain(m), world, params, body, args, globals, trace,
                             EvalFunc(Plain(m), world, params, body', args, globals, trace, gas));
    }
  }

  lemma CompilingDoesNotStop(checks: bool, f: Func, f1: Func, f2: Func, f3: Func)
    requires !IntegerFusionStops(f) && FusesIntegers(f, f1) && FusesStrings(f1, f2) && FusesCopies(f2, f3)
    requires !Optimizer.RoundsStop(checks, Optimizer.ROUNDS, f3)
    ensures !CompilingStops(checks, f)
  {
    hide Scanned, GetsStuck, Optimizer.RoundsStop;
    if f1', f2', f3' :| FusesIntegers(f, f1') && FusesStrings(f1', f2') && FusesCopies(f2', f3')
                        && Optimizer.RoundsStop(checks, Optimizer.ROUNDS, f3') {
      ScannedIsUnique(LearnInteger, NO_INTEGERS, RecordPlaceholders, FuseIntegers, f, f1, f1');
      ScannedIsUnique(LearnLoaded, map[], Unchanged, FuseStrings, f1, f2, f2');
      ScannedIsUnique<Chain>(LinkCopy, NoCopies(), Unchanged, FuseCopy, f2, f3, f3');
    }
  }

  // The whole pipeline in place: tree optimizer, lowering, fusion, three rounds, and the peephole loop, which
  // terminates on whatever it is given.
  method Compile(overflowChecks: bool, params: seq<string>, body: seq<Node>)
    returns (func: MirFunction, panicked: bool, ghost optimized: Func, ghost sweeps: nat)
    ensures fresh(func)
    ensures panicked <==> (exists n | n in body :: HirOptimize.Stops(overflowChecks, n))
                          || CompilingStops(overflowChecks, LowerFunction(params, OptimizeAll(overflowChecks, body)))
    ensures !panicked ==>
              && Compiled(overflowChecks, LowerFunction(params, OptimizeAll(overflowChecks, body)), optimized)
              && PeepholeLoop.Sweeps(sweeps, optimized, func.Value()) && PeepholeLoop.Stable(func.Value())
  {
    hide OptimizeAll;
    sweeps := 0;
    var tree := new HirModule(body);
    panicked := tree.Optimize(overflowChecks);
    if panicked {
      func := new MirFunction([], []);
      optimized := func.Value();
      return;
    }
    var lowering := new HirLowering();
    var lowered := lowering.LowerFunc(params, tree.nodes);
    func := new MirFunction(lowered.params, lowered.blocks);
    panicked := FuseIntegerArithmetic(func);
    optimized := func.Value();
    if panicked {
      return;
    }
    ghost var f1 := func.Value();
    FuseStringConcatenation(func);
    ghost var f2 := func.Value();
    FuseCopyChains(func);
    ghost var f3 := func.Value();
    panicked := Optimizer.OptimizeFunction(overflowChecks, func);
    optimized := func.Value();
    if panicked {
      return;
    }
    CompilingDoesNotStop(overflowChecks, lowered, f1, f2, f3);
    sweeps := PeepholeLoop.OptimizeFunction(func);
  }
}
