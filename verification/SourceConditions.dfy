/** Conditions on the source tree under which the whole compiler, peephole loop included, is right. */
module SourceConditions {
  import opened Mir
  import opened Improvement
  import opened Hir
  import opened HirOptimize
  import opened Lower
  import opened LowerForm
  import opened LoweredCode
  import opened LoweredNames
  import opened LoweredTails
  import opened LostValues
  import opened Peephole
  import opened FallThrough
  import opened SteadyGraph
  import opened Pipeline
  import PeepholeLoop

  // ---------------------------------------------------------------- through the tree optimizer

  lemma {:induction false} OptimizedTail(checks: bool, ns: seq<Node>)
    requires TailBody(ns)
    ensures TailBody(OptimizeAll(checks, ns))
    decreases ns, 0
  {
    if |ns| == 1 {
      OptimizedTailNode(checks, ns[0]);
    } else if |ns| > 1 {
      OptimizedExpr(checks, ns[0]);
      OptimizedTail(checks, ns[1..]);
    }
  }

  lemma {:induction false} OptimizedTailNode(checks: bool, n: Node)
    requires TailNode(n)
    ensures TailNode(OptimizeNode(checks, n))
    decreases n, 1
  {
    if IsExpr(n) {
      OptimizedExpr(checks, n);
    } else {
      OptimizedExpr(checks, n.cond);
      OptimizedTail(checks, n.thenBody);
      OptimizedTail(checks, n.elseBody);
    }
  }

  lemma {:induction false} TailsAreStmts(ns: seq<Node>)
    requires TailBody(ns)
    ensures AllStmts(ns)
    decreases ns, 0
  {
    if ns != [] {
      if IsExpr(ns[0]) {
        ExprIsStmt(ns[0]);
      } else {
        TailsAreStmts(ns[0].thenBody);
        TailsAreStmts(ns[0].elseBody);
      }
      if |ns| > 1 {
        TailsAreStmts(ns[1..]);
      }
    }
  }

  // ---------------------------------------------------------------- trees that meet no fault

  /** The operators that fault on no operands: connectives, comparisons by order, and bit operations. */
  predicate Harmless(op: BinOp) {
    op in {And, Or, Lt, Gt, LtEq, GtEq, Cmp, BitAnd, BitOr, BitXor}
  }

  /** Only such operators, and nothing but variables, globals and constants is set. */
  predicate FaultFree(n: Node) {
    match n
    case BinaryOp(op, l, r) => Harmless(op) && FaultFree(l) && FaultFree(r)
    case UnaryOp(op, x) => op != Neg && FaultFree(x)
    case CallNode(_, args) => AllFaultFree(args)
    case BlockCall(_, args, _, _, _, _) => AllFaultFree(args)
    case Assign(name, value) => !IsIvarName(name) && FaultFree(value)
    case If(c, t, e) => FaultFree(c) && AllFaultFree(t) && AllFaultFree(e)
    case Loop(c, body) => FaultFree(c) && AllFaultFree(body)
    case ReturnNode(Some(value)) => FaultFree(value)
    case Sequence(ns) => AllFaultFree(ns)
    case _ => true
  }

  predicate AllFaultFree(ns: seq<Node>) {
    forall n | n in ns :: FaultFree(n)
  }

  lemma {:induction false} FaultFreeRuns(m: Mode, world: World, n: Node, st: State, gas: nat)
    requires FaultFree(n)
    ensures Eval(m, world, n, st, gas) != Exit(Aborted)
    decreases gas, n, 1
  {
    hide EvalBinary, EvalUnary, ReadName, WriteName, AskTree, TellSelf;
    match n
    case BinaryOp(_, left, right) =>
      FaultFreeRuns(m, world, left, st, gas);
      var l := Eval(m, world, left, st, gas);
      if l.Done? {
        FaultFreeRuns(m, world, right, l.st, l.gas);
      }
    case UnaryOp(_, x) => FaultFreeRuns(m, world, x, st, gas);
    case CallNode(_, args) => FaultFreeArgs(m, world, args, st, gas);
    case BlockCall(_, args, _, _, _, _) => FaultFreeArgs(m, world, args, st, gas);
    case Assign(_, value) => FaultFreeRuns(m, world, value, st, gas);
    case If(c, t, e) =>
      FaultFreeRuns(m, world, c, st, gas);
      var r := Eval(m, world, c, st, gas);
      if r.Done? && r.gas > 0 {
        FaultFreeBody(m, world, if r.v.IsTruthy() then t else e, r.st, r.gas - 1, Nil);
      }
    case Loop(_, _) =>
      if gas > 0 {
        FaultFreeLoop(m, world, n, st, gas - 1);
      }
    case ReturnNode(Some(value)) => FaultFreeRuns(m, world, value, st, gas);
    case Sequence(ns) => FaultFreeBody(m, world, ns, st, gas, Nil);
    case _ =>
  }

  lemma {:induction false} FaultFreeLoop(m: Mode, world: World, n: Node, st: State, gas: nat)
    requires n.Loop? && FaultFree(n)
    ensures EvalLoop(m, world, n, st, gas) != Exit(Aborted)
    decreases gas, n, 0
  {
    hide Eval, EvalBody;
    FaultFreeRuns(m, world, n.cond, st, gas);
    var c := Eval(m, world, n.cond, st, gas);
    if c.Done? && c.gas > 0 && c.v.IsTruthy() {
      FaultFreeBody(m, world, n.body, c.st, c.gas - 1, Nil);
      var r := EvalBody(m, world, n.body, c.st, c.gas - 1, Nil);
      if r.Done? && r.gas > 0 {
        FaultFreeLoop(m, world, n, r.st, r.gas - 1);
      }
    }
  }

  lemma {:induction false} FaultFreeBody(m: Mode, world: World, ns: seq<Node>, st: State, gas: nat, last: Value)
    requires AllFaultFree(ns)
    ensures EvalBody(m, world, ns, st, gas, last) != Exit(Aborted)
    decreases gas, ns, 0
  {
    hide Eval;
    if ns != [] {
      FaultFreeRuns(m, world, ns[0], st, gas);
      var r := Eval(m, world, ns[0], st, gas);
      if r.Done? {
        FaultFreeBody(m, world, ns[1..], r.st, r.gas, r.v);
      }
    }
  }

  lemma {:induction false} FaultFreeArgs(m: Mode, world: World, ns: seq<Node>, st: State, gas: nat)
    requires AllFaultFree(ns)
    ensures EvalAll(m, world, ns, st, gas) != AnyExit(Aborted)
    decreases gas, ns, 0
  {
    hide Eval;
    if ns != [] {
      FaultFreeRuns(m, world, ns[0], st, gas);
      var r := Eval(m, world, ns[0], st, gas);
      if r.Done? {
        FaultFreeArgs(m, world, ns[1..], r.st, r.gas);
      }
    }
  }

  // Whatever the arguments, the world and the kind of build.
  lemma FaultFreeNeverFaults(m: Mode, world: World, params: seq<string>, body: seq<Node>, args: seq<Value>,
                             globals: Globals, trace: seq<Event>)
    requires AllFaultFree(body)
    ensures NeverFaults(m, world, params, body, args, globals, trace)
  {
    forall gas: nat
      ensures !EvalFunc(m, world, params, body, args, globals, trace, gas).Aborted?
    {
      if gas > 0 {
        FaultFreeBody(m, world, body, BindNames(State(map[], map[], globals, trace), params, args, |params|), gas - 1,
                      Nil);
      }
    }
  }

  // ---------------------------------------------------------------- what the conditions give

  lemma SourceReadsBack(checks: bool, m: Mode, params: seq<string>, body: seq<Node>, g: Func)
    requires OneSelf(m.objects, params, body) && Compiled(checks, LowerFunction(params, body), g)
    ensures StoresReadBack(m, g)
  {
    OneSelfInCode(m.objects, params, body);
    CompiledKeepsNames(checks, LowerFunction(params, body), g);
    OneSelfReadsBack(m, g);
  }

  // ---------------------------------------------------------------- the compiler

  // Without the peephole loop, whatever the statements: the same calls and the same end, and the same value unless
  // the body ends in a conditional.
  lemma StatementsAreCorrect(checks: bool, world: World, params: seq<string>, body: seq<Node>, g: Func,
                             args: seq<Value>, globals: Globals, trace: seq<Event>, o: Outcome)
    requires AllStmts(body) && FitBody(body, true) && !o.OutOfGas? && SelfUntouched(params, body)
    requires NeverFaults(Mode(checks, true, false, false), world, params, body, args, globals, trace)
    requires Compiled(checks, LowerFunction(params, OptimizeAll(checks, body)), g)
    ensures var m := Mode(checks, false, false, false);
            (exists gas: nat :: SameButValue(EvalFunc(m, world, params, body, args, globals, trace, gas), o))
            <==> exists gas: nat :: SameButValue(RunFunc(m, world, g, args, globals, trace, gas), o)
    ensures var m := Mode(checks, false, false, false);
            BodyHasValue(body) ==>
              ((exists gas: nat :: EvalFunc(m, world, params, body, args, globals, trace, gas) == o)
               <==> exists gas: nat :: RunFunc(m, world, g, args, globals, trace, gas) == o)
  {
    hide LowerFunction, Compiled, FitBody, NeverFaults, SelfUntouched, OneSelf, RunFunc, EvalFunc, SelfKept,
         OptimizeAll;
    OptimizedKeepsNames(checks, false, params, body);
    UntouchedSelfIsKept(params, OptimizeAll(checks, body), g);
    CompilerIsCorrect(checks, world, params, body, g, args, globals, trace, o);
  }

  // Straight-line code: what the compiler makes of it, at the very end, returns exactly what the tree returns.
  lemma StraightLineIsCorrect(checks: bool, objects: bool, world: World, params: seq<string>, body: seq<Node>, g: Func,
                              n: nat, h: Func, args: seq<Value>, globals: Globals, trace: seq<Event>, o: Outcome)
    requires (forall a | a in body :: IsExpr(a)) && FitBody(body, true) && !o.OutOfGas?
    requires SelfUntouched(params, body) && OneSelf(objects, params, body) && (objects ==> NoIvarsAmong(params))
    requires NeverFaults(Mode(checks, true, true, objects), world, params, body, args, globals, trace)
    requires Compiled(checks, LowerFunction(params, OptimizeAll(checks, body)), g) && PeepholeLoop.Sweeps(n, g, h)
    ensures var m := Mode(checks, false, false, false);
            (exists gas: nat :: EvalFunc(m, world, params, body, args, globals, trace, gas) == o)
            <==> exists gas: nat :: RunFunc(m, world, h, args, globals, trace, gas) == o
  {
    hide LowerFunction, Compiled, PeepholeLoop.Sweeps, FitBody, NeverFaults, SelfUntouched, OneSelf, RunFunc, EvalFunc,
         HarmlessCuts, Steady, Undecided, StoresReadBack, SelfKept, TailBody, OptimizeAll;
    var m, body' := Mode(checks, true, true, objects), OptimizeAll(checks, body);
    var f := LowerFunction(params, body');
    StraightLineStays(checks, body);
    OptimizedKeepsNames(checks, objects, params, body);
    UntouchedSelfIsKept(params, body', g);
    SourceReadsBack(checks, m, params, body', g);
    StraightLineIsTail(body');
    TailsAreSteady(params, body');
    CompiledIsSteady(checks, f, g);
    StraightLineIsHarmless(params, body');
    SteadyStaysHarmless(f, g);
    FinalCodeIsCorrect(checks, objects, world, params, body, g, n, h, args, globals, trace, o);
  }

  lemma StraightLineStays(checks: bool, body: seq<Node>)
    requires forall a | a in body :: IsExpr(a)
    ensures forall a | a in OptimizeAll(checks, body) :: IsExpr(a)
    ensures AllStmts(body) && BodyHasValue(body)
  {
    forall a | a in OptimizeAll(checks, body)
      ensures IsExpr(a)
    {
      var k :| 0 <= k < |body| && a == OptimizeNode(checks, body[k]);
      OptimizedExpr(checks, body[k]);
    }
    forall a | a in body
      ensures IsStmt(a)
    {
      ExprIsStmt(a);
    }
    if body != [] {
      assert IsExpr(body[|body| - 1]);
    }
  }

  // Conditionals at the end: the final code makes the calls that the tree makes, and ends as it does.
  lemma TailsAreCorrect(checks: bool, objects: bool, world: World, params: seq<string>, body: seq<Node>, g: Func,
                        n: nat, h: Func, args: seq<Value>, globals: Globals, trace: seq<Event>, o: Outcome)
    requires TailBody(body) && FitBody(body, true) && !o.OutOfGas?
    requires SelfUntouched(params, body) && OneSelf(objects, params, body) && (objects ==> NoIvarsAmong(params))
    requires NeverFaults(Mode(checks, true, true, objects), world, params, body, args, globals, trace)
    requires Compiled(checks, LowerFunction(params, OptimizeAll(checks, body)), g) && PeepholeLoop.Sweeps(n, g, h)
    ensures var m := Mode(checks, false, false, false);
            (exists gas: nat :: SameButValue(EvalFunc(m, world, params, body, args, globals, trace, gas), o))
            <==> exists gas: nat :: SameButValue(RunFunc(m, world, h, args, globals, trace, gas), o)
  {
    hide LowerFunction, Compiled, PeepholeLoop.Sweeps, FitBody, NeverFaults, SelfUntouched, OneSelf, RunFunc, EvalFunc,
         HarmlessCuts, Steady, Undecided, StoresReadBack, SelfKept, TailBody, OptimizeAll, NotCopied;
    var m, body' := Mode(checks, true, true, objects), OptimizeAll(checks, body);
    var f := LowerFunction(params, body');
    TailsAreStmts(body);
    OptimizedTail(checks, body);
    OptimizedKeepsNames(checks, objects, params, body);
    UntouchedSelfIsKept(params, body', g);
    SourceReadsBack(checks, m, params, body', g);
    TailsAreSteady(params, body');
    CompiledIsSteady(checks, f, g);
    TailsAreHarmless(params, body');
    MaskedIsSteady(f, g, NotCopied(f));
    SteadyStaysHarmless(Mask(f, NotCopied(f)), Mask(g, NotCopied(f)));
    FinalCodeKeepsCalls(checks, objects, world, params, body, g, n, h, args, globals, trace, o);
  }

  // So a straight-line tree without faulting operators is compiled right on all conditions that can be read off it.
  lemma PlainCodeIsCorrect(checks: bool, world: World, params: seq<string>, body: seq<Node>, g: Func, n: nat, h: Func,
                           args: seq<Value>, globals: Globals, trace: seq<Event>, o: Outcome)
    requires (forall a | a in body :: IsExpr(a)) && AllFaultFree(body) && FitBody(body, true) && !o.OutOfGas?
    requires SelfUntouched(params, body) && OneSelf(false, params, body)
    requires Compiled(checks, LowerFunction(params, OptimizeAll(checks, body)), g) && PeepholeLoop.Sweeps(n, g, h)
    ensures var m := Mode(checks, false, false, false);
            (exists gas: nat :: EvalFunc(m, world, params, body, args, globals, trace, gas) == o)
            <==> exists gas: nat :: RunFunc(m, world, h, args, globals, trace, gas) == o
  {
    hide LowerFunction, Compiled, PeepholeLoop.Sweeps, FitBody, NeverFaults, SelfUntouched, OneSelf, RunFunc, EvalFunc,
         OptimizeAll;
    FaultFreeNeverFaults(Mode(checks, true, true, false), world, params, body, args, globals, trace);
    StraightLineIsCorrect(checks, false, world, params, body, g, n, h, args, globals, trace, o);
  }

  // A body that meets these conditions: x = y; puts(x and 1)
  lemma ConditionsAreMet()
    ensures var both := BinaryOp(And, VarRef("x"), Literal(ConstInteger(1)));
            var body := [Assign("x", VarRef("y")), CallNode("puts", [both])];
            && (forall a | a in body :: IsExpr(a)) && AllFaultFree(body) && FitBody(body, true)
            && SelfUntouched(["y"], body) && OneSelf(false, ["y"], body)
  {
    hide Within, Fit, IsExpr, FaultFree, BuiltIn, NoIvars;
    var both := BinaryOp(And, VarRef("x"), Literal(ConstInteger(1)));
    var assign, call := Assign("x", VarRef("y")), CallNode("puts", [both]);
    PartsMeetConditions(both, assign, call);
    assert FitBody([call], true);
    assert [assign, call][1..] == [call];
  }

  lemma PartsMeetConditions(both: Node, assign: Node, call: Node)
    requires both == BinaryOp(And, VarRef("x"), Literal(ConstInteger(1)))
    requires assign == Assign("x", VarRef("y")) && call == CallNode("puts", [both])
    ensures IsExpr(assign) && FaultFree(assign) && Fit(assign, false)
    ensures IsExpr(call) && FaultFree(call) && Fit(call, true)
    ensures forall n | n == assign || n == call ::
              Within(n, Names(NoIvars(), NoIvars(), BuiltIn())) && Within(n, Names(NoIvars(), Any(), Any()))
    ensures NoIvarsAmong(["y"])
  {
    assert IsExpr(both) && FaultFree(both) && Fit(both, true);
    assert Within(both, Names(NoIvars(), NoIvars(), BuiltIn())) && Within(both, Names(NoIvars(), Any(), Any()));
  }
}
