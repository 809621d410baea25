/** The tree-shaped representation, and its direct evaluation. */
module Hir {
  import opened Options
  import opened Mir

  datatype Node =
    | Literal(c: Const)
    | VarRef(name: string)
    | BinaryOp(op: BinOp, left: Node, right: Node)
    | UnaryOp(uop: UnOp, operand: Node)
    | CallNode(name: string, args: seq<Node>)
    | BlockCall(name: string, args: seq<Node>, params: seq<string>, body: seq<Node>,
                captured: seq<string>, capturesSelf: bool)
    | Assign(name: string, value: Node)
    | If(cond: Node, thenBody: seq<Node>, elseBody: seq<Node>)
    | Loop(cond: Node, body: seq<Node>)
    | ReturnNode(result: Option<Node>)
    | Sequence(nodes: seq<Node>)
    | NopNode

  /** Evaluation either yields a value, with what gas is left, or ends the function. */
  datatype Result =
    | Done(v: Value, st: State, gas: nat)
    | Exit(outcome: Outcome)

  datatype Results =
    | AllDone(vs: seq<Value>, st: State, gas: nat)
    | AnyExit(outcome: Outcome)

  /** Every change of block costs one unit of gas. */
  function Spend(st: State, gas: nat): Result {
    if gas == 0 then Exit(OutOfGas(st.globals, st.trace)) else Done(Nil, st, gas - 1)
  }

  /** Ask the rest of the program; the registers play no part. */
  function AskTree(world: World, st: State, name: string, args: seq<Value>): (Value, State) {
    var trace := st.trace + [CallEvent(st, name, args)];
    var a := world(trace);
    (a.result, State(st.regs, st.vars, a.globals, trace))
  }

  /** A call with a block goes to self; the interpreter does not hand the block on. */
  function TellSelf(world: World, st: State, name: string, args: seq<Value>): (Value, State) {
    var trace := st.trace + [Sent(ReadName(st, SELF), name, args, st.globals)];
    var a := world(trace);
    (a.result, State(st.regs, st.vars, a.globals, trace))
  }

  function Eval(m: Mode, world: World, n: Node, st: State, gas: nat): (r: Result)
    ensures r.Done? ==> r.gas <= gas
    decreases gas, n, 1
  {
    match n
    case Literal(c) => Done(ValueOf(c), st, gas)
    case VarRef(name) => Done(ReadName(st, name), st, gas)
    case BinaryOp(op, left, right) =>
      (match Eval(m, world, left, st, gas)
       case Exit(o) => Exit(o)
       case Done(l, st1, gas1) =>
         match Eval(m, world, right, st1, gas1)
         case Exit(o) => Exit(o)
         case Done(r, st2, gas2) =>
           if Faults(m, op, l, r) then Exit(Aborted) else Done(EvalBinary(op, l, r), st2, gas2))
    case UnaryOp(op, operand) =>
      (match Eval(m, world, operand, st, gas)
       case Exit(o) => Exit(o)
       case Done(v, st1, gas1) =>
         if FaultsUnary(m, op, v) then Exit(Aborted) else Done(EvalUnary(op, v), st1, gas1))
    case CallNode(name, args) =>
      (match EvalAll(m, world, args, st, gas)
       case AnyExit(o) => Exit(o)
       case AllDone(vs, st1, gas1) =>
         var (v, st2) := AskTree(world, st1, name, vs);
         Done(v, st2, gas1))
    case BlockCall(name, args, _, body, _, _) =>
      (match EvalAll(m, world, args, st, gas)
       case AnyExit(o) => Exit(o)
       case AllDone(vs, st1, gas1) =>
         var (v, st2) := if body == [] then AskTree(world, st1, name, vs) else TellSelf(world, st1, name, vs);
         Done(v, st2, gas1))
    case Assign(name, value) =>
      (match Eval(m, world, value, st, gas)
       case Exit(o) => Exit(o)
       case Done(v, st1, gas1) =>
         if FaultsStore(m, st1, name, v) then Exit(Aborted) else Done(v, WriteName(st1, name, v), gas1))
    case If(cond, thenBody, elseBody) =>
      (match Eval(m, world, cond, st, gas)
       case Exit(o) => Exit(o)
       case Done(v, st1, gas1) =>
         match Spend(st1, gas1)
         case Exit(o) => Exit(o)
         case Done(_, _, gas2) =>
           match EvalBody(m, world, if v.IsTruthy() then thenBody else elseBody, st1, gas2, Nil)
           case Exit(o) => Exit(o)
           case Done(w, st3, gas3) =>
             match Spend(st3, gas3)
             case Exit(o) => Exit(o)
             case Done(_, _, gas4) => Done(w, st3, gas4))
    case Loop(_, _) =>
      (match Spend(st, gas)
       case Exit(o) => Exit(o)
       case Done(_, _, gas1) => EvalLoop(m, world, n, st, gas1))
    case ReturnNode(None) => Exit(Returning(Nil, st))
    case ReturnNode(Some(value)) =>
      (match Eval(m, world, value, st, gas)
       case Exit(o) => Exit(o)
       case Done(v, st1, _) => Exit(Returning(v, st1)))
    case Sequence(nodes) => EvalBody(m, world, nodes, st, gas, Nil)
    case NopNode => Done(Nil, st, gas)
  }

  /** The loop, from the test on. Its value is nil. */
  function EvalLoop(m: Mode, world: World, n: Node, st: State, gas: nat): (r: Result)
    requires n.Loop?
    ensures r.Done? ==> r.gas <= gas
    decreases gas, n, 0
  {
    match Eval(m, world, n.cond, st, gas)
    case Exit(o) => Exit(o)
    case Done(v, st1, gas1) =>
      match Spend(st1, gas1)
      case Exit(o) => Exit(o)
      case Done(_, _, gas2) =>
        if !v.IsTruthy() then Done(Nil, st1, gas2)
        else match EvalBody(m, world, n.body, st1, gas2, Nil)
          case Exit(o) => Exit(o)
          case Done(_, st3, gas3) =>
            match Spend(st3, gas3)
            case Exit(o) => Exit(o)
            case Done(_, _, gas4) => EvalLoop(m, world, n, st3, gas4)
  }

  /** Statements in order; the value is the last one's, or last if there is none. */
  function EvalBody(m: Mode, world: World, ns: seq<Node>, st: State, gas: nat, last: Value): (r: Result)
    ensures r.Done? ==> r.gas <= gas
    decreases gas, ns, 0
  {
    if ns == [] then Done(last, st, gas)
    else match Eval(m, world, ns[0], st, gas)
      case Exit(o) => Exit(o)
      case Done(v, st1, gas1) => EvalBody(m, world, ns[1..], st1, gas1, v)
  }

  /** Arguments in order. */
  function EvalAll(m: Mode, world: World, ns: seq<Node>, st: State, gas: nat): (r: Results)
    ensures r.AllDone? ==> r.gas <= gas && |r.vs| == |ns|
    decreases gas, ns, 0
  {
    if ns == [] then AllDone([], st, gas)
    else match Eval(m, world, ns[0], st, gas)
      case Exit(o) => AnyExit(o)
      case Done(v, st1, gas1) =>
        match EvalAll(m, world, ns[1..], st1, gas1)
        case AnyExit(o) => AnyExit(o)
        case AllDone(vs, st2, gas2) => AllDone([v] + vs, st2, gas2)
  }

  function BindNames(st: State, params: seq<string>, args: seq<Value>, i: nat): State
    requires i <= |params|
  {
    if i == 0 then st
    else WriteName(BindNames(st, params, args, i - 1), params[i - 1], if i - 1 < |args| then args[i - 1] else Nil)
  }

  /** Call a function given as a tree. */
  function EvalFunc(m: Mode, world: World, params: seq<string>, body: seq<Node>, args: seq<Value>,
                    globals: Globals, trace: seq<Event>, gas: nat): Outcome
  {
    if gas == 0 then OutOfGas(globals, trace)
    else match EvalBody(m, world, body, BindNames(State(map[], map[], globals, trace), params, args, |params|),
                        gas - 1, Nil)
      case Exit(o) => o
      case Done(v, st, _) => Returning(v, st)
  }

  // ---------------------------------------------------------------- both operands are evaluated

  /** The left operand alone settles the value. */
  predicate Settles(op: BinOp, v: Value) {
    if op == And then !v.IsTruthy() else v.IsTruthy()
  }

  /** What And and Or mean where the right operand is not evaluated if the left one settles the value. */
  function EvalShort(m: Mode, world: World, op: BinOp, left: Node, right: Node, st: State, gas: nat): Result {
    match Eval(m, world, left, st, gas)
    case Exit(o) => Exit(o)
    case Done(v, st1, gas1) => if Settles(op, v) then Done(v, st1, gas1) else Eval(m, world, right, st1, gas1)
  }

  // The interpreter gives the operand that settles the value, or else the other, except that of two strings it gives
  // nil.
  lemma ConnectivesExactly(m: Mode, op: BinOp, l: Value, r: Value)
    requires op == And || op == Or
    ensures !Faults(m, op, l, r)
    ensures (EvalBinary(op, l, r) == if Settles(op, l) then l else r) <==> !(l.Str? && r.Str?)
  {
  }

  // So evaluating both operands, as lowering does, makes no difference exactly if the right one is needed or has no
  // effect, and the two are not both strings.
  lemma ShortCircuitExactly(m: Mode, world: World, op: BinOp, left: Node, right: Node, st: State, gas: nat)
    requires op == And || op == Or
    ensures Eval(m, world, BinaryOp(op, left, right), st, gas) == EvalShort(m, world, op, left, right, st, gas)
            <==> match Eval(m, world, left, st, gas)
                 case Exit(_) => true
                 case Done(v, st1, gas1) =>
                   match Eval(m, world, right, st1, gas1)
                   case Exit(_) => !Settles(op, v)
                   case Done(w, st2, gas2) =>
                     !(v.Str? && w.Str?) && (Settles(op, v) ==> st2 == st1 && gas2 == gas1)
  {
    hide AskTree, TellSelf, EvalBinary, Faults;
    var l := Eval(m, world, left, st, gas);
    if l.Done? {
      var r := Eval(m, world, right, l.st, l.gas);
      if r.Done? {
        ConnectivesExactly(m, op, l.v, r.v);
      }
    }
  }

  /** Evaluating the tree changes nothing. */
  predicate NoEffect(m: Mode, world: World, n: Node, st: State, gas: nat) {
    var r := Eval(m, world, n, st, gas); r.Done? && r.st == st && r.gas == gas
  }

  /** Constants, names, and connectives of these. */
  predicate IsStill(n: Node) {
    match n
    case Literal(_) => true
    case VarRef(_) => true
    case UnaryOp(op, x) => op == Not && IsStill(x)
    case BinaryOp(op, l, r) => op in {And, Or, Lt, Gt, LtEq, GtEq} && IsStill(l) && IsStill(r)
    case _ => false
  }

  lemma {:induction false} StillHasNoEffect(m: Mode, world: World, n: Node, st: State, gas: nat)
    requires IsStill(n)
    ensures NoEffect(m, world, n, st, gas)
  {
    match n
    case UnaryOp(_, x) => StillHasNoEffect(m, world, x, st, gas);
    case BinaryOp(_, l, r) =>
      StillHasNoEffect(m, world, l, st, gas);
      StillHasNoEffect(m, world, r, st, gas);
    case _ =>
  }
}
