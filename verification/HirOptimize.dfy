/**
  The tree optimizer: constants are folded and branches on constants removed, from the leaves up.

  Removing a branch saves gas, so the optimized tree is compared with the original at equal or greater
  gas in one direction, and at some sufficient gas in the other.
 */
module HirOptimize {
  import opened Ints
  import opened Mir
  import opened Hir
  import opened Folding

  // ---------------------------------------------------------------- the passes

  function FoldBinary(overflowChecks: bool, l: Const, op: BinOp, r: Const): Fold {
    match (l, op, r)
    case (ConstInteger(a), Add, ConstInteger(b)) => Checked(overflowChecks, a + b)
    case (ConstInteger(a), Sub, ConstInteger(b)) => Checked(overflowChecks, a - b)
    case (ConstInteger(a), Mul, ConstInteger(b)) => Checked(overflowChecks, a * b)
    case (ConstInteger(a), Div, ConstInteger(b)) =>
      if b == 0 then Unfolded
      else if a == MIN_INT64 && b == -1 then Panics
      else Folded(ConstInteger(Wrap(Quotient(a, b))))
    case (ConstInteger(a), Mod, ConstInteger(b)) =>
      if b == 0 then Unfolded
      else if a == MIN_INT64 && b == -1 then Panics
      else Folded(ConstInteger(Wrap(Remainder(a, b))))
    case (ConstInteger(a), Eq, ConstInteger(b)) => Folded(ConstBool(a == b))
    case (ConstInteger(a), NotEq, ConstInteger(b)) => Folded(ConstBool(a != b))
    case (ConstInteger(a), Lt, ConstInteger(b)) => Folded(ConstBool(a < b))
    case (ConstInteger(a), Gt, ConstInteger(b)) => Folded(ConstBool(a > b))
    case (ConstString(a), Add, ConstString(b)) => Folded(ConstString(a + b))
    case (ConstBool(a), And, ConstBool(b)) => Folded(ConstBool(a && b))
    case (ConstBool(a), Or, ConstBool(b)) => Folded(ConstBool(a || b))
    case _ => Unfolded
  }

  /** Unlike the later folders, this one uses the host's checked arithmetic. */
  function Checked(overflowChecks: bool, i: int): Fold {
    if overflowChecks && !InRange(i) then Panics else Folded(ConstInteger(Wrap(i)))
  }

  lemma FoldIntegersAgrees(m: Mode, a: Int64, op: BinOp, b: Int64)
    ensures match FoldBinary(m.overflowChecks, ConstInteger(a), op, ConstInteger(b))
            case Folded(c) => !Faults(m, op, Integer(a), Integer(b)) && EvalIntegers(op, a, b) == ValueOf(c)
            case Panics => Faults(m, op, Integer(a), Integer(b))
            case Unfolded => true
  {
    hide Quotient, Remainder, Wrap, Power, ShiftLeft, ShiftRight, AsU32;
  }

  // A folded operation does not fault and gives the constant; one that stops the compiler faults.
  lemma FoldBinaryAgrees(m: Mode, l: Const, op: BinOp, r: Const)
    ensures match FoldBinary(m.overflowChecks, l, op, r)
            case Folded(c) =>
              !Faults(m, op, ValueOf(l), ValueOf(r)) && EvalBinary(op, ValueOf(l), ValueOf(r)) == ValueOf(c)
            case Panics => Faults(m, op, ValueOf(l), ValueOf(r))
            case Unfolded => true
  {
    hide EvalIntegers, DivisionOverflows, Overflows, Quotient, Remainder, Wrap;
    if l.ConstInteger? && r.ConstInteger? {
      FoldIntegersAgrees(m, l.i, op, r.i);
    }
  }

  predicate IsNot(n: Node) {
    n.UnaryOp? && n.uop == Not
  }

  function ConstantFold(overflowChecks: bool, n: Node): Node {
    match n
    case BinaryOp(op, Literal(l), Literal(r)) =>
      (match FoldBinary(overflowChecks, l, op, r)
       case Folded(c) => Literal(c)
       case _ => n)
    case UnaryOp(Not, UnaryOp(Not, x)) => x
    case _ => n
  }

  function DeadBranchElimination(n: Node): Node {
    match n
    case If(Literal(c), thenBody, elseBody) =>
      (match c
       case ConstBool(false) => Sequence(elseBody)
       case ConstNil => Sequence(elseBody)
       case _ => Sequence(thenBody))
    case _ => n
  }

  function Simplified(overflowChecks: bool, n: Node): Node {
    DeadBranchElimination(ConstantFold(overflowChecks, n))
  }

  /** The value of a return is not visited. */
  function OptimizeNode(overflowChecks: bool, n: Node): Node {
    match n
    case BinaryOp(op, l, r) =>
      Simplified(overflowChecks, BinaryOp(op, OptimizeNode(overflowChecks, l), OptimizeNode(overflowChecks, r)))
    case UnaryOp(op, x) => Simplified(overflowChecks, UnaryOp(op, OptimizeNode(overflowChecks, x)))
    case CallNode(name, args) => CallNode(name, OptimizeAll(overflowChecks, args))
    case BlockCall(_, args, _, _, _, _) => n.(args := OptimizeAll(overflowChecks, args))
    case Assign(name, value) => Assign(name, OptimizeNode(overflowChecks, value))
    case If(c, t, e) =>
      Simplified(overflowChecks,
                 If(OptimizeNode(overflowChecks, c), OptimizeAll(overflowChecks, t), OptimizeAll(overflowChecks, e)))
    case Loop(c, body) => Loop(OptimizeNode(overflowChecks, c), OptimizeAll(overflowChecks, body))
    case Sequence(ns) => Sequence(OptimizeAll(overflowChecks, ns))
    case _ => n
  }

  function OptimizeAll(overflowChecks: bool, ns: seq<Node>): (out: seq<Node>)
    ensures |out| == |ns| && forall k :: 0 <= k < |ns| ==> out[k] == OptimizeNode(overflowChecks, ns[k])
  {
    if ns == [] then [] else [OptimizeNode(overflowChecks, ns[0])] + OptimizeAll(overflowChecks, ns[1..])
  }

  // ---------------------------------------------------------------- idempotence

  /** Nothing left to do here or below; the value of a return does not count. */
  predicate Settled(overflowChecks: bool, n: Node) {
    && Simplified(overflowChecks, n) == n
    && match n
       case BinaryOp(_, l, r) => Settled(overflowChecks, l) && Settled(overflowChecks, r)
       case UnaryOp(_, x) => Settled(overflowChecks, x)
       case CallNode(_, args) => forall a | a in args :: Settled(overflowChecks, a)
       case BlockCall(_, args, _, _, _, _) => forall a | a in args :: Settled(overflowChecks, a)
       case Assign(_, value) => Settled(overflowChecks, value)
       case If(c, t, e) =>
         && Settled(overflowChecks, c)
         && (forall a | a in t :: Settled(overflowChecks, a)) && (forall a | a in e :: Settled(overflowChecks, a))
       case Loop(c, body) => Settled(overflowChecks, c) && forall a | a in body :: Settled(overflowChecks, a)
       case Sequence(ns) => forall a | a in ns :: Settled(overflowChecks, a)
       case _ => true
  }

  lemma SimplifiedIsSettled(checks: bool, n: Node)
    requires n.BinaryOp? ==> Settled(checks, n.left) && Settled(checks, n.right)
    requires n.UnaryOp? ==> Settled(checks, n.operand)
    requires n.If? ==> Settled(checks, n.cond) && forall a | a in n.thenBody + n.elseBody :: Settled(checks, a)
    requires n.BinaryOp? || n.UnaryOp? || n.If?
    ensures Settled(checks, Simplified(checks, n))
  {
    hide FoldBinary;
    if n.If? {
      assert forall a :: a in n.thenBody + n.elseBody <==> a in n.thenBody || a in n.elseBody;
    }
  }

  lemma {:induction false} OptimizedIsSettled(checks: bool, n: Node)
    ensures Settled(checks, OptimizeNode(checks, n))
  {
    hide FoldBinary, OptimizeAll;
    match n
    case BinaryOp(op, l, r) =>
      OptimizedIsSettled(checks, l);
      OptimizedIsSettled(checks, r);
      SimplifiedIsSettled(checks, BinaryOp(op, OptimizeNode(checks, l), OptimizeNode(checks, r)));
    case UnaryOp(op, x) =>
      OptimizedIsSettled(checks, x);
      SimplifiedIsSettled(checks, UnaryOp(op, OptimizeNode(checks, x)));
    case CallNode(_, args) => AllSettled(checks, args);
    case BlockCall(_, args, _, _, _, _) => AllSettled(checks, args);
    case Assign(_, value) => OptimizedIsSettled(checks, value);
    case If(c, t, e) =>
      OptimizedIsSettled(checks, c);
      AllSettled(checks, t);
      AllSettled(checks, e);
      SimplifiedIsSettled(checks, If(OptimizeNode(checks, c), OptimizeAll(checks, t), OptimizeAll(checks, e)));
    case Loop(c, body) =>
      OptimizedIsSettled(checks, c);
      AllSettled(checks, body);
    case Sequence(ns) => AllSettled(checks, ns);
    case _ =>
  }

  lemma {:induction false} AllSettled(checks: bool, ns: seq<Node>)
    ensures forall a | a in OptimizeAll(checks, ns) :: Settled(checks, a)
  {
    forall k | 0 <= k < |ns|
      ensures Settled(checks, OptimizeAll(checks, ns)[k])
    {
      OptimizedIsSettled(checks, ns[k]);
    }
  }

  lemma {:induction false} SettledStays(checks: bool, n: Node)
    requires Settled(checks, n)
    ensures OptimizeNode(checks, n) == n
  {
    match n
    case BinaryOp(_, l, r) =>
      SettledStays(checks, l);
      SettledStays(checks, r);
    case UnaryOp(_, x) => SettledStays(checks, x);
    case CallNode(_, args) => AllStay(checks, args);
    case BlockCall(_, args, _, _, _, _) => AllStay(checks, args);
    case Assign(_, value) => SettledStays(checks, value);
    case If(c, t, e) =>
      SettledStays(checks, c);
      AllStay(checks, t);
      AllStay(checks, e);
    case Loop(c, body) =>
      SettledStays(checks, c);
      AllStay(checks, body);
    case Sequence(ns) => AllStay(checks, ns);
    case _ =>
  }

  lemma {:induction false} AllStay(checks: bool, ns: seq<Node>)
    requires forall a | a in ns :: Settled(checks, a)
    ensures OptimizeAll(checks, ns) == ns
  {
    forall k | 0 <= k < |ns|
      ensures OptimizeAll(checks, ns)[k] == ns[k]
    {
      SettledStays(checks, ns[k]);
    }
  }

  // A second run of the optimizer changes nothing, whatever the tree.
  lemma OptimizingIsIdempotent(checks: bool, n: Node)
    ensures OptimizeNode(checks, OptimizeNode(checks, n)) == OptimizeNode(checks, n)
  {
    OptimizedIsSettled(checks, n);
    SettledStays(checks, OptimizeNode(checks, n));
  }

  // The trees that the optimizer leaves alone are exactly the settled ones.
  lemma UnchangedExactly(checks: bool, n: Node)
    ensures OptimizeNode(checks, n) == n <==> Settled(checks, n)
  {
    OptimizedIsSettled(checks, n);
    if Settled(checks, n) {
      SettledStays(checks, n);
    }
  }

  /** The operations on literals that the tree optimizer evaluates. */
  predicate LiteralsFold(overflowChecks: bool, l: Const, op: BinOp, r: Const) {
    match (l, r)
    case (ConstInteger(a), ConstInteger(b)) =>
      (match op
       case Add => overflowChecks ==> InRange(a + b)
       case Sub => overflowChecks ==> InRange(a - b)
       case Mul => overflowChecks ==> InRange(a * b)
       case Div => b != 0 && !(a == MIN_INT64 && b == -1)
       case Mod => b != 0 && !(a == MIN_INT64 && b == -1)
       case _ => op == Eq || op == NotEq || op == Lt || op == Gt)
    case (ConstString(_), ConstString(_)) => op == Add
    case (ConstBool(_), ConstBool(_)) => op == And || op == Or
    case _ => false
  }

  lemma FoldsLiteralsExactly(overflowChecks: bool, l: Const, op: BinOp, r: Const)
    ensures FoldBinary(overflowChecks, l, op, r).Folded? <==> LiteralsFold(overflowChecks, l, op, r)
  {
    hide Quotient, Remainder, Wrap;
  }

  /** No foldable operation on literals, no negation of a negation, no conditional on a literal, here or below. */
  predicate Clean(overflowChecks: bool, n: Node) {
    match n
    case BinaryOp(op, l, r) =>
      && !(l.Literal? && r.Literal? && LiteralsFold(overflowChecks, l.c, op, r.c))
      && Clean(overflowChecks, l) && Clean(overflowChecks, r)
    case UnaryOp(op, x) => !(op == Not && x.UnaryOp? && x.uop == Not) && Clean(overflowChecks, x)
    case CallNode(_, args) => forall a | a in args :: Clean(overflowChecks, a)
    case BlockCall(_, args, _, _, _, _) => forall a | a in args :: Clean(overflowChecks, a)
    case Assign(_, value) => Clean(overflowChecks, value)
    case If(c, t, e) =>
      && !c.Literal? && Clean(overflowChecks, c)
      && (forall a | a in t :: Clean(overflowChecks, a)) && (forall a | a in e :: Clean(overflowChecks, a))
    case Loop(c, body) => Clean(overflowChecks, c) && forall a | a in body :: Clean(overflowChecks, a)
    case Sequence(ns) => forall a | a in ns :: Clean(overflowChecks, a)
    case _ => true
  }

  lemma SimplifiesExactly(checks: bool, n: Node)
    ensures Simplified(checks, n) != n
            <==> match n
                 case BinaryOp(op, Literal(l), Literal(r)) => LiteralsFold(checks, l, op, r)
                 case UnaryOp(Not, UnaryOp(Not, _)) => true
                 case If(Literal(_), _, _) => true
                 case _ => false
  {
    hide FoldBinary, LiteralsFold;
    if n.BinaryOp? && n.left.Literal? && n.right.Literal? {
      FoldsLiteralsExactly(checks, n.left.c, n.op, n.right.c);
    }
    if IsNot(n) && IsNot(n.operand) {
      assert n.operand.operand < n.operand < n;
    }
  }

  lemma {:induction false} CleanIsSettled(checks: bool, n: Node)
    ensures Clean(checks, n) <==> Settled(checks, n)
  {
    hide Simplified, LiteralsFold;
    SimplifiesExactly(checks, n);
    match n
    case BinaryOp(_, l, r) =>
      CleanIsSettled(checks, l);
      CleanIsSettled(checks, r);
    case UnaryOp(_, x) => CleanIsSettled(checks, x);
    case CallNode(_, args) => AllCleanIsSettled(checks, args);
    case BlockCall(_, args, _, _, _, _) => AllCleanIsSettled(checks, args);
    case Assign(_, value) => CleanIsSettled(checks, value);
    case If(c, t, e) =>
      CleanIsSettled(checks, c);
      AllCleanIsSettled(checks, t);
      AllCleanIsSettled(checks, e);
    case Loop(c, body) =>
      CleanIsSettled(checks, c);
      AllCleanIsSettled(checks, body);
    case Sequence(ns) => AllCleanIsSettled(checks, ns);
    case _ =>
  }

  lemma {:induction false} AllCleanIsSettled(checks: bool, ns: seq<Node>)
    ensures forall n | n in ns :: Clean(checks, n) <==> Settled(checks, n)
  {
    forall n | n in ns
      ensures Clean(checks, n) <==> Settled(checks, n)
    {
      CleanIsSettled(checks, n);
    }
  }

  // What the optimizer returns is clean, and it leaves exactly the clean trees alone.
  lemma OptimizedIsClean(checks: bool, n: Node)
    ensures Clean(checks, OptimizeNode(checks, n))
    ensures OptimizeNode(checks, n) == n <==> Clean(checks, n)
  {
    CleanIsSettled(checks, n);
    CleanIsSettled(checks, OptimizeNode(checks, n));
    OptimizedIsSettled(checks, n);
    UnchangedExactly(checks, n);
  }

  // ---------------------------------------------------------------- more gas

  predicate RanOut(r: Result) {
    r.Exit? && r.outcome.OutOfGas?
  }

  predicate AnyRanOut(r: Results) {
    r.AnyExit? && r.outcome.OutOfGas?
  }

  function Later(r: Result, k: nat): Result {
    match r
    case Done(v, st, gas) => Done(v, st, gas + k)
    case Exit(o) => Exit(o)
  }

  function AllLater(r: Results, k: nat): Results {
    match r
    case AllDone(vs, st, gas) => AllDone(vs, st, gas + k)
    case AnyExit(o) => AnyExit(o)
  }

  // An evaluation that does not run out of gas does the same with more, and leaves the rest over.
  lemma {:induction false} MoreGas(m: Mode, world: World, n: Node, st: State, gas: nat, k: nat)
    ensures var r := Eval(m, world, n, st, gas); RanOut(r) || Eval(m, world, n, st, gas + k) == Later(r, k)
    decreases gas, n, 1
  {
    hide EvalBinary, EvalUnary, Faults, FaultsUnary, ReadName, WriteName, AskTree, TellSelf;
    match n
    case BinaryOp(_, left, right) =>
      MoreGas(m, world, left, st, gas, k);
      var l := Eval(m, world, left, st, gas);
      if l.Done? {
        MoreGas(m, world, right, l.st, l.gas, k);
      }
    case UnaryOp(_, x) => MoreGas(m, world, x, st, gas, k);
    case CallNode(_, _) => MoreGasCall(m, world, n, st, gas, k);
    case BlockCall(_, _, _, _, _, _) => MoreGasCall(m, world, n, st, gas, k);
    case Assign(_, value) => MoreGas(m, world, value, st, gas, k);
    case If(_, _, _) => MoreGasIf(m, world, n, st, gas, k);
    case Loop(_, _) =>
      if gas > 0 {
        MoreGasLoop(m, world, n, st, gas - 1, k);
      }
    case ReturnNode(Some(value)) => MoreGas(m, world, value, st, gas, k);
    case Sequence(ns) => MoreGasBody(m, world, ns, st, gas, Nil, k);
    case _ =>
  }

  lemma {:induction false} MoreGasIf(m: Mode, world: World, n: Node, st: State, gas: nat, k: nat)
    requires n.If?
    ensures var r := Eval(m, world, n, st, gas); RanOut(r) || Eval(m, world, n, st, gas + k) == Later(r, k)
    decreases gas, n, 0
  {
    hide Eval, EvalBody;
    MoreGas(m, world, n.cond, st, gas, k);
    var r := Eval(m, world, n.cond, st, gas);
    if r.Done? && r.gas > 0 {
      MoreGasBody(m, world, if r.v.IsTruthy() then n.thenBody else n.elseBody, r.st, r.gas - 1, Nil, k);
    }
    IfEvaluates(m, world, n, st, gas);
    IfEvaluates(m, world, n, st, gas + k);
  }

  /** The arm of a conditional, entered and left by a change of block. */
  function Arm(m: Mode, world: World, ns: seq<Node>, st: State, gas: nat): Result {
    if gas == 0 then Exit(OutOfGas(st.globals, st.trace))
    else match EvalBody(m, world, ns, st, gas - 1, Nil)
      case Exit(o) => Exit(o)
      case Done(v, st1, left) => if left == 0 then Exit(OutOfGas(st1.globals, st1.trace)) else Done(v, st1, left - 1)
  }

  lemma IfEvaluates(m: Mode, world: World, n: Node, st: State, gas: nat)
    requires n.If?
    ensures Eval(m, world, n, st, gas)
            == match Eval(m, world, n.cond, st, gas)
               case Exit(o) => Exit(o)
               case Done(v, st1, left) => Arm(m, world, if v.IsTruthy() then n.thenBody else n.elseBody, st1, left)
  {
    hide EvalBinary, EvalUnary, Faults, FaultsUnary, ReadName, WriteName, AskTree, TellSelf;
  }

  lemma {:induction false} MoreGasLoop(m: Mode, world: World, n: Node, st: State, gas: nat, k: nat)
    requires n.Loop?
    ensures var r := EvalLoop(m, world, n, st, gas); RanOut(r) || EvalLoop(m, world, n, st, gas + k) == Later(r, k)
    decreases gas, n, 0
  {
    hide Eval, EvalBody;
    MoreGas(m, world, n.cond, st, gas, k);
    var c := Eval(m, world, n.cond, st, gas);
    if c.Done? && c.gas > 0 && c.v.IsTruthy() {
      MoreGasBody(m, world, n.body, c.st, c.gas - 1, Nil, k);
      var r := EvalBody(m, world, n.body, c.st, c.gas - 1, Nil);
      if r.Done? && r.gas > 0 {
        MoreGasLoop(m, world, n, r.st, r.gas - 1, k);
      }
    }
  }

  lemma {:induction false} MoreGasBody(m: Mode, world: World, ns: seq<Node>, st: State, gas: nat, last: Value, k: nat)
    ensures var r := EvalBody(m, world, ns, st, gas, last);
            RanOut(r) || EvalBody(m, world, ns, st, gas + k, last) == Later(r, k)
    decreases gas, ns, 0
  {
    hide Eval;
    if ns != [] {
      MoreGas(m, world, ns[0], st, gas, k);
      var r := Eval(m, world, ns[0], st, gas);
      if r.Done? {
        MoreGasBody(m, world, ns[1..], r.st, r.gas, r.v, k);
      }
    }
  }

  lemma {:induction false} MoreGasCall(m: Mode, world: World, n: Node, st: State, gas: nat, k: nat)
    requires n.CallNode? || n.BlockCall?
    ensures var r := Eval(m, world, n, st, gas); RanOut(r) || Eval(m, world, n, st, gas + k) == Later(r, k)
    decreases gas, n, 0
  {
    hide AskTree, TellSelf, EvalAll;
    MoreGasAll(m, world, n.args, st, gas, k);
  }

  lemma {:induction false} MoreGasAll(m: Mode, world: World, ns: seq<Node>, st: State, gas: nat, k: nat)
    ensures var r := EvalAll(m, world, ns, st, gas);
            AnyRanOut(r) || EvalAll(m, world, ns, st, gas + k) == AllLater(r, k)
    decreases gas, ns, 0
  {
    hide Eval;
    if ns != [] {
      MoreGas(m, world, ns[0], st, gas, k);
      var r := Eval(m, world, ns[0], st, gas);
      if r.Done? {
        MoreGasAll(m, world, ns[1..], r.st, r.gas, k);
      }
    }
  }

  // ---------------------------------------------------------------- where a double negation may go

  /** Below all the negations. */
  function Core(n: Node): (c: Node)
    ensures !IsNot(c)
  {
    if IsNot(n) then Core(n.operand) else n
  }

  function Negations(n: Node): nat {
    if IsNot(n) then Negations(n.operand) + 1 else 0
  }

  /** Trees whose value is always a boolean. */
  predicate BooleanValued(n: Node) {
    (n.BinaryOp? && (n.op == Eq || n.op == NotEq)) || (n.Literal? && n.c.ConstBool?)
  }

  /**
    Where the value itself is wanted, an even number of negations, which will all go, stands only
    before a boolean. Where only its truth is wanted, nothing is required.
   */
  predicate Fit(n: Node, valued: bool) {
    match n
    case BinaryOp(_, l, r) => Fit(l, true) && Fit(r, true)
    case UnaryOp(Not, x) =>
      && (valued && Negations(n) % 2 == 0 ==> BooleanValued(Core(n)))
      && Fit(x, false)
    case UnaryOp(_, x) => Fit(x, true)
    case CallNode(_, args) => forall a | a in args :: Fit(a, true)
    case BlockCall(_, args, _, _, _, _) => forall a | a in args :: Fit(a, true)
    case Assign(_, value) => Fit(value, true)
    case If(c, t, e) => Fit(c, false) && FitBody(t, valued) && FitBody(e, valued)
    case Loop(c, body) => Fit(c, false) && FitBody(body, false)
    case Sequence(ns) => FitBody(ns, valued)
    case _ => true
  }

  /** Only the last statement is asked for a value. */
  predicate FitBody(ns: seq<Node>, valued: bool) {
    ns == [] || (Fit(ns[0], valued && |ns| == 1) && FitBody(ns[1..], valued))
  }

  // No negation directly under a negation is a special case.
  predicate NoDoubleNegation(n: Node) {
    && !(IsNot(n) && IsNot(n.operand))
    && match n
       case BinaryOp(_, l, r) => NoDoubleNegation(l) && NoDoubleNegation(r)
       case UnaryOp(_, x) => NoDoubleNegation(x)
       case CallNode(_, args) => forall a | a in args :: NoDoubleNegation(a)
       case BlockCall(_, args, _, _, _, _) => forall a | a in args :: NoDoubleNegation(a)
       case Assign(_, value) => NoDoubleNegation(value)
       case If(c, t, e) =>
         && NoDoubleNegation(c)
         && (forall a | a in t :: NoDoubleNegation(a)) && (forall a | a in e :: NoDoubleNegation(a))
       case Loop(c, body) => NoDoubleNegation(c) && forall a | a in body :: NoDoubleNegation(a)
       case Sequence(ns) => forall a | a in ns :: NoDoubleNegation(a)
       case _ => true
  }

  lemma {:induction false} NoDoubleNegationFits(n: Node, valued: bool)
    requires NoDoubleNegation(n)
    ensures Fit(n, valued)
  {
    match n
    case BinaryOp(_, l, r) =>
      NoDoubleNegationFits(l, true);
      NoDoubleNegationFits(r, true);
    case UnaryOp(op, x) =>
      assert op == Not ==> Negations(n) == 1;
      NoDoubleNegationFits(x, op != Not);
    case CallNode(_, args) =>
      forall a | a in args ensures Fit(a, true) {
        NoDoubleNegationFits(a, true);
      }
    case BlockCall(_, args, _, _, _, _) =>
      forall a | a in args ensures Fit(a, true) {
        NoDoubleNegationFits(a, true);
      }
    case Assign(_, value) => NoDoubleNegationFits(value, true);
    case If(c, t, e) =>
      NoDoubleNegationFits(c, false);
      NoDoubleNegationFitsBody(t, valued);
      NoDoubleNegationFitsBody(e, valued);
    case Loop(c, body) =>
      NoDoubleNegationFits(c, false);
      NoDoubleNegationFitsBody(body, false);
    case Sequence(ns) => NoDoubleNegationFitsBody(ns, valued);
    case _ =>
  }

  lemma {:induction false} NoDoubleNegationFitsBody(ns: seq<Node>, valued: bool)
    requires forall a | a in ns :: NoDoubleNegation(a)
    ensures FitBody(ns, valued)
  {
    if ns != [] {
      NoDoubleNegationFits(ns[0], valued && |ns| == 1);
      NoDoubleNegationFitsBody(ns[1..], valued);
    }
  }

  // Two negations give back the value exactly if it is a boolean, and its truth always.
  lemma DoubleNegationExactly(v: Value)
    ensures EvalUnary(Not, EvalUnary(Not, v)) == v <==> v.Bool?
    ensures EvalUnary(Not, EvalUnary(Not, v)).IsTruthy() <==> v.IsTruthy()
  {
  }

  // ---------------------------------------------------------------- preservation

  predicate Agrees(valued: bool, v: Value, w: Value) {
    if valued then v == w else v.IsTruthy() == w.IsTruthy()
  }

  /** Unless the first ran out of gas: the same end, or the same state with at least as much gas left. */
  predicate Matches(valued: bool, r: Result, r': Result) {
    match r
    case Done(v, st, gas) => r'.Done? && r'.st == st && gas <= r'.gas && Agrees(valued, v, r'.v)
    case Exit(o) => o.OutOfGas? || r' == r
  }

  predicate AllMatch(r: Results, r': Results) {
    match r
    case AllDone(vs, st, gas) => r'.AllDone? && r'.st == st && gas <= r'.gas && r'.vs == vs
    case AnyExit(o) => o.OutOfGas? || r' == r
  }

  // ---------------------------------------------------------------- what happens to a node once its parts are done

  lemma FoldingKeepsEval(m: Mode, world: World, op: BinOp, l: Node, r: Node, st: State, gas: nat)
    ensures Eval(m, world, Simplified(m.overflowChecks, BinaryOp(op, l, r)), st, gas)
            == Eval(m, world, BinaryOp(op, l, r), st, gas)
  {
    if l.Literal? && r.Literal? {
      FoldBinaryAgrees(m, l.c, op, r.c);
    }
  }

  lemma {:induction false} NegationsCollapse(checks: bool, n: Node)
    ensures !IsNot(OptimizeNode(checks, Core(n)))
    ensures OptimizeNode(checks, n)
            == if Negations(n) % 2 == 0 then OptimizeNode(checks, Core(n))
               else UnaryOp(Not, OptimizeNode(checks, Core(n)))
  {
    if IsNot(n) {
      NegationsCollapse(checks, n.operand);
    }
  }

  lemma BooleanValuedIsBoolean(m: Mode, world: World, n: Node, st: State, gas: nat)
    requires BooleanValued(n)
    ensures BooleanValued(OptimizeNode(m.overflowChecks, n))
    ensures Eval(m, world, n, st, gas).Done? ==> Eval(m, world, n, st, gas).v.Bool?
  {
  }

  lemma NegationMatches(m: Mode, world: World, n: Node, valued: bool, st: State, gas: nat, k: nat)
    requires IsNot(n) && Fit(n, valued)
    requires Matches(false, Eval(m, world, n.operand, st, gas),
                     Eval(m, world, OptimizeNode(m.overflowChecks, n.operand), st, gas + k))
    ensures Matches(valued, Eval(m, world, n, st, gas), Eval(m, world, OptimizeNode(m.overflowChecks, n), st, gas + k))
  {
    hide OptimizeNode, EvalBinary, Faults, ReadName, WriteName, AskTree, TellSelf;
    NegationsCollapse(m.overflowChecks, n);
    NegationsCollapse(m.overflowChecks, n.operand);
    if valued && Negations(n) % 2 == 0 {
      BooleanValuedIsBoolean(m, world, Core(n), st, gas + k);
      BooleanValuedIsBoolean(m, world, OptimizeNode(m.overflowChecks, Core(n)), st, gas + k);
    }
  }

  // ---------------------------------------------------------------- the optimized tree does what the tree did

  lemma {:induction false} Simulates(m: Mode, world: World, n: Node, valued: bool, st: State, gas: nat, k: nat)
    requires Fit(n, valued)
    ensures Matches(valued, Eval(m, world, n, st, gas), Eval(m, world, OptimizeNode(m.overflowChecks, n), st, gas + k))
    decreases gas, n, 1
  {
    hide EvalBinary, ReadName, WriteName, AskTree, TellSelf, FoldBinary, Core, Negations;
    match n
    case BinaryOp(op, left, right) =>
      BinarySimulates(m, world, n, st, gas, k);
    case UnaryOp(_, _) => UnarySimulates(m, world, n, valued, st, gas, k);
    case CallNode(_, _) => CallSimulates(m, world, n, st, gas, k);
    case BlockCall(_, _, _, _, _, _) => CallSimulates(m, world, n, st, gas, k);
    case Assign(_, value) => Simulates(m, world, value, true, st, gas, k);
    case If(_, _, _) => IfSimulates(m, world, n, valued, st, gas, k);
    case Loop(_, _) =>
      if gas > 0 {
        SimulatesLoop(m, world, n, st, gas - 1, k);
      }
    case ReturnNode(Some(value)) => MoreGas(m, world, n, st, gas, k);
    case Sequence(ns) => SimulatesBody(m, world, ns, valued, st, gas, Nil, Nil, k);
    case _ =>
  }

  lemma {:induction false} CallSimulates(m: Mode, world: World, n: Node, st: State, gas: nat, k: nat)
    requires (n.CallNode? || n.BlockCall?) && Fit(n, true)
    ensures Matches(true, Eval(m, world, n, st, gas), Eval(m, world, OptimizeNode(m.overflowChecks, n), st, gas + k))
    decreases gas, n, 0
  {
    hide AskTree, TellSelf, EvalAll, OptimizeAll;
    SimulatesAll(m, world, n.args, st, gas, k);
  }

  lemma {:induction false} UnarySimulates(m: Mode, world: World, n: Node, valued: bool, st: State, gas: nat, k: nat)
    requires n.UnaryOp? && Fit(n, valued)
    ensures Matches(valued, Eval(m, world, n, st, gas), Eval(m, world, OptimizeNode(m.overflowChecks, n), st, gas + k))
    decreases gas, n, 0
  {
    Simulates(m, world, n.operand, n.uop != Not, st, gas, k);
    if n.uop == Not {
      NegationMatches(m, world, n, valued, st, gas, k);
    }
  }

  lemma {:induction false} BinarySimulates(m: Mode, world: World, n: Node, st: State, gas: nat, k: nat)
    requires n.BinaryOp? && Fit(n, true)
    ensures Matches(true, Eval(m, world, n, st, gas), Eval(m, world, OptimizeNode(m.overflowChecks, n), st, gas + k))
    decreases gas, n, 0
  {
    hide EvalBinary, Faults, ReadName, WriteName, AskTree, TellSelf, Simplified;
    var left', right' := OptimizeNode(m.overflowChecks, n.left), OptimizeNode(m.overflowChecks, n.right);
    FoldingKeepsEval(m, world, n.op, left', right', st, gas + k);
    Simulates(m, world, n.left, true, st, gas, k);
    var l := Eval(m, world, n.left, st, gas);
    if l.Done? {
      Simulates(m, world, n.right, true, l.st, l.gas, Eval(m, world, left', st, gas + k).gas - l.gas);
    }
  }

  lemma {:induction false} IfSimulates(m: Mode, world: World, n: Node, valued: bool, st: State, gas: nat, k: nat)
    requires n.If? && Fit(n, valued)
    ensures Matches(valued, Eval(m, world, n, st, gas), Eval(m, world, OptimizeNode(m.overflowChecks, n), st, gas + k))
    decreases gas, n, 0
  {
    hide OptimizeNode, OptimizeAll, Eval, EvalBody, Arm, FitBody;
    var cond' := OptimizeNode(m.overflowChecks, n.cond);
    Simulates(m, world, n.cond, false, st, gas, k);
    IfEvaluates(m, world, n, st, gas);
    OptimizedIf(m, world, n, st, gas + k);
    var c := Eval(m, world, n.cond, st, gas);
    if c.Done? {
      var c' := Eval(m, world, cond', st, gas + k);
      var body := if c.v.IsTruthy() then n.thenBody else n.elseBody;
      var left := if cond'.Literal? then c'.gas else c'.gas - 1;
      if c.gas > 0 {
        SimulatesBody(m, world, body, valued, c.st, c.gas - 1, Nil, Nil, left - (c.gas - 1));
      }
      ArmMatches(m, world, body, OptimizeAll(m.overflowChecks, body), valued, c.st, c.gas, left);
    }
  }

  lemma ArmMatches(m: Mode, world: World, body: seq<Node>, body': seq<Node>, valued: bool, st: State, gas: nat,
                   left: int)
    requires gas > 0 ==> left >= 0 && Matches(valued, EvalBody(m, world, body, st, gas - 1, Nil),
                                              EvalBody(m, world, body', st, left, Nil))
    ensures left >= 0 ==> Matches(valued, Arm(m, world, body, st, gas), EvalBody(m, world, body', st, left, Nil))
    ensures left >= -1 ==> Matches(valued, Arm(m, world, body, st, gas), Arm(m, world, body', st, left + 1))
  {
    hide EvalBody;
  }

  // The optimized conditional: its condition, then one arm, with no change of block if the condition is constant.
  lemma OptimizedIf(m: Mode, world: World, n: Node, st: State, gas: nat)
    requires n.If?
    ensures var cond' := OptimizeNode(m.overflowChecks, n.cond);
            Eval(m, world, OptimizeNode(m.overflowChecks, n), st, gas)
            == match Eval(m, world, cond', st, gas)
               case Exit(o) => Exit(o)
               case Done(v, st1, left) =>
                 var arm' := OptimizeAll(m.overflowChecks, if v.IsTruthy() then n.thenBody else n.elseBody);
                 if cond'.Literal? then EvalBody(m, world, arm', st1, left, Nil) else Arm(m, world, arm', st1, left)
  {
    hide EvalBinary, EvalUnary, Faults, FaultsUnary, ReadName, WriteName, AskTree, TellSelf, OptimizeAll, FoldBinary;
    var n0 := If(OptimizeNode(m.overflowChecks, n.cond), OptimizeAll(m.overflowChecks, n.thenBody),
                 OptimizeAll(m.overflowChecks, n.elseBody));
    IfEvaluates(m, world, n0, st, gas);
  }

  lemma {:induction false} SimulatesLoop(m: Mode, world: World, n: Node, st: State, gas: nat, k: nat)
    requires n.Loop? && Fit(n, false)
    ensures Matches(true, EvalLoop(m, world, n, st, gas),
                    EvalLoop(m, world, OptimizeNode(m.overflowChecks, n), st, gas + k))
    decreases gas, n, 0
  {
    hide Eval, EvalBody, FitBody;
    var n' := OptimizeNode(m.overflowChecks, n);
    Simulates(m, world, n.cond, false, st, gas, k);
    var c := Eval(m, world, n.cond, st, gas);
    if c.Done? && c.gas > 0 && c.v.IsTruthy() {
      var c' := Eval(m, world, n'.cond, st, gas + k);
      SimulatesBody(m, world, n.body, false, c.st, c.gas - 1, Nil, Nil, c'.gas - c.gas);
      var r := EvalBody(m, world, n.body, c.st, c.gas - 1, Nil);
      if r.Done? && r.gas > 0 {
        var r' := EvalBody(m, world, n'.body, c.st, c'.gas - 1, Nil);
        SimulatesLoop(m, world, n, r.st, r.gas - 1, r'.gas - r.gas);
      }
    }
  }

  lemma {:induction false} SimulatesBody(m: Mode, world: World, ns: seq<Node>, valued: bool, st: State, gas: nat,
                                         last: Value, last': Value, k: nat)
    requires FitBody(ns, valued) && (ns == [] ==> Agrees(valued, last, last'))
    ensures Matches(valued, EvalBody(m, world, ns, st, gas, last),
                    EvalBody(m, world, OptimizeAll(m.overflowChecks, ns), st, gas + k, last'))
    decreases gas, ns, 0
  {
    hide Eval, OptimizeNode, Fit;
    if ns != [] {
      Simulates(m, world, ns[0], valued && |ns| == 1, st, gas, k);
      var r := Eval(m, world, ns[0], st, gas);
      if r.Done? {
        var r' := Eval(m, world, OptimizeNode(m.overflowChecks, ns[0]), st, gas + k);
        SimulatesBody(m, world, ns[1..], valued, r.st, r.gas, r.v, r'.v, r'.gas - r.gas);
      }
    }
  }

  lemma {:induction false} SimulatesAll(m: Mode, world: World, ns: seq<Node>, st: State, gas: nat, k: nat)
    requires forall a | a in ns :: Fit(a, true)
    ensures AllMatch(EvalAll(m, world, ns, st, gas), EvalAll(m, world, OptimizeAll(m.overflowChecks, ns), st, gas + k))
    decreases gas, ns, 0
  {
    hide Eval, OptimizeNode, Fit;
    if ns != [] {
      Simulates(m, world, ns[0], true, st, gas, k);
      var r := Eval(m, world, ns[0], st, gas);
      if r.Done? {
        SimulatesAll(m, world, ns[1..], r.st, r.gas,
                     Eval(m, world, OptimizeNode(m.overflowChecks, ns[0]), st, gas + k).gas - r.gas);
      }
    }
  }

  // ---------------------------------------------------------------- and nothing else

  /** The same end, whatever the gas left over. */
  predicate Alike(valued: bool, r: Result, r': Result) {
    match r
    case Done(v, st, _) => r'.Done? && r'.st == st && Agrees(valued, v, r'.v)
    case Exit(o) => r' == r
  }

  lemma SameEnd(m: Mode, world: World, n: Node, valued: bool, st: State, gas: nat, gas': nat)
    requires Fit(n, valued) && !RanOut(Eval(m, world, n, st, gas))
    requires !RanOut(Eval(m, world, OptimizeNode(m.overflowChecks, n), st, gas'))
    ensures Alike(valued, Eval(m, world, n, st, gas), Eval(m, world, OptimizeNode(m.overflowChecks, n), st, gas'))
  {
    Simulates(m, world, n, valued, st, gas, gas');
    MoreGas(m, world, OptimizeNode(m.overflowChecks, n), st, gas', gas);
  }

  lemma SameEndBody(m: Mode, world: World, ns: seq<Node>, valued: bool, st: State, gas: nat, gas': nat, last: Value,
                    last': Value)
    requires FitBody(ns, valued) && (ns == [] ==> Agrees(valued, last, last'))
    requires !RanOut(EvalBody(m, world, ns, st, gas, last))
    requires !RanOut(EvalBody(m, world, OptimizeAll(m.overflowChecks, ns), st, gas', last'))
    ensures Alike(valued, EvalBody(m, world, ns, st, gas, last),
                  EvalBody(m, world, OptimizeAll(m.overflowChecks, ns), st, gas', last'))
  {
    SimulatesBody(m, world, ns, valued, st, gas, last, last', gas');
    MoreGasBody(m, world, OptimizeAll(m.overflowChecks, ns), st, gas', last', gas);
  }

  // If the optimized tree comes to an end, so does the tree, with enough gas.
  lemma {:induction false} Enough(m: Mode, world: World, n: Node, valued: bool, st: State, gas': nat) returns (gas: nat)
    requires Fit(n, valued) && !RanOut(Eval(m, world, OptimizeNode(m.overflowChecks, n), st, gas'))
    ensures !RanOut(Eval(m, world, n, st, gas))
    decreases gas', n, 1
  {
    gas := 0;
    match n
    case BinaryOp(_, _, _) => gas := EnoughBinary(m, world, n, st, gas');
    case UnaryOp(op, x) => gas := EnoughUnary(m, world, n, valued, st, gas');
    case CallNode(_, args) => gas := EnoughAll(m, world, args, st, gas');
    case BlockCall(_, args, _, _, _, _) => gas := EnoughAll(m, world, args, st, gas');
    case Assign(_, value) => gas := Enough(m, world, value, true, st, gas');
    case If(_, _, _) => gas := EnoughIf(m, world, n, valued, st, gas');
    case Loop(_, _) =>
      gas := EnoughLoop(m, world, n, st, gas' - 1);
      gas := gas + 1;
    case ReturnNode(Some(value)) => gas := gas';
    case Sequence(ns) => gas := EnoughBody(m, world, ns, valued, st, gas', Nil, Nil);
    case _ =>
  }

  lemma {:induction false} EnoughBinary(m: Mode, world: World, n: Node, st: State, gas': nat) returns (gas: nat)
    requires n.BinaryOp? && Fit(n, true) && !RanOut(Eval(m, world, OptimizeNode(m.overflowChecks, n), st, gas'))
    ensures !RanOut(Eval(m, world, n, st, gas))
    decreases gas', n, 0
  {
    var left', right' := OptimizeNode(m.overflowChecks, n.left), OptimizeNode(m.overflowChecks, n.right);
    FoldingKeepsEval(m, world, n.op, left', right', st, gas');
    gas := Enough(m, world, n.left, true, st, gas');
    SameEnd(m, world, n.left, true, st, gas, gas');
    var l, l' := Eval(m, world, n.left, st, gas), Eval(m, world, left', st, gas');
    if l.Done? {
      var more := Enough(m, world, n.right, true, l.st, l'.gas);
      MoreGas(m, world, n.left, st, gas, more);
      MoreGas(m, world, n.right, l.st, more, l.gas);
      gas := gas + more;
    }
  }

  lemma {:induction false} EnoughUnary(m: Mode, world: World, n: Node, valued: bool, st: State,
                                       gas': nat) returns (gas: nat)
    requires n.UnaryOp? && Fit(n, valued) && !RanOut(Eval(m, world, OptimizeNode(m.overflowChecks, n), st, gas'))
    ensures !RanOut(Eval(m, world, n, st, gas))
    decreases gas', n, 0
  {
    if n.uop == Not {
      NegationsCollapse(m.overflowChecks, n);
      NegationsCollapse(m.overflowChecks, n.operand);
    }
    gas := Enough(m, world, n.operand, n.uop != Not, st, gas');
  }

  lemma {:induction false} EnoughIf(m: Mode, world: World, n: Node, valued: bool, st: State,
                                    gas': nat) returns (gas: nat)
    requires n.If? && Fit(n, valued) && !RanOut(Eval(m, world, OptimizeNode(m.overflowChecks, n), st, gas'))
    ensures !RanOut(Eval(m, world, n, st, gas))
    decreases gas', n, 0
  {
    hide OptimizeNode, OptimizeAll, Eval, EvalBody;
    var cond' := OptimizeNode(m.overflowChecks, n.cond);
    OptimizedIf(m, world, n, st, gas');
    gas := Enough(m, world, n.cond, false, st, gas');
    SameEnd(m, world, n.cond, false, st, gas, gas');
    var c, c' := Eval(m, world, n.cond, st, gas), Eval(m, world, cond', st, gas');
    if c.Done? {
      var body := if c.v.IsTruthy() then n.thenBody else n.elseBody;
      var left := if cond'.Literal? then c'.gas else c'.gas - 1;
      var more := EnoughBody(m, world, body, valued, c.st, left, Nil, Nil);
      gas := IfEnds(m, world, n, st, gas, more);
    } else {
      IfStops(m, world, n, st, gas);
    }
  }

  lemma IfStops(m: Mode, world: World, n: Node, st: State, gas: nat)
    requires n.If? && Eval(m, world, n.cond, st, gas).Exit?
    ensures Eval(m, world, n, st, gas) == Eval(m, world, n.cond, st, gas)
  {
  }

  lemma IfEnds(m: Mode, world: World, n: Node, st: State, gas: nat, more: nat) returns (enough: nat)
    requires n.If? && Eval(m, world, n.cond, st, gas).Done?
    requires var c := Eval(m, world, n.cond, st, gas);
             !RanOut(EvalBody(m, world, if c.v.IsTruthy() then n.thenBody else n.elseBody, c.st, more, Nil))
    ensures !RanOut(Eval(m, world, n, st, enough))
  {
    hide EvalBinary, EvalUnary, Faults, FaultsUnary, ReadName, WriteName, AskTree, TellSelf;
    var c := Eval(m, world, n.cond, st, gas);
    MoreGas(m, world, n.cond, st, gas, more + 2);
    MoreGasBody(m, world, if c.v.IsTruthy() then n.thenBody else n.elseBody, c.st, more, Nil, c.gas + 1);
    enough := gas + (more + 2);
  }

  lemma {:induction false} EnoughLoop(m: Mode, world: World, n: Node, st: State, gas': nat) returns (gas: nat)
    requires n.Loop? && Fit(n, false) && !RanOut(EvalLoop(m, world, OptimizeNode(m.overflowChecks, n), st, gas'))
    ensures !RanOut(EvalLoop(m, world, n, st, gas))
    decreases gas', n, 0
  {
    hide Eval, EvalBody;
    var n' := OptimizeNode(m.overflowChecks, n);
    gas := Enough(m, world, n.cond, false, st, gas');
    SameEnd(m, world, n.cond, false, st, gas, gas');
    var c, c' := Eval(m, world, n.cond, st, gas), Eval(m, world, n'.cond, st, gas');
    if c.Exit? {
    } else if !c.v.IsTruthy() {
      MoreGas(m, world, n.cond, st, gas, 1);
      gas := gas + 1;
    } else {
      var body := EnoughBody(m, world, n.body, false, c.st, c'.gas - 1, Nil, Nil);
      SameEndBody(m, world, n.body, false, c.st, body, c'.gas - 1, Nil, Nil);
      var b, b' := EvalBody(m, world, n.body, c.st, body, Nil), EvalBody(m, world, n'.body, c.st, c'.gas - 1, Nil);
      var rest := 0;
      if b.Done? {
        rest := EnoughLoop(m, world, n, b.st, b'.gas - 1);
      }
      gas := LoopEnds(m, world, n, st, gas, body, rest);
    }
  }

  lemma LoopEnds(m: Mode, world: World, n: Node, st: State, gas: nat, body: nat, rest: nat) returns (enough: nat)
    requires n.Loop? && Eval(m, world, n.cond, st, gas).Done? && Eval(m, world, n.cond, st, gas).v.IsTruthy()
    requires var b := EvalBody(m, world, n.body, Eval(m, world, n.cond, st, gas).st, body, Nil);
             !RanOut(b) && (b.Done? ==> !RanOut(EvalLoop(m, world, n, b.st, rest)))
    ensures !RanOut(EvalLoop(m, world, n, st, enough))
  {
    hide Eval, EvalBody;
    var c := Eval(m, world, n.cond, st, gas);
    var b := EvalBody(m, world, n.body, c.st, body, Nil);
    MoreGas(m, world, n.cond, st, gas, body + rest + 2);
    MoreGasBody(m, world, n.body, c.st, body, Nil, c.gas + 1 + rest);
    if b.Done? {
      MoreGasLoop(m, world, n, b.st, rest, c.gas + b.gas);
    }
    enough := gas + (body + rest + 2);
  }

  lemma {:induction false} EnoughBody(m: Mode, world: World, ns: seq<Node>, valued: bool, st: State, gas': nat,
                                      last: Value, last': Value) returns (gas: nat)
    requires FitBody(ns, valued) && !RanOut(EvalBody(m, world, OptimizeAll(m.overflowChecks, ns), st, gas', last'))
    ensures !RanOut(EvalBody(m, world, ns, st, gas, last))
    decreases gas', ns, 0
  {
    hide Eval, OptimizeNode, Fit;
    gas := 0;
    if ns != [] {
      var n' := OptimizeNode(m.overflowChecks, ns[0]);
      gas := Enough(m, world, ns[0], valued && |ns| == 1, st, gas');
      SameEnd(m, world, ns[0], valued && |ns| == 1, st, gas, gas');
      var r, r' := Eval(m, world, ns[0], st, gas), Eval(m, world, n', st, gas');
      if r.Done? {
        var more := EnoughBody(m, world, ns[1..], valued, r.st, r'.gas, r.v, r'.v);
        MoreGas(m, world, ns[0], st, gas, more);
        MoreGasBody(m, world, ns[1..], r.st, more, r.v, r.gas);
        gas := gas + more;
      }
    }
  }

  lemma {:induction false} EnoughAll(m: Mode, world: World, ns: seq<Node>, st: State, gas': nat) returns (gas: nat)
    requires forall a | a in ns :: Fit(a, true)
    requires !AnyRanOut(EvalAll(m, world, OptimizeAll(m.overflowChecks, ns), st, gas'))
    ensures !AnyRanOut(EvalAll(m, world, ns, st, gas))
    decreases gas', ns, 0
  {
    hide Eval, OptimizeNode, Fit;
    gas := 0;
    if ns != [] {
      gas := Enough(m, world, ns[0], true, st, gas');
      SameEnd(m, world, ns[0], true, st, gas, gas');
      var r, r' := Eval(m, world, ns[0], st, gas), Eval(m, world, OptimizeNode(m.overflowChecks, ns[0]), st, gas');
      if r.Done? {
        var more := EnoughAll(m, world, ns[1..], r.st, r'.gas);
        MoreGas(m, world, ns[0], st, gas, more);
        MoreGasAll(m, world, ns[1..], r.st, more, r.gas);
        gas := gas + more;
      }
    }
  }

  // ---------------------------------------------------------------- whole functions

  // The main result: a function whose body was optimized returns the same value after the same calls,
  // or stops the same way, and ends exactly if the original does.
  lemma OptimizingKeepsMeaning(m: Mode, world: World, params: seq<string>, body: seq<Node>, args: seq<Value>,
                               globals: Globals, trace: seq<Event>, o: Outcome)
    requires FitBody(body, true) && !o.OutOfGas?
    ensures (exists gas: nat :: EvalFunc(m, world, params, body, args, globals, trace, gas) == o)
            <==> exists gas: nat ::
                   EvalFunc(m, world, params, OptimizeAll(m.overflowChecks, body), args, globals, trace, gas) == o
  {
    var st := BindNames(State(map[], map[], globals, trace), params, args, |params|);
    var body' := OptimizeAll(m.overflowChecks, body);
    if gas: nat :| EvalFunc(m, world, params, body, args, globals, trace, gas) == o {
      SimulatesBody(m, world, body, true, st, gas - 1, Nil, Nil, 0);
      assert EvalFunc(m, world, params, body', args, globals, trace, gas) == o;
    }
    if gas': nat :| EvalFunc(m, world, params, body', args, globals, trace, gas') == o {
      var gas := EnoughBody(m, world, body, true, st, gas' - 1, Nil, Nil);
      SameEndBody(m, world, body, true, st, gas, gas' - 1, Nil, Nil);
      assert EvalFunc(m, world, params, body, args, globals, trace, gas + 1) == o;
    }
  }

  // ---------------------------------------------------------------- the module, in place

  /** Somewhere a fold would stop the compiler. */
  predicate Stops(overflowChecks: bool, n: Node) {
    match n
    case BinaryOp(op, l, r) =>
      || Stops(overflowChecks, l) || Stops(overflowChecks, r)
      || var l', r' := OptimizeNode(overflowChecks, l), OptimizeNode(overflowChecks, r);
         l'.Literal? && r'.Literal? && FoldBinary(overflowChecks, l'.c, op, r'.c).Panics?
    case UnaryOp(_, x) => Stops(overflowChecks, x)
    case CallNode(_, args) => exists a | a in args :: Stops(overflowChecks, a)
    case BlockCall(_, args, _, _, _, _) => exists a | a in args :: Stops(overflowChecks, a)
    case Assign(_, value) => Stops(overflowChecks, value)
    case If(c, t, e) =>
      || Stops(overflowChecks, c)
      || (exists a | a in t :: Stops(overflowChecks, a)) || (exists a | a in e :: Stops(overflowChecks, a))
    case Loop(c, body) => Stops(overflowChecks, c) || exists a | a in body :: Stops(overflowChecks, a)
    case Sequence(ns) => exists a | a in ns :: Stops(overflowChecks, a)
    case _ => false
  }

  /** The tree is optimized from the leaves up, unless a fold stops the compiler. */
  method OptimizeTree(overflowChecks: bool, n: Node) returns (stopped: bool, out: Node)
    ensures stopped <==> Stops(overflowChecks, n)
    ensures !stopped ==> out == OptimizeNode(overflowChecks, n)
    decreases n, 1
  {
    hide FoldBinary;
    stopped, out := false, n;
    match n
    case BinaryOp(op, l, r) =>
      var l', r';
      stopped, l' := OptimizeTree(overflowChecks, l);
      if !stopped {
        stopped, r' := OptimizeTree(overflowChecks, r);
        if !stopped && l'.Literal? && r'.Literal? {
          stopped := FoldBinary(overflowChecks, l'.c, op, r'.c).Panics?;
        }
        out := Simplified(overflowChecks, BinaryOp(op, l', r'));
      }
    case UnaryOp(op, x) =>
      stopped, out := OptimizeTree(overflowChecks, x);
      out := Simplified(overflowChecks, UnaryOp(op, out));
    case CallNode(name, args) =>
      var args';
      stopped, args' := OptimizeTrees(overflowChecks, args);
      out := CallNode(name, args');
    case BlockCall(name, args, params, body, captured, capturesSelf) =>
      var args';
      stopped, args' := OptimizeTrees(overflowChecks, args);
      out := BlockCall(name, args', params, body, captured, capturesSelf);
    case Assign(name, value) =>
      stopped, out := OptimizeTree(overflowChecks, value);
      out := Assign(name, out);
    case If(_, _, _) => stopped, out := OptimizeIf(overflowChecks, n);
    case Loop(c, body) =>
      var c', body';
      stopped, c' := OptimizeTree(overflowChecks, c);
      if !stopped {
        stopped, body' := OptimizeTrees(overflowChecks, body);
        out := Loop(c', body');
      }
    case Sequence(ns) =>
      var ns';
      stopped, ns' := OptimizeTrees(overflowChecks, ns);
      out := Sequence(ns');
    case _ =>
  }

  method OptimizeIf(overflowChecks: bool, n: Node) returns (stopped: bool, out: Node)
    requires n.If?
    ensures stopped <==> Stops(overflowChecks, n)
    ensures !stopped ==> out == OptimizeNode(overflowChecks, n)
    decreases n, 0
  {
    var c', t', e';
    out := n;
    stopped, c' := OptimizeTree(overflowChecks, n.cond);
    if !stopped {
      stopped, t' := OptimizeTrees(overflowChecks, n.thenBody);
      if !stopped {
        stopped, e' := OptimizeTrees(overflowChecks, n.elseBody);
        out := Simplified(overflowChecks, If(c', t', e'));
      }
    }
  }

  method OptimizeTrees(overflowChecks: bool, ns: seq<Node>) returns (stopped: bool, out: seq<Node>)
    ensures stopped <==> exists n | n in ns :: Stops(overflowChecks, n)
    ensures !stopped ==> out == OptimizeAll(overflowChecks, ns)
    decreases ns, 0
  {
    hide OptimizeNode, Stops;
    out := ns;
    for i := 0 to |ns|
      invariant |out| == |ns| && out[i..] == ns[i..]
      invariant forall k ::
                  0 <= k < i ==> out[k] == OptimizeNode(overflowChecks, ns[k]) && !Stops(overflowChecks, ns[k])
    {
      var n;
      stopped, n := OptimizeTree(overflowChecks, ns[i]);
      if stopped {
        return;
      }
      out := out[i := n];
    }
    return false, out;
  }

  class HirModule {
    var nodes: seq<Node>

    constructor (nodes: seq<Node>)
      ensures this.nodes == nodes
    {
      this.nodes := nodes;
    }

    method Optimize(overflowChecks: bool) returns (stopped: bool)
      modifies this
      ensures stopped <==> exists n | n in old(nodes) :: Stops(overflowChecks, n)
      ensures !stopped ==> nodes == OptimizeAll(overflowChecks, old(nodes))
    {
      stopped, nodes := OptimizeTrees(overflowChecks, nodes);
    }
  }
}
