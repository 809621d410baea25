/** The names that lowered code loads, stores and calls are those of the tree. */
module LoweredNames {
  import opened Options
  import opened Mir
  import opened Ssa
  import opened Removal
  import opened Improvement
  import opened Hir
  import opened HirOptimize
  import opened Lower
  import opened LowerForm
  import opened LoweredCode
  import opened LowerLabels
  import opened LowerMeaning

  datatype Names = Names(loads: string -> bool, stores: string -> bool, calls: string -> bool)

  /** The tree mentions these names only, and passes no block to a call. */
  predicate Within(n: Node, ns: Names) {
    match n
    case VarRef(name) => ns.loads(name)
    case BinaryOp(_, l, r) => Within(l, ns) && Within(r, ns)
    case UnaryOp(_, x) => Within(x, ns)
    case CallNode(name, args) => ns.calls(name) && forall a | a in args :: Within(a, ns)
    case BlockCall(_, _, _, _, _, _) => false
    case Assign(name, v) => ns.stores(name) && Within(v, ns)
    case If(c, t, e) => Within(c, ns) && (forall a | a in t :: Within(a, ns)) && (forall a | a in e :: Within(a, ns))
    case Loop(c, body) => Within(c, ns) && forall a | a in body :: Within(a, ns)
    case ReturnNode(Some(v)) => Within(v, ns)
    case Sequence(nodes) => forall a | a in nodes :: Within(a, ns)
    case _ => true
  }

  predicate AllWithin(nodes: seq<Node>, ns: Names) {
    forall n | n in nodes :: Within(n, ns)
  }

  predicate InstWithin(inst: Inst, ns: Names) {
    match inst
    case Load(_, name) => ns.loads(name)
    case Store(name, _) => ns.stores(name)
    case Call(_, name, _) => ns.calls(name)
    case _ => !PassesBlock(inst)
  }

  /** The code of b, the first k instructions aside. */
  ghost predicate CodeWithin(b: Builder, k: nat, ns: Names) {
    forall c: nat, i: nat :: At(CodeOf(b), c, i) && (c > 0 || i >= k) ==> InstWithin(InstAt(CodeOf(b), c, i), ns)
  }

  // ---------------------------------------------------------------- single steps

  lemma EmitWithin(b: Builder, inst: Inst, b': Builder, k: nat, ns: Names)
    requires CodeWithin(b, k, ns) && InstWithin(inst, ns) && b' == b.(nextReg := b'.nextReg, insts := b.insts + [inst])
    ensures CodeWithin(b', k, ns)
  {
    var f, f' := CodeOf(b), CodeOf(b');
    assert forall c: nat, i: nat :: At(f', c, i) ==> (c == |b.blocks| && i == |b.insts|) || At(f, c, i);
    assert forall c: nat, i: nat :: At(f, c, i) ==> InstAt(f', c, i) == InstAt(f, c, i);
  }

  lemma FinishWithin(b: Builder, term: Terminator, b': Builder, k: nat, ns: Names)
    requires CodeWithin(b, k, ns) && b' == FinishBlock(b, term).(nextBlock := b'.nextBlock, pending := b'.pending)
    ensures CodeWithin(b', k, ns)
  {
    var f, f' := CodeOf(b), CodeOf(b');
    assert forall c: nat, i: nat :: At(f', c, i) ==> At(f, c, i) && InstAt(f', c, i) == InstAt(f, c, i);
  }

  // ---------------------------------------------------------------- trees

  lemma {:induction false} NodeWithin(n: Node, b: Builder, k: nat, ns: Names)
    requires Within(n, ns) && CodeWithin(b, k, ns)
    ensures CodeWithin(LowerNode(n, b).0, k, ns)
    decreases n, 2
  {
    hide CodeWithin, IfCode, LoopCode;
    match n
    case Literal(c) => EmitWithin(b, LoadConst(b.nextReg, c), LowerNode(n, b).0, k, ns);
    case VarRef(name) => EmitWithin(b, Load(b.nextReg, name), LowerNode(n, b).0, k, ns);
    case BinaryOp(op, l, r) =>
      NodeWithin(l, b, k, ns);
      var (b1, x) := LowerNode(l, b);
      NodeWithin(r, b1, k, ns);
      var (b2, y) := LowerNode(r, b1);
      EmitWithin(b2, Binary(b2.nextReg, op, x, y), LowerNode(n, b).0, k, ns);
    case UnaryOp(op, x) =>
      NodeWithin(x, b, k, ns);
      var (b1, r) := LowerNode(x, b);
      EmitWithin(b1, Unary(b1.nextReg, op, r), LowerNode(n, b).0, k, ns);
    case CallNode(name, args) =>
      AllNodesWithin(args, b, k, ns);
      var (b1, rs) := LowerAll(args, b);
      EmitWithin(b1, Call(b1.nextReg, name, rs), LowerNode(n, b).0, k, ns);
    case Assign(name, v) =>
      NodeWithin(v, b, k, ns);
      var (b1, r) := LowerNode(v, b);
      EmitWithin(b1, Store(name, r), LowerNode(n, b).0, k, ns);
    case If(_, _, _) => IfWithin(n, b, k, ns);
    case Loop(_, _) => LoopWithin(n, b, k, ns);
    case ReturnNode(_) => ReturnWithin(n, b, k, ns);
    case Sequence(nodes) =>
      var start := EmitNew(b, LoadConst(b.nextReg, ConstNil));
      EmitWithin(b, LoadConst(b.nextReg, ConstNil), start, k, ns);
      BodyWithin(nodes, start, b.nextReg, k, ns);
    case NopNode => EmitWithin(b, LoadConst(b.nextReg, ConstNil), LowerNode(n, b).0, k, ns);
  }

  lemma {:induction false} ReturnWithin(n: Node, b: Builder, k: nat, ns: Names)
    requires n.ReturnNode? && Within(n, ns) && CodeWithin(b, k, ns)
    ensures CodeWithin(LowerNode(n, b).0, k, ns)
    decreases n, 1
  {
    hide CodeWithin;
    var b1, v := b, None;
    if n.result.Some? {
      NodeWithin(n.result.value, b, k, ns);
      b1, v := LowerNode(n.result.value, b).0, Some(LowerNode(n.result.value, b).1);
    }
    var b2 := StartBlock(TakeLabels(FinishBlock(b1, Return(v)), 1), LabelFor("after_return", b1.nextBlock));
    FinishWithin(b1, Return(v), b2, k, ns);
    EmitWithin(b2, LoadConst(b2.nextReg, ConstNil), EmitNew(b2, LoadConst(b2.nextReg, ConstNil)), k, ns);
  }

  lemma {:induction false} IfWithin(n: Node, b: Builder, k: nat, ns: Names)
    requires n.If? && Within(n, ns) && CodeWithin(b, k, ns)
    ensures CodeWithin(LowerNode(n, b).0, k, ns)
    decreases n, 1
  {
    hide CodeWithin, LowerBody, LabelFor;
    NodeWithin(n.cond, b, k, ns);
    var (b1, c) := LowerNode(n.cond, b);
    var i := b1.nextBlock;
    var t, e, m := LabelFor("then", i), LabelFor("else", i + 1), LabelFor("merge", i + 2);
    var b2 := Turn(TakeLabels(b1, 3), CondBranch(c, t, e), t);
    FinishWithin(b1, CondBranch(c, t, e), b2, k, ns);
    ArmWithin(n.thenBody, b2, k, ns);
    var (b3, r) := LowerBody(n.thenBody, EmitNew(b2, LoadConst(b2.nextReg, ConstNil)), b2.nextReg);
    var b4 := Turn(b3, Branch(m), e);
    FinishWithin(b3, Branch(m), b4, k, ns);
    ArmWithin(n.elseBody, b4, k, ns);
    var b5 := LowerBody(n.elseBody, EmitNew(b4, LoadConst(b4.nextReg, ConstNil)), b4.nextReg).0;
    var b6 := Turn(b5, Branch(m), m);
    FinishWithin(b5, Branch(m), b6, k, ns);
    EmitWithin(b6, Copy(b6.nextReg, r), EmitNew(b6, Copy(b6.nextReg, r)), k, ns);
  }

  lemma {:induction false} ArmWithin(nodes: seq<Node>, b: Builder, k: nat, ns: Names)
    requires AllWithin(nodes, ns) && CodeWithin(b, k, ns)
    ensures CodeWithin(LowerBody(nodes, EmitNew(b, LoadConst(b.nextReg, ConstNil)), b.nextReg).0, k, ns)
    decreases nodes, 1
  {
    hide CodeWithin;
    EmitWithin(b, LoadConst(b.nextReg, ConstNil), EmitNew(b, LoadConst(b.nextReg, ConstNil)), k, ns);
    BodyWithin(nodes, EmitNew(b, LoadConst(b.nextReg, ConstNil)), b.nextReg, k, ns);
  }

  lemma {:induction false} LoopWithin(n: Node, b: Builder, k: nat, ns: Names)
    requires n.Loop? && Within(n, ns) && CodeWithin(b, k, ns)
    ensures CodeWithin(LowerNode(n, b).0, k, ns)
    decreases n, 1
  {
    hide CodeWithin, LowerBody, LabelFor;
    var i := b.nextBlock;
    var t, l, x := LabelFor("loop_cond", i), LabelFor("loop_body", i + 1), LabelFor("loop_exit", i + 2);
    var b1 := Turn(TakeLabels(b, 3), Branch(t), t);
    FinishWithin(b, Branch(t), b1, k, ns);
    NodeWithin(n.cond, b1, k, ns);
    var (b2, c) := LowerNode(n.cond, b1);
    var b3 := Turn(b2, CondBranch(c, l, x), l);
    FinishWithin(b2, CondBranch(c, l, x), b3, k, ns);
    BodyWithin(n.body, b3, 0, k, ns);
    var b4 := LowerBody(n.body, b3, 0).0;
    var b5 := Turn(b4, Branch(t), x);
    FinishWithin(b4, Branch(t), b5, k, ns);
    EmitWithin(b5, LoadConst(b5.nextReg, ConstNil), EmitNew(b5, LoadConst(b5.nextReg, ConstNil)), k, ns);
  }

  lemma {:induction false} BodyWithin(nodes: seq<Node>, b: Builder, last: RegId, k: nat, ns: Names)
    requires AllWithin(nodes, ns) && CodeWithin(b, k, ns)
    ensures CodeWithin(LowerBody(nodes, b, last).0, k, ns)
    decreases nodes, 0
  {
    hide CodeWithin;
    if nodes != [] {
      NodeWithin(nodes[0], b, k, ns);
      BodyWithin(nodes[1..], LowerNode(nodes[0], b).0, LowerNode(nodes[0], b).1, k, ns);
    }
  }

  lemma {:induction false} AllNodesWithin(nodes: seq<Node>, b: Builder, k: nat, ns: Names)
    requires AllWithin(nodes, ns) && CodeWithin(b, k, ns)
    ensures CodeWithin(LowerAll(nodes, b).0, k, ns)
    decreases nodes, 0
  {
    hide CodeWithin;
    if nodes != [] {
      NodeWithin(nodes[0], b, k, ns);
      AllNodesWithin(nodes[1..], LowerNode(nodes[0], b).0, k, ns);
    }
  }

  // ---------------------------------------------------------------- functions

  // The first instructions store the parameters, and after them come only the names of the body.
  lemma LoweredWithin(params: seq<string>, body: seq<Node>, ns: Names)
    requires AllWithin(body, ns)
    ensures var f := LowerFunction(params, body);
            && f.blocks != [] && |params| <= |f.blocks[0].insts|
            && (forall i :: 0 <= i < |params| ==> f.blocks[0].insts[i] == Store(params[i], i))
            && forall c: nat, i: nat :: At(f, c, i) && (c > 0 || i >= |params|) ==> InstWithin(InstAt(f, c, i), ns)
  {
    hide LowerBody, AllWithin;
    var f, start := LowerFunction(params, body), LowerParams(params, |params|);
    ParamsShape(params, |params|);
    assert CodeWithin(start, |params|, ns);
    BodyWithin(body, start, 0, |params|, ns);
    var b := LowerBody(body, start, 0).0;
    assert forall c: nat, i: nat :: At(f, c, i) ==> At(CodeOf(b), c, i) && InstAt(CodeOf(b), c, i) == InstAt(f, c, i);
    LoweredIsClosedGraph(params, body);
    var p := Place(Mode(false, false, false, false), trace => Answer(Nil, Globals(map[], map[])), f.blocks);
    assert Fits(p, b);
    BodyGrows(body, start, 0);
    assert start.insts <= f.blocks[0].insts;
  }

  /** Every name: for what a condition leaves open. */
  function Any(): string -> bool {
    (name: string) => true
  }

  function NoIvars(): string -> bool {
    (name: string) => !IsIvarName(name)
  }

  function NotSelf(): string -> bool {
    (name: string) => name != SELF
  }

  function BuiltIn(): string -> bool {
    (name: string) => name in Builtins()
  }

  predicate NoIvarsAmong(params: seq<string>) {
    forall name | name in params :: !IsIvarName(name)
  }

  /** The body sets no variable self. */
  predicate LeavesSelf(body: seq<Node>) {
    AllWithin(body, Names(Any(), NotSelf(), Any()))
  }

  /** Self is not set, or nothing asks for it without naming it. */
  predicate SelfUntouched(params: seq<string>, body: seq<Node>) {
    || (SELF !in params && LeavesSelf(body))
    || (NoIvarsAmong(params) && AllWithin(body, Names(NoIvars(), NoIvars(), BuiltIn())))
  }

  /** Instance variables are not read, or they all belong to the one self. */
  predicate OneSelf(objects: bool, params: seq<string>, body: seq<Node>) {
    || AllWithin(body, Names(NoIvars(), Any(), Any()))
    || (objects && NoIvarsAmong(params) && LeavesSelf(body))
  }

  // Such a function keeps self, whatever becomes of it.
  lemma UntouchedSelfIsKept(params: seq<string>, body: seq<Node>, g: Func)
    requires SelfUntouched(params, body)
    ensures SelfKept(LowerFunction(params, body), g)
  {
    hide LowerFunction, AllWithin;
    var f := LowerFunction(params, body);
    if SELF !in params && LeavesSelf(body) {
      LoweredWithin(params, body, Names(Any(), NotSelf(), Any()));
      forall b: nat, i: nat | At(f, b, i) && InstAt(f, b, i).Store?
        ensures InstAt(f, b, i).name != SELF
      {
        if b == 0 && i < |params| {
          assert params[i] in params;
        }
      }
    } else {
      var ns := Names(NoIvars(), NoIvars(), BuiltIn());
      LoweredWithin(params, body, ns);
      forall b: nat, i: nat | At(f, b, i)
        ensures !ConsultsSelf(InstAt(f, b, i))
      {
        if b == 0 && i < |params| {
          assert params[i] in params;
        } else {
          assert InstWithin(InstAt(f, b, i), ns);
        }
      }
    }
  }

  lemma OneSelfInCode(objects: bool, params: seq<string>, body: seq<Node>)
    requires OneSelf(objects, params, body)
    ensures var f := LowerFunction(params, body); BlockFree(f) && (LoadsNoIvar(f) || (objects && SelfFirst(f)))
  {
    hide LowerFunction, AllWithin;
    var f := LowerFunction(params, body);
    if AllWithin(body, Names(NoIvars(), Any(), Any())) {
      LoweredWithin(params, body, Names(NoIvars(), Any(), Any()));
    } else {
      LoweredWithin(params, body, Names(Any(), NotSelf(), Any()));
      forall b: nat, i: nat, j: nat |
        At(f, b, j) && i < j && InstAt(f, b, i).Store? && IsIvarName(InstAt(f, b, i).name) && InstAt(f, b, j).Store?
        ensures InstAt(f, b, j).name != SELF
      {
        assert b > 0 || j >= |params| ==> InstWithin(InstAt(f, b, j), Names(Any(), NotSelf(), Any()));
      }
    }
  }

  // ---------------------------------------------------------------- through the tree optimizer

  lemma {:induction false} OptimizedWithin(checks: bool, n: Node, ns: Names)
    requires Within(n, ns)
    ensures Within(OptimizeNode(checks, n), ns)
    decreases n, 1
  {
    hide Simplified;
    match n
    case BinaryOp(op, l, r) =>
      OptimizedWithin(checks, l, ns);
      OptimizedWithin(checks, r, ns);
      SimplifiedWithin(checks, BinaryOp(op, OptimizeNode(checks, l), OptimizeNode(checks, r)), ns);
    case UnaryOp(op, x) =>
      OptimizedWithin(checks, x, ns);
      SimplifiedWithin(checks, UnaryOp(op, OptimizeNode(checks, x)), ns);
    case CallNode(_, args) => AllOptimizedWithin(checks, args, ns);
    case Assign(_, v) => OptimizedWithin(checks, v, ns);
    case If(c, t, e) =>
      OptimizedWithin(checks, c, ns);
      AllOptimizedWithin(checks, t, ns);
      AllOptimizedWithin(checks, e, ns);
      SimplifiedWithin(checks, If(OptimizeNode(checks, c), OptimizeAll(checks, t), OptimizeAll(checks, e)), ns);
    case Loop(c, body) =>
      OptimizedWithin(checks, c, ns);
      AllOptimizedWithin(checks, body, ns);
    case Sequence(nodes) => AllOptimizedWithin(checks, nodes, ns);
    case _ =>
  }

  lemma SimplifiedWithin(checks: bool, n: Node, ns: Names)
    requires Within(n, ns) && (n.BinaryOp? || n.UnaryOp? || n.If?)
    ensures Within(Simplified(checks, n), ns)
  {
    hide FoldBinary;
    FoldedWithin(checks, n, ns);
    hide ConstantFold;
    var folded := ConstantFold(checks, n);
    if folded.If? && folded.cond.Literal? {
      assert Within(Sequence(folded.thenBody), ns) && Within(Sequence(folded.elseBody), ns);
    }
  }

  lemma FoldedWithin(checks: bool, n: Node, ns: Names)
    requires Within(n, ns)
    ensures Within(ConstantFold(checks, n), ns)
  {
    hide FoldBinary;
    if n.UnaryOp? && n.operand.UnaryOp? {
      assert Within(n.operand, ns) && Within(n.operand.operand, ns);
    }
  }

  lemma {:induction false} AllOptimizedWithin(checks: bool, nodes: seq<Node>, ns: Names)
    requires AllWithin(nodes, ns)
    ensures AllWithin(OptimizeAll(checks, nodes), ns)
    decreases nodes, 0
  {
    forall n | n in OptimizeAll(checks, nodes)
      ensures Within(n, ns)
    {
      var k :| 0 <= k < |nodes| && n == OptimizeNode(checks, nodes[k]);
      OptimizedWithin(checks, nodes[k], ns);
    }
  }

  lemma OptimizedKeepsNames(checks: bool, objects: bool, params: seq<string>, body: seq<Node>)
    ensures SelfUntouched(params, body) ==> SelfUntouched(params, OptimizeAll(checks, body))
    ensures OneSelf(objects, params, body) ==> OneSelf(objects, params, OptimizeAll(checks, body))
  {
    hide AllWithin, OptimizeAll;
    forall ns | AllWithin(body, ns)
      ensures AllWithin(OptimizeAll(checks, body), ns)
    {
      AllOptimizedWithin(checks, body, ns);
    }
  }
}
