/**
  The shape of lowered code: registers are numbered in the order of their definitions, every operand
  is defined earlier in the same block, and so the code is fit for every optimization pass.
 */
module LowerForm {
  import opened Options
  import opened Mir
  import opened Ssa
  import opened Removal
  import opened Scan
  import opened Hir
  import opened Lower
  import opened LowerRegs

  // ---------------------------------------------------------------- which trees

  /** Trees without control flow. */
  predicate IsExpr(n: Node) {
    match n
    case Literal(_) => true
    case VarRef(_) => true
    case BinaryOp(_, l, r) => IsExpr(l) && IsExpr(r)
    case UnaryOp(_, x) => IsExpr(x)
    case CallNode(_, args) => forall a | a in args :: IsExpr(a)
    case Assign(_, v) => IsExpr(v)
    case _ => false
  }

  /** Control flow in statement position only. */
  predicate IsStmt(n: Node) {
    match n
    case If(c, t, e) => IsExpr(c) && (forall a | a in t :: IsStmt(a)) && (forall a | a in e :: IsStmt(a))
    case Loop(c, body) => IsExpr(c) && forall a | a in body :: IsStmt(a)
    case ReturnNode(None) => true
    case ReturnNode(Some(v)) => IsExpr(v)
    case Sequence(ns) => forall a | a in ns :: IsStmt(a)
    case NopNode => true
    case _ => IsExpr(n)
  }

  predicate AllStmts(ns: seq<Node>) {
    forall a | a in ns :: IsStmt(a)
  }

  /** The value of the tree is not the value of a conditional. */
  predicate HasValue(n: Node) {
    match n
    case If(_, _, _) => false
    case Sequence(ns) => BodyHasValue(ns)
    case _ => true
  }

  predicate BodyHasValue(ns: seq<Node>) {
    ns == [] || HasValue(ns[|ns| - 1])
  }

  // ---------------------------------------------------------------- the invariant

  /** The code so far, with the open block as the last one. */
  function CodeOf(b: Builder): Func {
    Func([], b.blocks + [BasicBlock(OpenLabel(b), b.insts, Unreachable)])
  }

  ghost predicate Mentions(inst: Inst, r: RegId) {
    r in Uses(inst) || Dest(inst) == Some(r)
  }

  /** Registers mentioned earlier are smaller than registers defined later; the first few are parameters. */
  ghost predicate Ordered(arity: nat, b: Builder) {
    var f := CodeOf(b);
    && arity <= b.nextReg
    && (forall c: nat, i: nat, r: RegId :: At(f, c, i) && Mentions(InstAt(f, c, i), r) ==> r < b.nextReg)
    && (forall c: nat, i: nat, r: RegId :: Def(f, r, c, i) ==> arity <= r)
    && (forall c: nat, i: nat, d: nat, j: nat, r: RegId, q: RegId ::
          At(f, c, i) && Mentions(InstAt(f, c, i), r) && Def(f, q, d, j) && Before(c, i, d, j) ==> r < q)
    && (forall c: nat, i: nat, r: RegId, q: RegId :: Def(f, q, c, i) && r in Uses(InstAt(f, c, i)) ==> r < q)
  }

  /** r is defined among the first i instructions, and not by a copy. */
  ghost predicate DefinedLocally(insts: seq<Inst>, i: nat, r: RegId) {
    exists j: nat :: j < i && j < |insts| && Dest(insts[j]) == Some(r) && !insts[j].Copy?
  }

  /** Operands come from this block, or are parameters being stored; no block is passed. */
  ghost predicate LocalInst(arity: nat, insts: seq<Inst>, i: nat)
    requires i < |insts|
  {
    && !PassesBlock(insts[i])
    && forall r :: r in Uses(insts[i]) && !insts[i].Copy?
         ==> DefinedLocally(insts, i, r) || (insts[i].Store? && r < arity)
  }

  ghost predicate LocalInsts(arity: nat, insts: seq<Inst>) {
    forall i: nat :: i < |insts| ==> LocalInst(arity, insts, i)
  }

  ghost predicate LocalBlock(arity: nat, block: BasicBlock) {
    && LocalInsts(arity, block.insts)
    && forall r :: r in TermUses(block.term) ==> DefinedLocally(block.insts, |block.insts|, r)
  }

  ghost predicate WellBuilt(arity: nat, b: Builder) {
    && Ordered(arity, b)
    && LocalInsts(arity, b.insts)
    && forall k :: 0 <= k < |b.blocks| ==> LocalBlock(arity, b.blocks[k])
  }

  /** r is the result of an instruction of the open block. */
  ghost predicate InOpenBlock(b: Builder, r: RegId) {
    DefinedLocally(b.insts, |b.insts|, r)
  }

  /** r is the result of a conditional, in the open block. */
  ghost predicate CopiedHere(b: Builder, r: RegId) {
    exists j: nat :: j < |b.insts| && b.insts[j].Copy? && b.insts[j].dest == r
  }

  // ---------------------------------------------------------------- single steps

  lemma EmitOrdered(arity: nat, b: Builder, inst: Inst, b': Builder)
    requires Ordered(arity, b) && b' == b.(nextReg := b'.nextReg, insts := b.insts + [inst])
    requires b.nextReg <= b'.nextReg && forall r: RegId :: Mentions(inst, r) ==> r < b'.nextReg
    requires Dest(inst).Some? ==> Dest(inst).value == b.nextReg && forall r :: r in Uses(inst) ==> r < b.nextReg
    ensures Ordered(arity, b')
  {
    var f, f' := CodeOf(b), CodeOf(b');
    var last, end := |b.blocks|, |b.insts|;
    assert forall c: nat, i: nat :: At(f', c, i) ==> (c == last && i == end) || At(f, c, i);
    assert forall c: nat, i: nat :: At(f, c, i) ==> At(f', c, i) && InstAt(f', c, i) == InstAt(f, c, i);
    assert InstAt(f', last, end) == inst;
    assert forall c: nat, i: nat :: At(f, c, i) ==> !Before(last, end, c, i);
    assert forall c: nat, i: nat, r :: Def(f', r, c, i) ==> Def(f, r, c, i) || (c == last && i == end);
  }

  lemma EmitLocal(arity: nat, insts: seq<Inst>, inst: Inst)
    requires LocalInsts(arity, insts) && !PassesBlock(inst)
    requires inst.Copy? || forall r :: r in Uses(inst) ==>
               DefinedLocally(insts, |insts|, r) || (inst.Store? && r < arity)
    ensures LocalInsts(arity, insts + [inst])
    ensures forall r :: DefinedLocally(insts, |insts|, r) ==> DefinedLocally(insts + [inst], |insts| + 1, r)
    ensures Dest(inst).Some? && !inst.Copy? ==> DefinedLocally(insts + [inst], |insts| + 1, inst.dest)
  {
    var now := insts + [inst];
    forall r: RegId, i: nat | i <= |insts| && DefinedLocally(insts, i, r)
      ensures DefinedLocally(now, i, r)
    {
      var j: nat :| j < i && j < |insts| && Dest(insts[j]) == Some(r) && !insts[j].Copy?;
      assert now[j] == insts[j];
    }
    forall i: nat | i < |now|
      ensures LocalInst(arity, now, i)
    {
      if i < |insts| {
        assert LocalInst(arity, insts, i);
      }
    }
    assert now[|insts|] == inst;
  }

  lemma EmitNewWellBuilt(arity: nat, b: Builder, inst: Inst)
    requires WellBuilt(arity, b) && Dest(inst) == Some(b.nextReg) && !PassesBlock(inst)
    requires forall r :: r in Uses(inst) ==> r < b.nextReg && (inst.Copy? || InOpenBlock(b, r))
    ensures WellBuilt(arity, EmitNew(b, inst))
    ensures forall r :: InOpenBlock(b, r) ==> InOpenBlock(EmitNew(b, inst), r)
    ensures !inst.Copy? ==> InOpenBlock(EmitNew(b, inst), b.nextReg)
  {
    EmitOrdered(arity, b, inst, EmitNew(b, inst));
    EmitLocal(arity, b.insts, inst);
  }

  lemma OpenBlockBelow(arity: nat, b: Builder, r: RegId)
    requires WellBuilt(arity, b) && InOpenBlock(b, r)
    ensures r < b.nextReg
  {
    var j: nat :| j < |b.insts| && Dest(b.insts[j]) == Some(r) && !b.insts[j].Copy?;
    assert At(CodeOf(b), |b.blocks|, j) && InstAt(CodeOf(b), |b.blocks|, j) == b.insts[j];
    assert Mentions(b.insts[j], r);
  }

  lemma StoreWellBuilt(arity: nat, b: Builder, name: string, r: RegId)
    requires WellBuilt(arity, b) && InOpenBlock(b, r)
    ensures WellBuilt(arity, Emit(b, Store(name, r))) && InOpenBlock(Emit(b, Store(name, r)), r)
  {
    OpenBlockBelow(arity, b, r);
    EmitOrdered(arity, b, Store(name, r), Emit(b, Store(name, r)));
    EmitLocal(arity, b.insts, Store(name, r));
  }

  lemma FinishWellBuilt(arity: nat, b: Builder, term: Terminator)
    requires WellBuilt(arity, b) && forall r :: r in TermUses(term) ==> InOpenBlock(b, r)
    ensures WellBuilt(arity, FinishBlock(b, term))
  {
    var b' := FinishBlock(b, term);
    var f, f' := CodeOf(b), CodeOf(b');
    assert forall c: nat, i: nat :: At(f', c, i) <==> At(f, c, i);
    assert forall c: nat, i: nat :: At(f, c, i) ==> InstAt(f', c, i) == InstAt(f, c, i);
    assert forall c: nat, i: nat, r :: Def(f', r, c, i) <==> Def(f, r, c, i);
  }

  // Labels play no part.
  lemma RelabelWellBuilt(arity: nat, b: Builder, b': Builder)
    requires WellBuilt(arity, b) && b' == b.(nextBlock := b'.nextBlock, pending := b'.pending)
    ensures WellBuilt(arity, b')
  {
    var f, f' := CodeOf(b), CodeOf(b');
    assert forall c: nat, i: nat :: At(f', c, i) <==> At(f, c, i);
    assert forall c: nat, i: nat :: At(f, c, i) ==> InstAt(f', c, i) == InstAt(f, c, i);
    assert forall c: nat, i: nat, r :: Def(f', r, c, i) <==> Def(f, r, c, i);
  }

  lemma TurnWellBuilt(arity: nat, b: Builder, term: Terminator, lbl: Label)
    requires WellBuilt(arity, b) && forall r :: r in TermUses(term) ==> InOpenBlock(b, r)
    ensures WellBuilt(arity, Turn(b, term, lbl))
  {
    FinishWellBuilt(arity, b, term);
    RelabelWellBuilt(arity, FinishBlock(b, term), Turn(b, term, lbl));
  }

  // ---------------------------------------------------------------- trees

  /** Expressions stay in the open block. */
  ghost predicate SameBlock(b: Builder, b': Builder) {
    && b'.blocks == b.blocks && b'.pending == b.pending && b'.nextBlock == b.nextBlock
    && b.nextReg <= b'.nextReg
    && forall r :: InOpenBlock(b, r) ==> InOpenBlock(b', r)
  }

  lemma AssignedWellBuilt(arity: nat, b: Builder, name: string, v: RegId)
    requires WellBuilt(arity, b) && InOpenBlock(b, v)
    ensures var b' := Emit(b, Store(name, v)); WellBuilt(arity, b') && SameBlock(b, b') && InOpenBlock(b', v)
  {
    StoreWellBuilt(arity, b, name, v);
    EmitLocal(arity, b.insts, Store(name, v));
  }

  lemma {:induction false} ExprWellBuilt(arity: nat, n: Node, b: Builder)
    requires IsExpr(n) && WellBuilt(arity, b)
    ensures var (b', r) := LowerNode(n, b);
            WellBuilt(arity, b') && SameBlock(b, b') && InOpenBlock(b', r)
    decreases n, 1
  {
    hide WellBuilt, InOpenBlock;
    match n
    case Literal(c) => EmitNewWellBuilt(arity, b, LoadConst(b.nextReg, c));
    case VarRef(name) => EmitNewWellBuilt(arity, b, Load(b.nextReg, name));
    case BinaryOp(op, left, right) =>
      ExprWellBuilt(arity, left, b);
      var (b1, l) := LowerNode(left, b);
      ExprWellBuilt(arity, right, b1);
      var (b2, r) := LowerNode(right, b1);
      OpenBlockBelow(arity, b2, l);
      OpenBlockBelow(arity, b2, r);
      EmitNewWellBuilt(arity, b2, Binary(b2.nextReg, op, l, r));
    case UnaryOp(op, operand) =>
      ExprWellBuilt(arity, operand, b);
      var (b1, x) := LowerNode(operand, b);
      OpenBlockBelow(arity, b1, x);
      EmitNewWellBuilt(arity, b1, Unary(b1.nextReg, op, x));
    case CallNode(name, args) =>
      ExprsWellBuilt(arity, args, b);
      var (b1, rs) := LowerAll(args, b);
      forall r | r in rs
        ensures r < b1.nextReg
      {
        OpenBlockBelow(arity, b1, r);
      }
      EmitNewWellBuilt(arity, b1, Call(b1.nextReg, name, rs));
    case Assign(name, value) =>
      ExprWellBuilt(arity, value, b);
      var (b1, v) := LowerNode(value, b);
      AssignedWellBuilt(arity, b1, name, v);
  }

  lemma {:induction false} ExprsWellBuilt(arity: nat, ns: seq<Node>, b: Builder)
    requires (forall n | n in ns :: IsExpr(n)) && WellBuilt(arity, b)
    ensures var (b', rs) := LowerAll(ns, b);
            WellBuilt(arity, b') && SameBlock(b, b') && forall r :: r in rs ==> InOpenBlock(b', r)
    decreases ns, 0
  {
    if ns != [] {
      ExprWellBuilt(arity, ns[0], b);
      ExprsWellBuilt(arity, ns[1..], LowerNode(ns[0], b).0);
    }
  }

  lemma LoadNilWellBuilt(arity: nat, b: Builder)
    requires WellBuilt(arity, b)
    ensures var b' := EmitNew(b, LoadConst(b.nextReg, ConstNil));
            WellBuilt(arity, b') && InOpenBlock(b', b.nextReg) && b.nextReg < b'.nextReg
  {
    EmitNewWellBuilt(arity, b, LoadConst(b.nextReg, ConstNil));
  }

  lemma {:induction false} StmtWellBuilt(arity: nat, n: Node, b: Builder)
    requires IsStmt(n) && WellBuilt(arity, b)
    ensures var (b', r) := LowerNode(n, b);
            && WellBuilt(arity, b') && r < b'.nextReg
            && if HasValue(n) then InOpenBlock(b', r) else CopiedHere(b', r)
    decreases n, 1
  {
    hide IfCode, LoopCode;
    match n
    case If(_, _, _) => IfWellBuilt(arity, n, b);
    case Loop(_, _) => LoopWellBuilt(arity, n, b);
    case ReturnNode(result) =>
      var b1 := b;
      var v: Option<RegId> := None;
      if result.Some? {
        ExprWellBuilt(arity, result.value, b);
        b1 := LowerNode(result.value, b).0;
        v := Some(LowerNode(result.value, b).1);
      }
      var b2 := FinishBlock(b1, Return(v));
      FinishWellBuilt(arity, b1, Return(v));
      var b3 := StartBlock(TakeLabels(b2, 1), LabelFor("after_return", b2.nextBlock));
      RelabelWellBuilt(arity, b2, b3);
      LoadNilWellBuilt(arity, b3);
    case Sequence(nodes) =>
      LoadNilWellBuilt(arity, b);
      BodyWellBuilt(arity, nodes, EmitNew(b, LoadConst(b.nextReg, ConstNil)), b.nextReg);
    case NopNode => LoadNilWellBuilt(arity, b);
    case _ =>
      ExprWellBuilt(arity, n, b);
      OpenBlockBelow(arity, LowerNode(n, b).0, LowerNode(n, b).1);
  }

  lemma {:induction false} IfWellBuilt(arity: nat, n: Node, b: Builder)
    requires n.If? && IsStmt(n) && WellBuilt(arity, b)
    ensures var (b', r) := IfCode(n, b); WellBuilt(arity, b') && r < b'.nextReg && CopiedHere(b', r)
    decreases n, 0
  {
    hide WellBuilt, DefinedLocally, LabelFor, LowerBody, LowerNode, IsExpr;
    ExprWellBuilt(arity, n.cond, b);
    var (b1, c) := LowerNode(n.cond, b);
    var k := b1.nextBlock;
    var thenLabel, elseLabel, mergeLabel := LabelFor("then", k), LabelFor("else", k + 1), LabelFor("merge", k + 2);
    RelabelWellBuilt(arity, b1, TakeLabels(b1, 3));
    var b2 := Turn(TakeLabels(b1, 3), CondBranch(c, thenLabel, elseLabel), thenLabel);
    TurnWellBuilt(arity, TakeLabels(b1, 3), CondBranch(c, thenLabel, elseLabel), thenLabel);
    LoadNilWellBuilt(arity, b2);
    BodyWellBuilt(arity, n.thenBody, EmitNew(b2, LoadConst(b2.nextReg, ConstNil)), b2.nextReg);
    var (b3, thenResult) := LowerBody(n.thenBody, EmitNew(b2, LoadConst(b2.nextReg, ConstNil)), b2.nextReg);
    var b4 := Turn(b3, Branch(mergeLabel), elseLabel);
    TurnWellBuilt(arity, b3, Branch(mergeLabel), elseLabel);
    LoadNilWellBuilt(arity, b4);
    BodyWellBuilt(arity, n.elseBody, EmitNew(b4, LoadConst(b4.nextReg, ConstNil)), b4.nextReg);
    var (b5, elseResult) := LowerBody(n.elseBody, EmitNew(b4, LoadConst(b4.nextReg, ConstNil)), b4.nextReg);
    var b6 := Turn(b5, Branch(mergeLabel), mergeLabel);
    TurnWellBuilt(arity, b5, Branch(mergeLabel), mergeLabel);
    EmitNewWellBuilt(arity, b6, Copy(b6.nextReg, thenResult));
    assert EmitNew(b6, Copy(b6.nextReg, thenResult)).insts[|b6.insts|] == Copy(b6.nextReg, thenResult);
  }

  lemma {:induction false} LoopWellBuilt(arity: nat, n: Node, b: Builder)
    requires n.Loop? && IsStmt(n) && WellBuilt(arity, b)
    ensures var (b', r) := LoopCode(n, b); WellBuilt(arity, b') && r < b'.nextReg && InOpenBlock(b', r)
    decreases n, 0
  {
    hide WellBuilt, DefinedLocally, LabelFor, LowerBody, IsExpr;
    var k := b.nextBlock;
    var condLabel, bodyLabel, exitLabel :=
      LabelFor("loop_cond", k), LabelFor("loop_body", k + 1), LabelFor("loop_exit", k + 2);
    RelabelWellBuilt(arity, b, TakeLabels(b, 3));
    var b1 := Turn(TakeLabels(b, 3), Branch(condLabel), condLabel);
    TurnWellBuilt(arity, TakeLabels(b, 3), Branch(condLabel), condLabel);
    ExprWellBuilt(arity, n.cond, b1);
    var (b2, c) := LowerNode(n.cond, b1);
    var b3 := Turn(b2, CondBranch(c, bodyLabel, exitLabel), bodyLabel);
    TurnWellBuilt(arity, b2, CondBranch(c, bodyLabel, exitLabel), bodyLabel);
    BodyWellBuilt(arity, n.body, b3, 0);
    var (b4, last) := LowerBody(n.body, b3, 0);
    TurnWellBuilt(arity, b4, Branch(condLabel), exitLabel);
    LoadNilWellBuilt(arity, Turn(b4, Branch(condLabel), exitLabel));
  }

  lemma {:induction false} BodyWellBuilt(arity: nat, ns: seq<Node>, b: Builder, last: RegId)
    requires AllStmts(ns) && WellBuilt(arity, b)
    ensures var (b', r) := LowerBody(ns, b, last);
            && WellBuilt(arity, b')
            && b.nextReg <= b'.nextReg
            && (last < b.nextReg ==> r < b'.nextReg)
            && (ns != [] ==> if BodyHasValue(ns) then InOpenBlock(b', r) else CopiedHere(b', r))
            && (ns == [] ==> b' == b && r == last)
    decreases ns, 0
  {
    if ns != [] {
      StmtWellBuilt(arity, ns[0], b);
      var (b1, r) := LowerNode(ns[0], b);
      var defined := NodeDefines(ns[0], b);
      BodyWellBuilt(arity, ns[1..], b1, r);
    }
  }
}
