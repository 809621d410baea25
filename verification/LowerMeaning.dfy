/**
  Lowering preserves meaning: the lowered function makes the same calls with the same arguments and
  returns the same value as direct evaluation of the tree, and runs out of gas at the same point.
 */
module LowerMeaning {
  import opened Options
  import opened Mir
  import opened Hir
  import opened Lower
  import opened LowerForm

  // ---------------------------------------------------------------- which trees

  /** No operand, argument, condition, assigned or returned value is the value of a conditional. */
  predicate WellValued(n: Node) {
    match n
    case BinaryOp(_, l, r) => HasValue(l) && HasValue(r) && WellValued(l) && WellValued(r)
    case UnaryOp(_, x) => HasValue(x) && WellValued(x)
    case CallNode(_, args) => forall a | a in args :: HasValue(a) && WellValued(a)
    case BlockCall(_, args, _, _, _, _) => forall a | a in args :: HasValue(a) && WellValued(a)
    case Assign(_, v) => HasValue(v) && WellValued(v)
    case If(c, t, e) =>
      HasValue(c) && WellValued(c) && (forall a | a in t :: WellValued(a)) && (forall a | a in e :: WellValued(a))
    case Loop(c, body) => HasValue(c) && WellValued(c) && forall a | a in body :: WellValued(a)
    case ReturnNode(Some(v)) => HasValue(v) && WellValued(v)
    case Sequence(ns) => forall a | a in ns :: WellValued(a)
    case _ => true
  }

  predicate AllWellValued(ns: seq<Node>) {
    forall a | a in ns :: WellValued(a)
  }

  // Control flow in statement position only is a special case.
  lemma {:induction false} ExprIsWellValued(n: Node)
    requires IsExpr(n)
    ensures WellValued(n) && HasValue(n)
  {
    match n
    case BinaryOp(_, l, r) =>
      ExprIsWellValued(l);
      ExprIsWellValued(r);
    case UnaryOp(_, x) => ExprIsWellValued(x);
    case CallNode(_, args) =>
      forall a | a in args
        ensures HasValue(a) && WellValued(a)
      {
        ExprIsWellValued(a);
      }
    case Assign(_, v) => ExprIsWellValued(v);
    case _ =>
  }

  lemma {:induction false} StmtIsWellValued(n: Node)
    requires IsStmt(n)
    ensures WellValued(n)
  {
    match n
    case If(c, t, e) =>
      ExprIsWellValued(c);
      forall a | a in t
        ensures WellValued(a)
      {
        StmtIsWellValued(a);
      }
      forall a | a in e
        ensures WellValued(a)
      {
        StmtIsWellValued(a);
      }
    case Loop(c, body) =>
      ExprIsWellValued(c);
      forall a | a in body
        ensures WellValued(a)
      {
        StmtIsWellValued(a);
      }
    case ReturnNode(Some(v)) => ExprIsWellValued(v);
    case Sequence(ns) =>
      forall a | a in ns
        ensures WellValued(a)
      {
        StmtIsWellValued(a);
      }
    case ReturnNode(None) =>
    case NopNode =>
    case _ => ExprIsWellValued(n);
  }

  // ---------------------------------------------------------------- whose value arrives

  /** The value of the tree comes to its register: each conditional that yields it takes the first arm. */
  predicate Reaches(m: Mode, world: World, n: Node, h: State, gas: nat)
    decreases n, 1
  {
    match n
    case If(c, t, _) =>
      var e := Eval(m, world, c, h, gas);
      e.Done? && e.v.IsTruthy() && e.gas > 0 && BodyReaches(m, world, t, e.st, e.gas - 1)
    case Sequence(ns) => BodyReaches(m, world, ns, h, gas)
    case _ => true
  }

  predicate BodyReaches(m: Mode, world: World, ns: seq<Node>, h: State, gas: nat)
    decreases ns, 0
  {
    if ns == [] then true
    else if |ns| == 1 then Reaches(m, world, ns[0], h, gas)
    else match Eval(m, world, ns[0], h, gas)
      case Exit(_) => true
      case Done(_, h1, gas1) => BodyReaches(m, world, ns[1..], h1, gas1)
  }

  lemma {:induction false} HasValueReaches(m: Mode, world: World, n: Node, h: State, gas: nat)
    requires HasValue(n)
    ensures Reaches(m, world, n, h, gas)
    decreases n, 1
  {
    if n.Sequence? {
      BodyHasValueReaches(m, world, n.nodes, h, gas);
    }
  }

  lemma {:induction false} BodyHasValueReaches(m: Mode, world: World, ns: seq<Node>, h: State, gas: nat)
    requires BodyHasValue(ns)
    ensures BodyReaches(m, world, ns, h, gas)
    decreases ns, 0
  {
    if |ns| == 1 {
      HasValueReaches(m, world, ns[0], h, gas);
    } else if |ns| > 1 {
      var e := Eval(m, world, ns[0], h, gas);
      if e.Done? {
        BodyHasValueReaches(m, world, ns[1..], e.st, e.gas);
      }
    }
  }

  // ---------------------------------------------------------------- points of the finished code

  /** The finished code, and where it runs. */
  datatype Place = Place(m: Mode, world: World, bs: seq<BasicBlock>)

  ghost predicate UniqueLabels(bs: seq<BasicBlock>) {
    forall j, k :: 0 <= j < |bs| && 0 <= k < |bs| && bs[j].lbl == bs[k].lbl ==> j == k
  }

  /** The finished code begins with what has been built so far. */
  ghost predicate Fits(p: Place, b: Builder) {
    && |b.blocks| < |p.bs| && b.blocks <= p.bs
    && p.bs[|b.blocks|].lbl == OpenLabel(b)
    && b.insts <= p.bs[|b.blocks|].insts
  }

  /** Run the finished code from the point that the builder has reached. */
  ghost function RunFrom(p: Place, b: Builder, st: State, gas: nat): Outcome
    requires Fits(p, b)
  {
    var block := p.bs[|b.blocks|];
    match ExecFrom(p.m, p.world, block.insts, |b.insts|, st)
    case Abort => Aborted
    case Next(t) => Leave(p.m, p.world, p.bs, block.term, t, gas)
  }

  /** Running from b comes to b2. */
  ghost predicate Goes(p: Place, b: Builder, st: State, gas: nat, b2: Builder, st2: State, gas2: nat) {
    Fits(p, b) && Fits(p, b2) && RunFrom(p, b, st, gas) == RunFrom(p, b2, st2, gas2)
  }

  ghost predicate Ends(p: Place, b: Builder, st: State, gas: nat, o: Outcome) {
    Fits(p, b) && RunFrom(p, b, st, gas) == o
  }

  ghost predicate Grows(b: Builder, b2: Builder) {
    b.nextReg <= b2.nextReg && forall p :: Fits(p, b2) ==> Fits(p, b)
  }

  lemma GoesTransitive(p: Place, b: Builder, st: State, gas: nat, b1: Builder, st1: State, gas1: nat,
                       b2: Builder, st2: State, gas2: nat)
    requires Goes(p, b, st, gas, b1, st1, gas1) && Goes(p, b1, st1, gas1, b2, st2, gas2)
    ensures Goes(p, b, st, gas, b2, st2, gas2)
  {
  }

  lemma GoesThenEnds(p: Place, b: Builder, st: State, gas: nat, b1: Builder, st1: State, gas1: nat, o: Outcome)
    requires Goes(p, b, st, gas, b1, st1, gas1) && Ends(p, b1, st1, gas1, o)
    ensures Ends(p, b, st, gas, o)
  {
  }

  lemma EmitGrows(b: Builder, inst: Inst, b2: Builder)
    requires b2 == b.(nextReg := b2.nextReg, insts := b.insts + [inst]) && b.nextReg <= b2.nextReg
    ensures Grows(b, b2)
  {
    assert b.insts <= b2.insts;
  }

  lemma TurnGrows(b: Builder, term: Terminator, lbl: Label)
    ensures Grows(b, Turn(b, term, lbl))
    ensures forall p :: Fits(p, Turn(b, term, lbl)) ==> p.bs[|b.blocks|] == BasicBlock(OpenLabel(b), b.insts, term)
  {
    var b2 := Turn(b, term, lbl);
    forall p | Fits(p, b2)
      ensures Fits(p, b) && p.bs[|b.blocks|] == BasicBlock(OpenLabel(b), b.insts, term)
    {
      assert p.bs[|b.blocks|] == b2.blocks[|b.blocks|];
      assert b.blocks <= b2.blocks;
    }
  }

  lemma GrowsTransitive(b: Builder, b1: Builder, b2: Builder)
    requires Grows(b, b1) && Grows(b1, b2)
    ensures Grows(b, b2)
  {
  }

  lemma RelabelGrows(b: Builder, b2: Builder)
    requires b2 == b.(nextBlock := b2.nextBlock)
    ensures Grows(b, b2)
  {
  }

  // ---------------------------------------------------------------- lowering only adds

  lemma {:induction false} NodeGrows(n: Node, b: Builder)
    ensures Grows(b, LowerNode(n, b).0)
    decreases n, 1
  {
    hide Grows, IfCode, LoopCode;
    match n
    case Literal(c) => EmitGrows(b, LoadConst(b.nextReg, c), LowerNode(n, b).0);
    case VarRef(name) => EmitGrows(b, Load(b.nextReg, name), LowerNode(n, b).0);
    case BinaryOp(op, l, r) =>
      NodeGrows(l, b);
      var (b1, x) := LowerNode(l, b);
      NodeGrows(r, b1);
      var (b2, y) := LowerNode(r, b1);
      EmitGrows(b2, Binary(b2.nextReg, op, x, y), LowerNode(n, b).0);
      GrowsTransitive(b, b1, b2);
      GrowsTransitive(b, b2, LowerNode(n, b).0);
    case UnaryOp(op, x) =>
      NodeGrows(x, b);
      var (b1, r) := LowerNode(x, b);
      EmitGrows(b1, Unary(b1.nextReg, op, r), LowerNode(n, b).0);
      GrowsTransitive(b, b1, LowerNode(n, b).0);
    case CallNode(name, args) =>
      AllGrow(args, b);
      var (b1, rs) := LowerAll(args, b);
      EmitGrows(b1, Call(b1.nextReg, name, rs), LowerNode(n, b).0);
      GrowsTransitive(b, b1, LowerNode(n, b).0);
    case BlockCall(_, _, _, _, _, _) => BlockCallGrows(n, b);
    case Assign(name, v) =>
      NodeGrows(v, b);
      var (b1, r) := LowerNode(v, b);
      EmitGrows(b1, Store(name, r), LowerNode(n, b).0);
      GrowsTransitive(b, b1, LowerNode(n, b).0);
    case If(_, _, _) => IfGrows(n, b);
    case Loop(_, _) => LoopGrows(n, b);
    case ReturnNode(result) =>
      var b1, v := b, None;
      if result.Some? {
        NodeGrows(result.value, b);
        b1 := LowerNode(result.value, b).0;
        v := Some(LowerNode(result.value, b).1);
      }
      AfterReturnGrows(b1, Return(v));
      if result.Some? {
        GrowsTransitive(b, b1, LowerNode(n, b).0);
      }
    case Sequence(ns) =>
      LoadNilGrows(b);
      BodyGrows(ns, EmitNew(b, LoadConst(b.nextReg, ConstNil)), b.nextReg);
      GrowsTransitive(b, EmitNew(b, LoadConst(b.nextReg, ConstNil)), LowerNode(n, b).0);
    case NopNode => LoadNilGrows(b);
  }

  lemma LoadNilGrows(b: Builder)
    ensures Grows(b, EmitNew(b, LoadConst(b.nextReg, ConstNil)))
  {
    EmitGrows(b, LoadConst(b.nextReg, ConstNil), EmitNew(b, LoadConst(b.nextReg, ConstNil)));
  }

  lemma AfterReturnGrows(b: Builder, term: Terminator)
    ensures Grows(b, AfterReturn(FinishBlock(b, term)).0)
  {
    var b1 := Turn(b, term, LabelFor("after_return", b.nextBlock));
    TurnGrows(b, term, LabelFor("after_return", b.nextBlock));
    RelabelGrows(b1, TakeLabels(b1, 1));
    LoadNilGrows(TakeLabels(b1, 1));
    assert AfterReturn(FinishBlock(b, term)).0
        == EmitNew(TakeLabels(b1, 1), LoadConst(TakeLabels(b1, 1).nextReg, ConstNil));
  }

  // Turn to a new block, load nil, lower a body.
  lemma {:induction false} ArmGrows(ns: seq<Node>, b: Builder, term: Terminator, lbl: Label)
    ensures var b1 := Turn(b, term, lbl);
            var b1' := EmitNew(b1, LoadConst(b1.nextReg, ConstNil));
            var b2 := LowerBody(ns, b1', b1.nextReg).0;
            Grows(b, b1) && Grows(b1, b1') && Grows(b1', b2) && Grows(b1, b2) && Grows(b, b2)
    decreases ns, 1
  {
    hide Grows;
    var b1 := Turn(b, term, lbl);
    var b1' := EmitNew(b1, LoadConst(b1.nextReg, ConstNil));
    var b2 := LowerBody(ns, b1', b1.nextReg).0;
    TurnGrows(b, term, lbl);
    LoadNilGrows(b1);
    BodyGrows(ns, b1', b1.nextReg);
    GrowsTransitive(b1, b1', b2);
    GrowsTransitive(b, b1, b2);
  }

  // Whatever is emitted in the open block.
  lemma EmitsGrow(b: Builder, b2: Builder, added: seq<Inst>)
    requires b2 == b.(nextReg := b2.nextReg, insts := b.insts + added, functions := b2.functions)
    requires b.nextReg <= b2.nextReg
    ensures Grows(b, b2)
  {
    assert b.insts <= b2.insts;
  }

  lemma {:induction false} BlockCallGrows(n: Node, b: Builder)
    requires n.BlockCall?
    ensures Grows(b, LowerNode(n, b).0)
    decreases n, 0
  {
    hide Grows, LowerBlockArg, SendToSelf;
    AllGrow(n.args, b);
    var (b1, rs) := LowerAll(n.args, b);
    if n.body == [] {
      EmitGrows(b1, Call(b1.nextReg, n.name, rs), LowerNode(n, b).0);
      GrowsTransitive(b, b1, LowerNode(n, b).0);
    } else {
      var (b2, block) := LowerBlockArg(n, b1);
      BlockArgGrows(n, b1);
      SendGrows(b2, n.name, rs, block);
      GrowsTransitive(b, b1, b2);
      GrowsTransitive(b, b2, LowerNode(n, b).0);
    }
  }

  lemma SendGrows(b: Builder, name: string, args: seq<RegId>, block: RegId)
    ensures Grows(b, SendToSelf(b, name, args, block))
  {
    hide Grows;
    var r := b.nextReg;
    EmitsGrow(b, SendToSelf(b, name, args, block),
              [Load(r + 1, SELF), LoadConst(r + 2, ConstSymbol(name)), Send(r, r + 1, r + 2, args, Some(block))]);
  }

  /** What the block argument of a call adds to the open block. */
  function BlockArgInsts(n: Node, b: Builder): seq<Inst>
    requires n.BlockCall?
  {
    var r := b.nextReg;
    if IsSymbolProc(n.body) then [LoadConst(r, n.body[0].c), SymbolToProc(r + 1, r)]
    else
      var all := EffectiveCaptures(n.captured, n.capturesSelf);
      LoadNames(all, r) + [BlockCreate(r + |all|, BlockName(n.name, r), RegsFrom(r, |all|))]
  }

  lemma BlockArgEmits(n: Node, b: Builder)
    requires n.BlockCall?
    ensures var (b2, block) := LowerBlockArg(n, b);
            && b2 == b.(nextReg := b2.nextReg, insts := b.insts + BlockArgInsts(n, b), functions := b2.functions)
            && b.nextReg <= block && block + 1 == b2.nextReg
  {
    hide FinishedBody, BlockName;
    if IsSymbolProc(n.body) {
      var r := b.nextReg;
      assert BlockArgInsts(n, b) == [LoadConst(r, n.body[0].c)] + [SymbolToProc(r + 1, r)];
    }
  }

  lemma BlockArgGrows(n: Node, b: Builder)
    requires n.BlockCall?
    ensures Grows(b, LowerBlockArg(n, b).0)
  {
    hide Grows, LowerBlockArg, BlockArgInsts;
    BlockArgEmits(n, b);
    EmitsGrow(b, LowerBlockArg(n, b).0, BlockArgInsts(n, b));
  }

  lemma {:induction false} IfGrows(n: Node, b: Builder)
    requires n.If?
    ensures Grows(b, IfCode(n, b).0)
    decreases n, 0
  {
    hide Grows;
    NodeGrows(n.cond, b);
    var (b1, c) := LowerNode(n.cond, b);
    var k := b1.nextBlock;
    var t, e, m := LabelFor("then", k), LabelFor("else", k + 1), LabelFor("merge", k + 2);
    RelabelGrows(b1, TakeLabels(b1, 3));
    ArmGrows(n.thenBody, TakeLabels(b1, 3), CondBranch(c, t, e), t);
    var b2 := Turn(TakeLabels(b1, 3), CondBranch(c, t, e), t);
    var (b3, r) := LowerBody(n.thenBody, EmitNew(b2, LoadConst(b2.nextReg, ConstNil)), b2.nextReg);
    ArmGrows(n.elseBody, b3, Branch(m), e);
    var b4 := Turn(b3, Branch(m), e);
    var b5 := LowerBody(n.elseBody, EmitNew(b4, LoadConst(b4.nextReg, ConstNil)), b4.nextReg).0;
    var b6 := Turn(b5, Branch(m), m);
    TurnGrows(b5, Branch(m), m);
    EmitGrows(b6, Copy(b6.nextReg, r), IfCode(n, b).0);
    GrowsTransitive(b, b1, TakeLabels(b1, 3));
    GrowsTransitive(b, TakeLabels(b1, 3), b3);
    GrowsTransitive(b, b3, b5);
    GrowsTransitive(b, b5, b6);
    GrowsTransitive(b, b6, IfCode(n, b).0);
  }

  lemma {:induction false} LoopGrows(n: Node, b: Builder)
    requires n.Loop?
    ensures Grows(b, LoopCode(n, b).0)
    decreases n, 0
  {
    hide Grows;
    var k := b.nextBlock;
    var t, y, x := LabelFor("loop_cond", k), LabelFor("loop_body", k + 1), LabelFor("loop_exit", k + 2);
    RelabelGrows(b, TakeLabels(b, 3));
    var b1 := Turn(TakeLabels(b, 3), Branch(t), t);
    TurnGrows(TakeLabels(b, 3), Branch(t), t);
    NodeGrows(n.cond, b1);
    var (b2, c) := LowerNode(n.cond, b1);
    var b3 := Turn(b2, CondBranch(c, y, x), y);
    TurnGrows(b2, CondBranch(c, y, x), y);
    BodyGrows(n.body, b3, 0);
    var b4 := LowerBody(n.body, b3, 0).0;
    var b5 := Turn(b4, Branch(t), x);
    TurnGrows(b4, Branch(t), x);
    LoadNilGrows(b5);
    GrowsTransitive(b, TakeLabels(b, 3), b1);
    GrowsTransitive(b, b1, b2);
    GrowsTransitive(b, b2, b3);
    GrowsTransitive(b, b3, b4);
    GrowsTransitive(b, b4, b5);
    GrowsTransitive(b, b5, LoopCode(n, b).0);
  }

  lemma {:induction false} BodyGrows(ns: seq<Node>, b: Builder, last: RegId)
    ensures Grows(b, LowerBody(ns, b, last).0)
    decreases ns, 0
  {
    if ns != [] {
      NodeGrows(ns[0], b);
      var (b1, r) := LowerNode(ns[0], b);
      BodyGrows(ns[1..], b1, r);
      GrowsTransitive(b, b1, LowerBody(ns, b, last).0);
    }
  }

  lemma {:induction false} AllGrow(ns: seq<Node>, b: Builder)
    ensures Grows(b, LowerAll(ns, b).0)
    decreases ns, 0
  {
    if ns != [] {
      NodeGrows(ns[0], b);
      var b1 := LowerNode(ns[0], b).0;
      AllGrow(ns[1..], b1);
      GrowsTransitive(b, b1, LowerAll(ns, b).0);
    }
  }

  // The result is in one of the registers that the code of the tree defines.
  lemma {:induction false} ResultIsNew(n: Node, b: Builder)
    ensures b.nextReg <= LowerNode(n, b).1 < LowerNode(n, b).0.nextReg
    decreases n, 1
  {
    hide LabelFor, LowerBlockArg, IfCode, LoopCode;
    match n
    case BinaryOp(_, l, r) =>
      NodeRegs(l, b);
      NodeRegs(r, LowerNode(l, b).0);
    case UnaryOp(_, x) => NodeRegs(x, b);
    case CallNode(_, args) => AllRegs(args, b);
    case BlockCall(_, args, _, _, _, _) =>
      AllRegs(args, b);
      BlockArgEmits(n, LowerAll(args, b).0);
    case Assign(_, v) => ResultIsNew(v, b);
    case If(_, _, _) => IfResultIsNew(n, b);
    case Loop(_, _) => LoopResultIsNew(n, b);
    case ReturnNode(Some(v)) => NodeRegs(v, b);
    case Sequence(ns) => BodyResultIsNew(ns, EmitNew(b, LoadConst(b.nextReg, ConstNil)), b.nextReg, b.nextReg);
    case _ =>
  }

  lemma IfResultIsNew(n: Node, b: Builder)
    requires n.If?
    ensures b.nextReg <= IfCode(n, b).1 < IfCode(n, b).0.nextReg
  {
    hide LabelFor, LowerNode, LowerBody, Grows;
    NodeRegs(n.cond, b);
    var (b1, c) := LowerNode(n.cond, b);
    var k := b1.nextBlock;
    var t, e, m := LabelFor("then", k), LabelFor("else", k + 1), LabelFor("merge", k + 2);
    var b2 := Turn(TakeLabels(b1, 3), CondBranch(c, t, e), t);
    BodyRegs(n.thenBody, EmitNew(b2, LoadConst(b2.nextReg, ConstNil)), b2.nextReg);
    var b3 := LowerBody(n.thenBody, EmitNew(b2, LoadConst(b2.nextReg, ConstNil)), b2.nextReg).0;
    var b4 := Turn(b3, Branch(m), e);
    BodyRegs(n.elseBody, EmitNew(b4, LoadConst(b4.nextReg, ConstNil)), b4.nextReg);
  }

  lemma LoopResultIsNew(n: Node, b: Builder)
    requires n.Loop?
    ensures b.nextReg <= LoopCode(n, b).1 < LoopCode(n, b).0.nextReg
  {
    hide LabelFor, LowerNode, LowerBody, Grows;
    var k := b.nextBlock;
    var t, y, x := LabelFor("loop_cond", k), LabelFor("loop_body", k + 1), LabelFor("loop_exit", k + 2);
    var b1 := Turn(TakeLabels(b, 3), Branch(t), t);
    NodeRegs(n.cond, b1);
    var (b2, c) := LowerNode(n.cond, b1);
    BodyRegs(n.body, Turn(b2, CondBranch(c, y, x), y), 0);
  }

  lemma BodyRegs(ns: seq<Node>, b: Builder, last: RegId)
    ensures b.nextReg <= LowerBody(ns, b, last).0.nextReg
  {
    BodyGrows(ns, b, last);
  }

  lemma NodeRegs(n: Node, b: Builder)
    ensures b.nextReg <= LowerNode(n, b).0.nextReg
  {
    NodeGrows(n, b);
  }

  lemma AllRegs(ns: seq<Node>, b: Builder)
    ensures b.nextReg <= LowerAll(ns, b).0.nextReg
  {
    AllGrow(ns, b);
  }

  lemma {:induction false} BodyResultIsNew(ns: seq<Node>, b: Builder, last: RegId, lo: nat)
    requires lo <= last < b.nextReg
    ensures lo <= LowerBody(ns, b, last).1 < LowerBody(ns, b, last).0.nextReg
    decreases ns, 0
  {
    if ns != [] {
      ResultIsNew(ns[0], b);
      var (b1, r) := LowerNode(ns[0], b);
      BodyResultIsNew(ns[1..], b1, r, lo);
    }
  }

  // ---------------------------------------------------------------- single steps

  predicate SameMemory(h: State, st: State) {
    h.vars == st.vars && h.globals == st.globals && h.trace == st.trace
  }

  /** Only registers from lo to hi have changed. */
  ghost predicate Kept(st: State, st2: State, lo: nat, hi: nat) {
    forall r: RegId :: r < lo || hi <= r ==> Get(st.regs, r) == Get(st2.regs, r)
  }

  /** Registers from lo on have not been set. */
  ghost predicate Blank(st: State, lo: nat) {
    forall r: RegId :: lo <= r ==> Get(st.regs, r) == Nil
  }

  lemma EmitGoes(p: Place, b: Builder, inst: Inst, b2: Builder, st: State, gas: nat)
    requires b2 == b.(nextReg := b2.nextReg, insts := b.insts + [inst]) && b.nextReg <= b2.nextReg && Fits(p, b2)
    ensures match ExecInst(p.m, p.world, inst, st)
            case Abort => Ends(p, b, st, gas, Aborted)
            case Next(t) => Goes(p, b, st, gas, b2, t, gas)
  {
    hide ExecInst;
    EmitGrows(b, inst, b2);
    assert p.bs[|b.blocks|].insts[|b.insts|] == b2.insts[|b.insts|];
  }

  // Executing a stretch of instructions in the middle of a block.
  lemma {:induction false} ExecStretch(m: Mode, world: World, insts: seq<Inst>, i: nat, added: seq<Inst>, k: nat,
                                       st: State)
    requires i + |added| <= |insts| && insts[i..i + |added|] == added && k <= |added|
    ensures ExecFrom(m, world, insts, i + k, st)
            == match ExecFrom(m, world, added, k, st)
               case Abort => Abort
               case Next(t) => ExecFrom(m, world, insts, i + |added|, t)
    decreases |added| - k
  {
    hide ExecInst;
    if k < |added| {
      assert insts[i + k] == insts[i..i + |added|][k];
      var e := ExecInst(m, world, added[k], st);
      if e.Next? {
        ExecStretch(m, world, insts, i, added, k + 1, e.st);
      }
    }
  }

  lemma StretchGoes(p: Place, b: Builder, added: seq<Inst>, b2: Builder, st: State, gas: nat)
    requires b2 == b.(nextReg := b2.nextReg, insts := b.insts + added, functions := b2.functions)
    requires b.nextReg <= b2.nextReg
    requires Fits(p, b2) && ExecFrom(p.m, p.world, added, 0, st).Next?
    ensures Goes(p, b, st, gas, b2, ExecFrom(p.m, p.world, added, 0, st).st, gas)
  {
    EmitsGrow(b, b2, added);
    var insts := p.bs[|b.blocks|].insts;
    assert insts[|b.insts|..|b.insts| + |added|] == b2.insts[|b.insts|..] == added;
    ExecStretch(p.m, p.world, insts, |b.insts|, added, 0, st);
  }

  /** Writes a register from lo to hi, and does nothing else. */
  predicate Harmless(inst: Inst, lo: nat, hi: nat) {
    (inst.LoadConst? || inst.Load? || inst.BlockCreate? || inst.SymbolToProc?) && lo <= inst.dest < hi
  }

  lemma {:induction false} HarmlessRun(m: Mode, world: World, insts: seq<Inst>, i: nat, st: State, lo: nat, hi: nat)
    requires i <= |insts| && forall k :: 0 <= k < |insts| ==> Harmless(insts[k], lo, hi)
    ensures var e := ExecFrom(m, world, insts, i, st); e.Next? && SameMemory(st, e.st) && Kept(st, e.st, lo, hi)
    decreases |insts| - i
  {
    hide ReadName;
    if i < |insts| {
      HarmlessRun(m, world, insts, i + 1, ExecInst(m, world, insts[i], st).st, lo, hi);
    }
  }

  lemma BlockArgHarmless(n: Node, b: Builder)
    requires n.BlockCall?
    ensures var insts := BlockArgInsts(n, b);
            forall k :: 0 <= k < |insts| ==> Harmless(insts[k], b.nextReg, LowerBlockArg(n, b).0.nextReg)
  {
    hide FinishedBody;
  }

  // From the end of a finished block to the start of the block its terminator names.
  lemma JumpGoes(p: Place, b: Builder, term: Terminator, lbl: Label, goal: Label, target: Builder, st: State, gas: nat)
    requires UniqueLabels(p.bs) && Fits(p, Turn(b, term, lbl))
    requires Fits(p, target) && target.insts == [] && target.pending == Some(goal)
    requires || term == Branch(goal)
             || (term.CondBranch?
                 && goal == if Get(st.regs, term.cond).IsTruthy() then term.thenLabel else term.elseLabel)
    ensures if gas == 0 then Ends(p, b, st, gas, OutOfGas(st.globals, st.trace))
            else Goes(p, b, st, gas, target, st, gas - 1)
  {
    TurnGrows(b, term, lbl);
    var k := |target.blocks|;
    assert Find(p.bs, goal) == Some(k);
    assert RunFrom(p, b, st, gas) == Run(p.m, p.world, p.bs, goal, st, gas);
  }
}
