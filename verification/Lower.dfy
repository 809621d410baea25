/** Lowering trees to blocks of register instructions. */
module Lower {
  import opened Options
  import opened Mir
  import opened Hir

  // ---------------------------------------------------------------- labels

  function Digit(d: nat): char
    requires d < 10
  {
    "0123456789"[d]
  }

  function Decimal(n: nat): (s: string)
    ensures s != []
  {
    if n < 10 then [Digit(n)] else Decimal(n / 10) + [Digit(n % 10)]
  }

  function LabelFor(prefix: string, index: nat): Label {
    prefix + "_" + Decimal(index)
  }

  // ---------------------------------------------------------------- the state of lowering, as a value

  datatype Builder = Builder(
    nextReg: nat,
    nextBlock: nat,
    blocks: seq<BasicBlock>,
    insts: seq<Inst>,
    pending: Option<Label>,
    functions: seq<NamedFunc>  // of the blocks met so far
  )

  /** The label the open block will get. */
  function OpenLabel(b: Builder): Label {
    match b.pending
    case Some(l) => l
    case None => LabelFor(if b.blocks == [] then "entry" else "bb", |b.blocks|)
  }

  function Emit(b: Builder, inst: Inst): Builder {
    b.(insts := b.insts + [inst])
  }

  /** Emit an instruction that defines the next register. */
  function EmitNew(b: Builder, inst: Inst): Builder {
    b.(nextReg := b.nextReg + 1, insts := b.insts + [inst])
  }

  function FinishBlock(b: Builder, term: Terminator): Builder {
    b.(blocks := b.blocks + [BasicBlock(OpenLabel(b), b.insts, term)], insts := [], pending := None)
  }

  function StartBlock(b: Builder, lbl: Label): Builder {
    b.(pending := Some(lbl))
  }

  function TakeLabels(b: Builder, n: nat): Builder {
    b.(nextBlock := b.nextBlock + n)
  }

  /** Finish the open block and go on in a block with the given label. */
  function Turn(b: Builder, term: Terminator, lbl: Label): Builder {
    StartBlock(FinishBlock(b, term), lbl)
  }

  // ---------------------------------------------------------------- blocks that are passed to calls

  function BlockName(name: string, nextReg: nat): string {
    LabelFor("block_in_" + name, nextReg)
  }

  /** A block that mentions self captures it first. */
  function EffectiveCaptures(captured: seq<string>, capturesSelf: bool): seq<string> {
    if capturesSelf && (captured == [] || captured[0] != SELF) then [SELF] + captured else captured
  }

  function LoadNames(names: seq<string>, base: RegId): (insts: seq<Inst>)
    ensures |insts| == |names|
  {
    seq(|names|, i requires 0 <= i < |names| => Load(base + i, names[i]))
  }

  function RegsFrom(base: RegId, n: nat): (rs: seq<RegId>)
    ensures |rs| == n
  {
    seq(n, i => base + i)
  }

  /** A block of one symbol stands for the method of that name. */
  predicate IsSymbolProc(body: seq<Node>) {
    |body| == 1 && body[0].Literal? && body[0].c.ConstSymbol?
  }

  /** Load the captured names, and keep their values in a block. */
  function CreateBlock(b: Builder, symbol: string, captured: seq<string>): Builder {
    var b1 := b.(nextReg := b.nextReg + |captured|, insts := b.insts + LoadNames(captured, b.nextReg));
    EmitNew(b1, BlockCreate(b1.nextReg, symbol, RegsFrom(b.nextReg, |captured|)))
  }

  /** A call by name alone that passes a block goes to self. The result gets its register first. */
  function SendToSelf(b: Builder, name: string, args: seq<RegId>, block: RegId): Builder {
    var r := b.nextReg;
    b.(nextReg := r + 3,
       insts := b.insts + [Load(r + 1, SELF), LoadConst(r + 2, ConstSymbol(name)),
                           Send(r, r + 1, r + 2, args, Some(block))])
  }

  function LowerBlockArg(n: Node, b: Builder): (Builder, RegId)
    requires n.BlockCall?
    decreases n, 0
  {
    if IsSymbolProc(n.body) then
      var b1 := EmitNew(b, LoadConst(b.nextReg, n.body[0].c));
      (EmitNew(b1, SymbolToProc(b1.nextReg, b.nextReg)), b1.nextReg)
    else
      var symbol, all := BlockName(n.name, b.nextReg), EffectiveCaptures(n.captured, n.capturesSelf);
      var inner := FinishedBody(all + n.params, n.body);
      var block := NamedFunc(symbol, Func(ParamRegs(|all + n.params|), inner.blocks));
      var b1 := CreateBlock(b, symbol, all);
      (b1.(functions := b.functions + inner.functions + [block]), b1.nextReg - 1)
  }

  function LowerNode(n: Node, b: Builder): (Builder, RegId)
    decreases n, 1
  {
    match n
    case Literal(c) => (EmitNew(b, LoadConst(b.nextReg, c)), b.nextReg)
    case VarRef(name) => (EmitNew(b, Load(b.nextReg, name)), b.nextReg)
    case BinaryOp(op, left, right) =>
      var (b1, l) := LowerNode(left, b);
      var (b2, r) := LowerNode(right, b1);
      (EmitNew(b2, Binary(b2.nextReg, op, l, r)), b2.nextReg)
    case UnaryOp(op, operand) =>
      var (b1, s) := LowerNode(operand, b);
      (EmitNew(b1, Unary(b1.nextReg, op, s)), b1.nextReg)
    case CallNode(name, args) =>
      var (b1, rs) := LowerAll(args, b);
      (EmitNew(b1, Call(b1.nextReg, name, rs)), b1.nextReg)
    case BlockCall(name, args, _, body, _, _) =>
      var (b1, rs) := LowerAll(args, b);
      if body == [] then (EmitNew(b1, Call(b1.nextReg, name, rs)), b1.nextReg)
      else
        var (b2, block) := LowerBlockArg(n, b1);
        (SendToSelf(b2, name, rs, block), b2.nextReg)
    case Assign(name, value) =>
      var (b1, v) := LowerNode(value, b);
      (Emit(b1, Store(name, v)), v)
    case If(_, _, _) => IfCode(n, b)
    case Loop(_, _) => LoopCode(n, b)
    case ReturnNode(None) => AfterReturn(FinishBlock(b, Return(None)))
    case ReturnNode(Some(value)) =>
      var (b1, v) := LowerNode(value, b);
      AfterReturn(FinishBlock(b1, Return(Some(v))))
    case Sequence(nodes) => LowerBody(nodes, EmitNew(b, LoadConst(b.nextReg, ConstNil)), b.nextReg)
    case NopNode => (EmitNew(b, LoadConst(b.nextReg, ConstNil)), b.nextReg)
  }

  function IfCode(n: Node, b: Builder): (Builder, RegId)
    requires n.If?
    decreases n, 0
  {
    var (b1, c) := LowerNode(n.cond, b);
    var k := b1.nextBlock;
    var thenLabel, elseLabel, mergeLabel := LabelFor("then", k), LabelFor("else", k + 1), LabelFor("merge", k + 2);
    var b2 := Turn(TakeLabels(b1, 3), CondBranch(c, thenLabel, elseLabel), thenLabel);
    var (b3, thenResult) := LowerBody(n.thenBody, EmitNew(b2, LoadConst(b2.nextReg, ConstNil)), b2.nextReg);
    var b4 := Turn(b3, Branch(mergeLabel), elseLabel);
    var (b5, elseResult) := LowerBody(n.elseBody, EmitNew(b4, LoadConst(b4.nextReg, ConstNil)), b4.nextReg);
    var b6 := Turn(b5, Branch(mergeLabel), mergeLabel);
    (EmitNew(b6, Copy(b6.nextReg, thenResult)), b6.nextReg)
  }

  function LoopCode(n: Node, b: Builder): (Builder, RegId)
    requires n.Loop?
    decreases n, 0
  {
    var k := b.nextBlock;
    var condLabel, bodyLabel, exitLabel :=
      LabelFor("loop_cond", k), LabelFor("loop_body", k + 1), LabelFor("loop_exit", k + 2);
    var b1 := Turn(TakeLabels(b, 3), Branch(condLabel), condLabel);
    var (b2, c) := LowerNode(n.cond, b1);
    var b3 := Turn(b2, CondBranch(c, bodyLabel, exitLabel), bodyLabel);
    var (b4, last) := LowerBody(n.body, b3, 0);
    var b5 := Turn(b4, Branch(condLabel), exitLabel);
    (EmitNew(b5, LoadConst(b5.nextReg, ConstNil)), b5.nextReg)
  }

  /** What follows a return gets a block of its own. */
  function AfterReturn(b: Builder): (Builder, RegId) {
    var b1 := StartBlock(TakeLabels(b, 1), LabelFor("after_return", b.nextBlock));
    (EmitNew(b1, LoadConst(b1.nextReg, ConstNil)), b1.nextReg)
  }

  /** Statements in order; the register of the last one, or last if there is none. */
  function LowerBody(ns: seq<Node>, b: Builder, last: RegId): (Builder, RegId)
    decreases ns, 0
  {
    if ns == [] then (b, last)
    else
      var (b1, r) := LowerNode(ns[0], b);
      LowerBody(ns[1..], b1, r)
  }

  function LowerAll(ns: seq<Node>, b: Builder): (out: (Builder, seq<RegId>))
    ensures |out.1| == |ns|
    decreases ns, 0
  {
    if ns == [] then (b, [])
    else
      var (b1, r) := LowerNode(ns[0], b);
      var (b2, rs) := LowerAll(ns[1..], b1);
      (b2, [r] + rs)
  }

  const EMPTY := Builder(0, 0, [], [], None, [])

  /** Parameters arrive in registers and are stored under their names. */
  function LowerParams(params: seq<string>, i: nat): Builder
    requires i <= |params|
  {
    if i == 0 then EMPTY
    else
      var b := LowerParams(params, i - 1);
      EmitNew(b, Store(params[i - 1], b.nextReg))
  }

  function ParamRegs(n: nat): seq<RegId> {
    seq(n, i requires 0 <= i < n => i)
  }

  function FinishedBody(params: seq<string>, body: seq<Node>): Builder
    decreases body, 1
  {
    var (b, last) := LowerBody(body, LowerParams(params, |params|), 0);
    FinishBlock(b, Return(if body == [] then None else Some(last)))
  }

  function LowerFunction(params: seq<string>, body: seq<Node>): Func {
    Func(ParamRegs(|params|), FinishedBody(params, body).blocks)
  }

  /** The functions of the blocks in a body, innermost first. */
  function BlockFunctions(params: seq<string>, body: seq<Node>): seq<NamedFunc> {
    FinishedBody(params, body).functions
  }

  // ---------------------------------------------------------------- functions met earlier make no difference

  function With(fs: seq<NamedFunc>, b: Builder): Builder {
    b.(functions := fs + b.functions)
  }

  lemma {:induction false} NodeApart(fs: seq<NamedFunc>, n: Node, b: Builder)
    ensures LowerNode(n, With(fs, b)) == (With(fs, LowerNode(n, b).0), LowerNode(n, b).1)
    decreases n, 1
  {
    hide LowerBlockArg, LabelFor, IfCode, LoopCode;
    match n
    case BinaryOp(_, left, right) =>
      NodeApart(fs, left, b);
      NodeApart(fs, right, LowerNode(left, b).0);
    case UnaryOp(_, operand) => NodeApart(fs, operand, b);
    case CallNode(_, args) => AllApart(fs, args, b);
    case BlockCall(_, _, _, _, _, _) => BlockCallApart(fs, n, b);
    case Assign(_, value) => NodeApart(fs, value, b);
    case If(_, _, _) => IfApart(fs, n, b);
    case Loop(_, _) => LoopApart(fs, n, b);
    case ReturnNode(_) => ReturnApart(fs, n, b);
    case Sequence(nodes) => BodyApart(fs, nodes, EmitNew(b, LoadConst(b.nextReg, ConstNil)), b.nextReg);
    case _ =>
  }

  lemma {:induction false} ReturnApart(fs: seq<NamedFunc>, n: Node, b: Builder)
    requires n.ReturnNode?
    ensures LowerNode(n, With(fs, b)) == (With(fs, LowerNode(n, b).0), LowerNode(n, b).1)
    decreases n, 0
  {
    if n.result.Some? {
      NodeApart(fs, n.result.value, b);
    }
  }

  lemma {:induction false} BlockCallApart(fs: seq<NamedFunc>, n: Node, b: Builder)
    requires n.BlockCall?
    ensures LowerNode(n, With(fs, b)) == (With(fs, LowerNode(n, b).0), LowerNode(n, b).1)
    decreases n, 0
  {
    hide LowerAll, LowerBlockArg;
    AllApart(fs, n.args, b);
    BlockArgApart(fs, n, LowerAll(n.args, b).0);
  }

  lemma BlockArgApart(fs: seq<NamedFunc>, n: Node, b: Builder)
    requires n.BlockCall?
    ensures LowerBlockArg(n, With(fs, b)) == (With(fs, LowerBlockArg(n, b).0), LowerBlockArg(n, b).1)
  {
    hide FinishedBody, LoadNames, RegsFrom, LabelFor;
    if !IsSymbolProc(n.body) {
      var symbol, all := BlockName(n.name, b.nextReg), EffectiveCaptures(n.captured, n.capturesSelf);
      var inner := FinishedBody(all + n.params, n.body);
      var block := NamedFunc(symbol, Func(ParamRegs(|all + n.params|), inner.blocks));
      assert fs + (b.functions + inner.functions + [block]) == (fs + b.functions) + inner.functions + [block];
    }
  }

  lemma {:induction false} IfApart(fs: seq<NamedFunc>, n: Node, b: Builder)
    requires n.If?
    ensures IfCode(n, With(fs, b)) == (With(fs, IfCode(n, b).0), IfCode(n, b).1)
    decreases n, 0
  {
    hide LabelFor, LowerNode, LowerBody;
    NodeApart(fs, n.cond, b);
    var (b1, c) := LowerNode(n.cond, b);
    var k := b1.nextBlock;
    var t, e, m := LabelFor("then", k), LabelFor("else", k + 1), LabelFor("merge", k + 2);
    var b2 := Turn(TakeLabels(b1, 3), CondBranch(c, t, e), t);
    BodyApart(fs, n.thenBody, EmitNew(b2, LoadConst(b2.nextReg, ConstNil)), b2.nextReg);
    var (b3, x) := LowerBody(n.thenBody, EmitNew(b2, LoadConst(b2.nextReg, ConstNil)), b2.nextReg);
    var b4 := Turn(b3, Branch(m), e);
    BodyApart(fs, n.elseBody, EmitNew(b4, LoadConst(b4.nextReg, ConstNil)), b4.nextReg);
    var b5 := LowerBody(n.elseBody, EmitNew(b4, LoadConst(b4.nextReg, ConstNil)), b4.nextReg).0;
    assert Turn(TakeLabels(With(fs, b1), 3), CondBranch(c, t, e), t) == With(fs, b2);
    assert Turn(With(fs, b3), Branch(m), e) == With(fs, b4);
    assert Turn(With(fs, b5), Branch(m), m) == With(fs, Turn(b5, Branch(m), m));
    hide FinishBlock, Turn;
  }

  lemma {:induction false} LoopApart(fs: seq<NamedFunc>, n: Node, b: Builder)
    requires n.Loop?
    ensures LoopCode(n, With(fs, b)) == (With(fs, LoopCode(n, b).0), LoopCode(n, b).1)
    decreases n, 0
  {
    hide LabelFor, LowerNode, LowerBody;
    var k := b.nextBlock;
    var t, y, x := LabelFor("loop_cond", k), LabelFor("loop_body", k + 1), LabelFor("loop_exit", k + 2);
    var b1 := Turn(TakeLabels(b, 3), Branch(t), t);
    NodeApart(fs, n.cond, b1);
    var (b2, c) := LowerNode(n.cond, b1);
    var b3 := Turn(b2, CondBranch(c, y, x), y);
    BodyApart(fs, n.body, b3, 0);
    var (b4, last) := LowerBody(n.body, b3, 0);
  }

  lemma {:induction false} BodyApart(fs: seq<NamedFunc>, ns: seq<Node>, b: Builder, last: RegId)
    ensures LowerBody(ns, With(fs, b), last) == (With(fs, LowerBody(ns, b, last).0), LowerBody(ns, b, last).1)
    decreases ns, 0
  {
    if ns != [] {
      NodeApart(fs, ns[0], b);
      var (b1, r) := LowerNode(ns[0], b);
      BodyApart(fs, ns[1..], b1, r);
    }
  }

  lemma {:induction false} AllApart(fs: seq<NamedFunc>, ns: seq<Node>, b: Builder)
    ensures LowerAll(ns, With(fs, b)) == (With(fs, LowerAll(ns, b).0), LowerAll(ns, b).1)
    decreases ns, 0
  {
    if ns != [] {
      NodeApart(fs, ns[0], b);
      AllApart(fs, ns[1..], LowerNode(ns[0], b).0);
    }
  }

  // ---------------------------------------------------------------- the functions of blocks

  /** Every function is the lowering of some body. */
  ghost predicate AllLowered(fs: seq<NamedFunc>) {
    forall k :: 0 <= k < |fs| ==> IsLowered(fs[k].func)
  }

  ghost predicate IsLowered(func: Func) {
    exists params, body :: func == LowerFunction(params, body)
  }

  lemma {:induction false} NodeFunctions(n: Node, b: Builder)
    requires AllLowered(b.functions)
    ensures AllLowered(LowerNode(n, b).0.functions)
    decreases n, 1
  {
    hide AllLowered, LowerBlockArg, IfCode, LoopCode;
    match n
    case BinaryOp(_, left, right) =>
      NodeFunctions(left, b);
      NodeFunctions(right, LowerNode(left, b).0);
    case UnaryOp(_, operand) => NodeFunctions(operand, b);
    case CallNode(_, args) => AllFunctions(args, b);
    case BlockCall(_, args, _, _, _, _) =>
      AllFunctions(args, b);
      BlockArgFunctions(n, LowerAll(args, b).0);
    case Assign(_, value) => NodeFunctions(value, b);
    case If(_, _, _) => IfFunctions(n, b);
    case Loop(_, _) => LoopFunctions(n, b);
    case ReturnNode(Some(value)) => NodeFunctions(value, b);
    case Sequence(nodes) => BodyFunctions(nodes, EmitNew(b, LoadConst(b.nextReg, ConstNil)), b.nextReg);
    case _ =>
  }

  lemma {:induction false} BlockArgFunctions(n: Node, b: Builder)
    requires n.BlockCall? && AllLowered(b.functions)
    ensures AllLowered(LowerBlockArg(n, b).0.functions)
    decreases n, 0
  {
    if !IsSymbolProc(n.body) {
      var names := EffectiveCaptures(n.captured, n.capturesSelf) + n.params;
      assert AllLowered([]);
      ParamsFunctions(names, |names|);
      BodyFunctions(n.body, LowerParams(names, |names|), 0);
      assert IsLowered(LowerFunction(names, n.body));
    }
  }

  lemma {:induction false} ParamsFunctions(params: seq<string>, i: nat)
    requires i <= |params|
    ensures LowerParams(params, i).functions == []
  {
    if i > 0 {
      ParamsFunctions(params, i - 1);
    }
  }

  lemma {:induction false} IfFunctions(n: Node, b: Builder)
    requires n.If? && AllLowered(b.functions)
    ensures AllLowered(IfCode(n, b).0.functions)
    decreases n, 0
  {
    hide LabelFor, LowerNode, LowerBody, AllLowered;
    NodeFunctions(n.cond, b);
    var (b1, c) := LowerNode(n.cond, b);
    var k := b1.nextBlock;
    var t, e, m := LabelFor("then", k), LabelFor("else", k + 1), LabelFor("merge", k + 2);
    var b2 := Turn(TakeLabels(b1, 3), CondBranch(c, t, e), t);
    BodyFunctions(n.thenBody, EmitNew(b2, LoadConst(b2.nextReg, ConstNil)), b2.nextReg);
    var (b3, x) := LowerBody(n.thenBody, EmitNew(b2, LoadConst(b2.nextReg, ConstNil)), b2.nextReg);
    var b4 := Turn(b3, Branch(m), e);
    BodyFunctions(n.elseBody, EmitNew(b4, LoadConst(b4.nextReg, ConstNil)), b4.nextReg);
    var (b5, y) := LowerBody(n.elseBody, EmitNew(b4, LoadConst(b4.nextReg, ConstNil)), b4.nextReg);
  }

  lemma {:induction false} LoopFunctions(n: Node, b: Builder)
    requires n.Loop? && AllLowered(b.functions)
    ensures AllLowered(LoopCode(n, b).0.functions)
    decreases n, 0
  {
    hide LabelFor, LowerBody, AllLowered;
    var k := b.nextBlock;
    var t, y, x := LabelFor("loop_cond", k), LabelFor("loop_body", k + 1), LabelFor("loop_exit", k + 2);
    var b1 := Turn(TakeLabels(b, 3), Branch(t), t);
    NodeFunctions(n.cond, b1);
    var (b2, c) := LowerNode(n.cond, b1);
    BodyFunctions(n.body, Turn(b2, CondBranch(c, y, x), y), 0);
  }

  lemma {:induction false} BodyFunctions(ns: seq<Node>, b: Builder, last: RegId)
    requires AllLowered(b.functions)
    ensures AllLowered(LowerBody(ns, b, last).0.functions)
    decreases ns, 0
  {
    hide AllLowered;
    if ns != [] {
      NodeFunctions(ns[0], b);
      var (b1, r) := LowerNode(ns[0], b);
      BodyFunctions(ns[1..], b1, r);
    }
  }

  lemma {:induction false} AllFunctions(ns: seq<Node>, b: Builder)
    requires AllLowered(b.functions)
    ensures AllLowered(LowerAll(ns, b).0.functions)
    decreases ns, 0
  {
    hide AllLowered;
    if ns != [] {
      NodeFunctions(ns[0], b);
      AllFunctions(ns[1..], LowerNode(ns[0], b).0);
    }
  }

  // Every block, however deeply nested, becomes a lowered function of its own.
  lemma BlocksAreLowered(params: seq<string>, body: seq<Node>)
    ensures AllLowered(BlockFunctions(params, body))
  {
    ParamsFunctions(params, |params|);
    assert AllLowered([]);
    BodyFunctions(body, LowerParams(params, |params|), 0);
  }

  // ---------------------------------------------------------------- the state of lowering, in place

  class HirLowering {
    var nextReg: nat
    var nextBlock: nat
    var currentBlocks: seq<BasicBlock>
    var currentInsts: seq<Inst>
    var pendingLabel: Option<Label>
    var blockFunctions: seq<NamedFunc>

    constructor ()
      ensures State() == EMPTY
    {
      nextReg, nextBlock, currentBlocks, currentInsts, pendingLabel := 0, 0, [], [], None;
      blockFunctions := [];
    }

    function State(): Builder
      reads this
    {
      Builder(nextReg, nextBlock, currentBlocks, currentInsts, pendingLabel, blockFunctions)
    }

    method AllocReg() returns (r: RegId)
      modifies this
      ensures r == old(nextReg) && State() == old(State()).(nextReg := r + 1)
    {
      r := nextReg;
      nextReg := nextReg + 1;
    }

    method MakeLabel(prefix: string) returns (lbl: Label)
      modifies this
      ensures lbl == LabelFor(prefix, old(nextBlock)) && State() == TakeLabels(old(State()), 1)
    {
      lbl := LabelFor(prefix, nextBlock);
      nextBlock := nextBlock + 1;
    }

    method EmitInst(inst: Inst)
      modifies this
      ensures State() == Emit(old(State()), inst)
    {
      currentInsts := currentInsts + [inst];
    }

    method Finish(term: Terminator)
      modifies this
      ensures State() == FinishBlock(old(State()), term)
    {
      var lbl := match pendingLabel
        case Some(l) => l
        case None => LabelFor(if currentBlocks == [] then "entry" else "bb", |currentBlocks|);
      pendingLabel := None;
      currentBlocks, currentInsts := currentBlocks + [BasicBlock(lbl, currentInsts, term)], [];
    }

    method Start(lbl: Label)
      modifies this
      ensures State() == StartBlock(old(State()), lbl)
    {
      pendingLabel := Some(lbl);
    }

    method LoadNil() returns (r: RegId)
      modifies this
      ensures r == old(nextReg) && State() == EmitNew(old(State()), LoadConst(r, ConstNil))
    {
      r := AllocReg();
      EmitInst(LoadConst(r, ConstNil));
    }

    method LowerTree(n: Node) returns (r: RegId)
      modifies this
      ensures (State(), r) == LowerNode(n, old(State()))
      decreases n, 2
    {
      hide IfCode, LoopCode, LowerBlockArg, SendToSelf;
      match n
      case Literal(c) =>
        r := AllocReg();
        EmitInst(LoadConst(r, c));
      case VarRef(name) =>
        r := AllocReg();
        EmitInst(Load(r, name));
      case BinaryOp(op, left, right) =>
        var x := LowerTree(left);
        var y := LowerTree(right);
        r := AllocReg();
        EmitInst(Binary(r, op, x, y));
      case UnaryOp(op, operand) =>
        var x := LowerTree(operand);
        r := AllocReg();
        EmitInst(Unary(r, op, x));
      case CallNode(name, args) =>
        var processed := LowerTrees(args);
        r := AllocReg();
        EmitInst(Call(r, name, processed));
      case BlockCall(_, _, _, _, _, _) =>
        r := LowerCallWithBlock(n);
      case Assign(name, value) =>
        r := LowerTree(value);
        EmitInst(Store(name, r));
      case If(cond, thenBody, elseBody) =>
        r := LowerIf(n);
      case Loop(cond, body) =>
        r := LowerLoop(n);
      case ReturnNode(result) =>
        var v: Option<RegId> := None;
        if result.Some? {
          var x := LowerTree(result.value);
          v := Some(x);
        }
        Finish(Return(v));
        var after := MakeLabel("after_return");
        Start(after);
        r := LoadNil();
      case Sequence(nodes) =>
        var first := LoadNil();
        r := LowerStatements(nodes, first);
      case NopNode =>
        r := LoadNil();
    }

    /** One arm of a conditional, in a block of its own. */
    method LowerArm(term: Terminator, lbl: Label, body: seq<Node>) returns (r: RegId)
      modifies this
      ensures var b := Turn(old(State()), term, lbl);
              (State(), r) == LowerBody(body, EmitNew(b, LoadConst(b.nextReg, ConstNil)), b.nextReg)
      decreases body, 1
    {
      Finish(term);
      Start(lbl);
      r := LoadNil();
      r := LowerStatements(body, r);
    }

    method LowerIf(n: Node) returns (r: RegId)
      requires n.If?
      modifies this
      ensures (State(), r) == IfCode(n, old(State()))
      decreases n, 1
    {
      hide LabelFor, LowerNode, LowerBody;
      var c := LowerTree(n.cond);
      var thenLabel := MakeLabel("then");
      var elseLabel := MakeLabel("else");
      var mergeLabel := MakeLabel("merge");
      var thenResult := LowerArm(CondBranch(c, thenLabel, elseLabel), thenLabel, n.thenBody);
      var elseResult := LowerArm(Branch(mergeLabel), elseLabel, n.elseBody);
      Finish(Branch(mergeLabel));
      Start(mergeLabel);
      r := AllocReg();
      EmitInst(Copy(r, thenResult));
    }

    method LowerLoop(n: Node) returns (r: RegId)
      requires n.Loop?
      modifies this
      ensures (State(), r) == LoopCode(n, old(State()))
      decreases n, 1
    {
      hide LabelFor, LowerNode, LowerBody;
      var condLabel := MakeLabel("loop_cond");
      var bodyLabel := MakeLabel("loop_body");
      var exitLabel := MakeLabel("loop_exit");
      Finish(Branch(condLabel));
      Start(condLabel);
      var c := LowerTree(n.cond);
      Finish(CondBranch(c, bodyLabel, exitLabel));
      Start(bodyLabel);
      var last := LowerStatements(n.body, 0);
      Finish(Branch(condLabel));
      Start(exitLabel);
      r := LoadNil();
    }

    method LowerStatements(ns: seq<Node>, first: RegId) returns (last: RegId)
      modifies this
      ensures (State(), last) == LowerBody(ns, old(State()), first)
      decreases ns, 0
    {
      last := first;
      var i := 0;
      while i < |ns|
        invariant i <= |ns|
        invariant LowerBody(ns[i..], State(), last) == LowerBody(ns, old(State()), first)
      {
        assert ns[i..][1..] == ns[i + 1..];
        last := LowerTree(ns[i]);
        i := i + 1;
      }
    }

    method LowerTrees(ns: seq<Node>) returns (rs: seq<RegId>)
      modifies this
      ensures (State(), rs) == LowerAll(ns, old(State()))
      decreases ns, 0
    {
      rs := [];
      var i := 0;
      while i < |ns|
        invariant i <= |ns|
        invariant LowerAll(ns[i..], State()).0 == LowerAll(ns, old(State())).0
        invariant rs + LowerAll(ns[i..], State()).1 == LowerAll(ns, old(State())).1
      {
        assert ns[i..][1..] == ns[i + 1..];
        var r := LowerTree(ns[i]);
        rs := rs + [r];
        i := i + 1;
      }
      assert ns[i..] == [] && rs + [] == rs;
    }

    method LowerCallWithBlock(n: Node) returns (r: RegId)
      requires n.BlockCall?
      modifies this
      ensures (State(), r) == LowerNode(n, old(State()))
      decreases n, 1
    {
      hide LowerAll, FinishedBody;
      var processed := LowerTrees(n.args);
      if n.body == [] {
        r := AllocReg();
        EmitInst(Call(r, n.name, processed));
        return;
      }
      var block := LowerBlockArgument(n);
      ghost var before := currentInsts;
      r := AllocReg();
      var recv := AllocReg();
      EmitInst(Load(recv, SELF));
      var selector := AllocReg();
      EmitInst(LoadConst(selector, ConstSymbol(n.name)));
      EmitInst(Send(r, recv, selector, processed, Some(block)));
      assert currentInsts == before
          + [Load(recv, SELF), LoadConst(selector, ConstSymbol(n.name)),
             Send(r, recv, selector, processed, Some(block))];
    }

    method LowerBlockArgument(n: Node) returns (block: RegId)
      requires n.BlockCall?
      modifies this
      ensures (State(), block) == LowerBlockArg(n, old(State()))
      decreases n, 0
    {
      if IsSymbolProc(n.body) {
        var symbol := AllocReg();
        EmitInst(LoadConst(symbol, n.body[0].c));
        block := AllocReg();
        EmitInst(SymbolToProc(block, symbol));
        return;
      }
      var symbol := BlockName(n.name, nextReg);
      var all := n.captured;
      if n.capturesSelf && (n.captured == [] || n.captured[0] != SELF) {
        all := [SELF] + n.captured;
      }
      var func := LowerBlockFunction(n.params, n.body, all);
      blockFunctions := blockFunctions + [NamedFunc(symbol, func)];
      block := KeepCaptures(symbol, all);
    }

    method KeepCaptures(symbol: string, captured: seq<string>) returns (block: RegId)
      modifies this
      ensures State() == CreateBlock(old(State()), symbol, captured) && block == old(nextReg) + |captured|
    {
      var captureRegs := [];
      ghost var base := nextReg;
      for i := 0 to |captured|
        invariant captureRegs == RegsFrom(base, i)
        invariant State() == old(State()).(
                    nextReg := base + i, insts := old(currentInsts) + LoadNames(captured, base)[..i])
      {
        var reg := AllocReg();
        EmitInst(Load(reg, captured[i]));
        captureRegs := captureRegs + [reg];
      }
      assert LoadNames(captured, base)[..|captured|] == LoadNames(captured, base);
      block := AllocReg();
      EmitInst(BlockCreate(block, symbol, captureRegs));
    }

    method LowerFunc(params: seq<string>, body: seq<Node>) returns (func: Func)
      modifies this
      ensures func == LowerFunction(params, body)
      ensures blockFunctions == old(blockFunctions) + BlockFunctions(params, body)
    {
      nextReg, nextBlock, currentBlocks, currentInsts, pendingLabel := 0, 0, [], [], None;
      var regs := StoreParams(params, 0, |params|);
      assert regs == ParamRegs(|params|);
      BodyApart(old(blockFunctions), body, LowerParams(params, |params|), 0);
      var last := LowerStatements(body, 0);
      Finish(Return(if body == [] then None else Some(last)));
      func := Func(regs, currentBlocks);
    }

    // The state is set aside while the block's own function is lowered, and put back afterwards.
    method LowerBlockFunction(params: seq<string>, body: seq<Node>, captured: seq<string>) returns (func: Func)
      modifies this
      ensures func == LowerFunction(captured + params, body)
      ensures State() == old(State()).(functions := old(blockFunctions) + BlockFunctions(captured + params, body))
      decreases body, 1
    {
      hide LowerBody;
      var savedReg, savedBlock := nextReg, nextBlock;
      var savedBlocks, savedInsts, savedPending := currentBlocks, currentInsts, pendingLabel;
      nextReg, nextBlock, currentBlocks, currentInsts, pendingLabel := 0, 0, [], [], None;
      var captureRegs := StoreParams(captured + params, 0, |captured|);
      var paramRegs := StoreParams(captured + params, |captured|, |captured + params|);
      BodyApart(old(blockFunctions), body, LowerParams(captured + params, |captured + params|), 0);
      var last := LowerStatements(body, 0);
      Finish(Return(if body == [] then None else Some(last)));
      func := Func(captureRegs + paramRegs, currentBlocks);
      assert captureRegs + paramRegs == ParamRegs(|captured + params|);
      nextReg, nextBlock := savedReg, savedBlock;
      currentBlocks, currentInsts, pendingLabel := savedBlocks, savedInsts, savedPending;
    }

    /** Give the names from lo to hi a register each, and store it under the name. */
    method StoreParams(names: seq<string>, lo: nat, hi: nat) returns (regs: seq<RegId>)
      requires lo <= hi <= |names| && State() == With(blockFunctions, LowerParams(names, lo)) && nextReg == lo
      modifies this
      ensures State() == With(old(blockFunctions), LowerParams(names, hi)) && nextReg == hi
      ensures blockFunctions == old(blockFunctions)
      ensures |regs| == hi - lo && forall k :: 0 <= k < |regs| ==> regs[k] == lo + k
    {
      regs := [];
      for i := lo to hi
        invariant State() == With(old(blockFunctions), LowerParams(names, i)) && nextReg == i
        invariant blockFunctions == old(blockFunctions)
        invariant |regs| == i - lo && forall k :: 0 <= k < |regs| ==> regs[k] == lo + k
      {
        var r := AllocReg();
        EmitInst(Store(names[i], r));
        regs := regs + [r];
      }
    }
  }
}
