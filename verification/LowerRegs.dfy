/** Every tree lowers to code in which no register is defined twice. */
module LowerRegs {
  import opened Options
  import opened Mir
  import opened Ssa
  import opened Hir
  import opened Lower

  // ---------------------------------------------------------------- the defined registers, in layout order

  function Defs(insts: seq<Inst>, n: nat): seq<RegId>
    requires n <= |insts|
  {
    if n == 0 then []
    else Defs(insts, n - 1) + if Dest(insts[n - 1]).Some? then [Dest(insts[n - 1]).value] else []
  }

  function BlockDefs(bs: seq<BasicBlock>, n: nat): seq<RegId>
    requires n <= |bs|
  {
    if n == 0 then [] else BlockDefs(bs, n - 1) + Defs(bs[n - 1].insts, |bs[n - 1].insts|)
  }

  /** The registers defined in the code so far. */
  function Regs(b: Builder): seq<RegId> {
    BlockDefs(b.blocks, |b.blocks|) + Defs(b.insts, |b.insts|)
  }

  predicate Distinct(rs: seq<RegId>, lo: nat, hi: nat) {
    && lo <= hi && (forall k :: 0 <= k < |rs| ==> lo <= rs[k] < hi)
    && forall j, k :: 0 <= j < k < |rs| ==> rs[j] != rs[k]
  }

  /** From b to b' the code defines fresh registers, each one once. */
  predicate Defines(b: Builder, b': Builder, more: seq<RegId>) {
    Regs(b') == Regs(b) + more && Distinct(more, b.nextReg, b'.nextReg)
  }

  lemma DefinesThen(b: Builder, b1: Builder, first: seq<RegId>, b2: Builder, second: seq<RegId>)
    requires Defines(b, b1, first) && Defines(b1, b2, second)
    ensures Defines(b, b2, first + second)
  {
    hide Regs;
    assert Regs(b) + (first + second) == (Regs(b) + first) + second;
  }

  // ---------------------------------------------------------------- single steps

  lemma {:induction false} DefsPrefix(insts: seq<Inst>, inst: Inst, n: nat)
    requires n <= |insts|
    ensures Defs(insts + [inst], n) == Defs(insts, n)
  {
    if n > 0 {
      DefsPrefix(insts, inst, n - 1);
    }
  }

  lemma {:induction false} BlockDefsPrefix(bs: seq<BasicBlock>, block: BasicBlock, n: nat)
    requires n <= |bs|
    ensures BlockDefs(bs + [block], n) == BlockDefs(bs, n)
  {
    if n > 0 {
      BlockDefsPrefix(bs, block, n - 1);
    }
  }

  lemma EmitDefines(b: Builder, inst: Inst)
    requires Dest(inst) == Some(b.nextReg)
    ensures Defines(b, EmitNew(b, inst), [b.nextReg])
  {
    DefsPrefix(b.insts, inst, |b.insts|);
    var all := BlockDefs(b.blocks, |b.blocks|);
    assert all + (Defs(b.insts, |b.insts|) + [b.nextReg]) == (all + Defs(b.insts, |b.insts|)) + [b.nextReg];
  }

  lemma {:induction false} DefsConcat(insts: seq<Inst>, added: seq<Inst>, n: nat)
    requires n <= |added|
    ensures Defs(insts + added, |insts| + n) == Defs(insts, |insts|) + Defs(added, n)
  {
    if n > 0 {
      DefsConcat(insts, added, n - 1);
    } else {
      DefsOfPrefix(insts, added, |insts|);
    }
  }

  lemma {:induction false} DefsOfPrefix(insts: seq<Inst>, added: seq<Inst>, n: nat)
    requires n <= |insts|
    ensures Defs(insts + added, n) == Defs(insts, n)
  {
    if n > 0 {
      DefsOfPrefix(insts, added, n - 1);
    }
  }

  lemma EmitAllDefines(b: Builder, b': Builder, added: seq<Inst>)
    requires b' == b.(nextReg := b'.nextReg, insts := b.insts + added)
    requires Distinct(Defs(added, |added|), b.nextReg, b'.nextReg)
    ensures Defines(b, b', Defs(added, |added|))
  {
    hide Defs, BlockDefs, Distinct;
    DefsConcat(b.insts, added, |added|);
    var all := BlockDefs(b.blocks, |b.blocks|);
    assert all + (Defs(b.insts, |b.insts|) + Defs(added, |added|))
        == (all + Defs(b.insts, |b.insts|)) + Defs(added, |added|);
  }

  lemma {:induction false} LoadsDefine(names: seq<string>, base: RegId, n: nat)
    requires n <= |names|
    ensures Defs(LoadNames(names, base), n) == RegsFrom(base, n)
  {
    if n > 0 {
      LoadsDefine(names, base, n - 1);
    }
  }

  lemma SendDefines(b: Builder, name: string, args: seq<RegId>, block: RegId) returns (more: seq<RegId>)
    ensures Defines(b, SendToSelf(b, name, args, block), more)
  {
    var r := b.nextReg;
    var added := [Load(r + 1, SELF), LoadConst(r + 2, ConstSymbol(name)), Send(r, r + 1, r + 2, args, Some(block))];
    more := [r + 1, r + 2, r];
    assert Defs(added, 0) == [] && Defs(added, 1) == [r + 1] && Defs(added, 2) == [r + 1, r + 2];
    assert Defs(added, 3) == more;
    EmitAllDefines(b, SendToSelf(b, name, args, block), added);
  }

  lemma CreateBlockDefines(b: Builder, symbol: string, captured: seq<string>) returns (more: seq<RegId>)
    ensures Defines(b, CreateBlock(b, symbol, captured), more)
  {
    hide Defines;
    var b1 := b.(nextReg := b.nextReg + |captured|, insts := b.insts + LoadNames(captured, b.nextReg));
    LoadsDefine(captured, b.nextReg, |captured|);
    EmitAllDefines(b, b1, LoadNames(captured, b.nextReg));
    var create := BlockCreate(b1.nextReg, symbol, RegsFrom(b.nextReg, |captured|));
    EmitDefines(b1, create);
    more := RegsFrom(b.nextReg, |captured|) + [b1.nextReg];
    DefinesThen(b, b1, RegsFrom(b.nextReg, |captured|), EmitNew(b1, create), [b1.nextReg]);
  }

  lemma BlockArgDefines(n: Node, b: Builder) returns (more: seq<RegId>)
    requires n.BlockCall?
    ensures Defines(b, LowerBlockArg(n, b).0, more)
  {
    hide Defines, FinishedBody;
    if IsSymbolProc(n.body) {
      var b1 := EmitNew(b, LoadConst(b.nextReg, n.body[0].c));
      EmitDefines(b, LoadConst(b.nextReg, n.body[0].c));
      EmitDefines(b1, SymbolToProc(b1.nextReg, b.nextReg));
      more := [b.nextReg] + [b1.nextReg];
      DefinesThen(b, b1, [b.nextReg], LowerBlockArg(n, b).0, [b1.nextReg]);
    } else {
      var symbol, all := BlockName(n.name, b.nextReg), EffectiveCaptures(n.captured, n.capturesSelf);
      more := CreateBlockDefines(b, symbol, all);
      RelabelDefines(CreateBlock(b, symbol, all), LowerBlockArg(n, b).0);
      DefinesThen(b, CreateBlock(b, symbol, all), more, LowerBlockArg(n, b).0, []);
      more := more + [];
    }
  }

  lemma StoreDefines(b: Builder, name: string, r: RegId)
    ensures Defines(b, Emit(b, Store(name, r)), [])
  {
    DefsPrefix(b.insts, Store(name, r), |b.insts|);
    assert Regs(b) + [] == Regs(b);
  }

  lemma FinishDefines(b: Builder, term: Terminator)
    ensures Defines(b, FinishBlock(b, term), [])
  {
    var block := BasicBlock(OpenLabel(b), b.insts, term);
    BlockDefsPrefix(b.blocks, block, |b.blocks|);
    assert Defs([], 0) == [];
    assert Regs(b) + [] == Regs(b);
  }

  lemma RelabelDefines(b: Builder, b': Builder)
    requires b' == b.(nextBlock := b'.nextBlock, pending := b'.pending, functions := b'.functions)
    ensures Defines(b, b', [])
  {
    assert Regs(b) + [] == Regs(b);
  }

  lemma TurnDefines(b: Builder, term: Terminator, lbl: Label, n: nat)
    ensures Defines(b, Turn(TakeLabels(b, n), term, lbl), [])
  {
    RelabelDefines(b, TakeLabels(b, n));
    FinishDefines(TakeLabels(b, n), term);
    DefinesThen(b, TakeLabels(b, n), [], FinishBlock(TakeLabels(b, n), term), []);
    RelabelDefines(FinishBlock(TakeLabels(b, n), term), Turn(TakeLabels(b, n), term, lbl));
    DefinesThen(b, FinishBlock(TakeLabels(b, n), term), [], Turn(TakeLabels(b, n), term, lbl), []);
  }

  // ---------------------------------------------------------------- trees

  lemma {:induction false} NodeDefines(n: Node, b: Builder) returns (more: seq<RegId>)
    ensures Defines(b, LowerNode(n, b).0, more)
    decreases n, 2
  {
    hide Defines, IfCode, LoopCode;
    match n
    case Literal(c) =>
      EmitDefines(b, LoadConst(b.nextReg, c));
      more := [b.nextReg];
    case VarRef(name) =>
      EmitDefines(b, Load(b.nextReg, name));
      more := [b.nextReg];
    case BinaryOp(op, left, right) =>
      var (b1, l) := LowerNode(left, b);
      var (b2, r) := LowerNode(right, b1);
      var first := NodeDefines(left, b);
      var second := NodeDefines(right, b1);
      DefinesThen(b, b1, first, b2, second);
      EmitDefines(b2, Binary(b2.nextReg, op, l, r));
      DefinesThen(b, b2, first + second, LowerNode(n, b).0, [b2.nextReg]);
      more := first + second + [b2.nextReg];
    case UnaryOp(op, operand) =>
      var (b1, x) := LowerNode(operand, b);
      var first := NodeDefines(operand, b);
      EmitDefines(b1, Unary(b1.nextReg, op, x));
      DefinesThen(b, b1, first, LowerNode(n, b).0, [b1.nextReg]);
      more := first + [b1.nextReg];
    case CallNode(name, args) =>
      var (b1, rs) := LowerAll(args, b);
      var first := AllDefine(args, b);
      EmitDefines(b1, Call(b1.nextReg, name, rs));
      DefinesThen(b, b1, first, LowerNode(n, b).0, [b1.nextReg]);
      more := first + [b1.nextReg];
    case BlockCall(_, _, _, _, _, _) => more := BlockCallDefines(n, b);
    case Assign(name, value) =>
      var (b1, v) := LowerNode(value, b);
      var first := NodeDefines(value, b);
      StoreDefines(b1, name, v);
      DefinesThen(b, b1, first, LowerNode(n, b).0, []);
      more := first + [];
    case If(_, _, _) => more := IfDefines(n, b);
    case Loop(_, _) => more := LoopDefines(n, b);
    case ReturnNode(_) => more := ReturnDefines(n, b);
    case Sequence(ns) => more := ArmDefines(ns, b);
    case NopNode =>
      EmitDefines(b, LoadConst(b.nextReg, ConstNil));
      more := [b.nextReg];
  }

  lemma {:induction false} BlockCallDefines(n: Node, b: Builder) returns (more: seq<RegId>)
    requires n.BlockCall?
    ensures Defines(b, LowerNode(n, b).0, more)
    decreases n, 1
  {
    hide Defines, LowerBlockArg, SendToSelf;
    var (b1, rs) := LowerAll(n.args, b);
    var first := AllDefine(n.args, b);
    if n.body == [] {
      EmitDefines(b1, Call(b1.nextReg, n.name, rs));
      DefinesThen(b, b1, first, LowerNode(n, b).0, [b1.nextReg]);
      more := first + [b1.nextReg];
    } else {
      var (b2, block) := LowerBlockArg(n, b1);
      var second := BlockArgDefines(n, b1);
      DefinesThen(b, b1, first, b2, second);
      var third := SendDefines(b2, n.name, rs, block);
      DefinesThen(b, b2, first + second, LowerNode(n, b).0, third);
      more := first + second + third;
    }
  }

  /** Load nil, and lower a body. */
  lemma {:induction false} ArmDefines(ns: seq<Node>, b: Builder) returns (more: seq<RegId>)
    ensures Defines(b, LowerBody(ns, EmitNew(b, LoadConst(b.nextReg, ConstNil)), b.nextReg).0, more)
    decreases ns, 1
  {
    hide Defines;
    var b1 := EmitNew(b, LoadConst(b.nextReg, ConstNil));
    EmitDefines(b, LoadConst(b.nextReg, ConstNil));
    var rest := BodyDefines(ns, b1, b.nextReg);
    DefinesThen(b, b1, [b.nextReg], LowerBody(ns, b1, b.nextReg).0, rest);
    more := [b.nextReg] + rest;
  }

  lemma {:induction false} IfDefines(n: Node, b: Builder) returns (more: seq<RegId>)
    requires n.If?
    ensures Defines(b, IfCode(n, b).0, more)
    decreases n, 1
  {
    hide Defines, LowerNode, LowerBody, LabelFor;
    var (b1, c) := LowerNode(n.cond, b);
    var k := b1.nextBlock;
    var t, e, m := LabelFor("then", k), LabelFor("else", k + 1), LabelFor("merge", k + 2);
    var b2 := Turn(TakeLabels(b1, 3), CondBranch(c, t, e), t);
    var (b3, x) := LowerBody(n.thenBody, EmitNew(b2, LoadConst(b2.nextReg, ConstNil)), b2.nextReg);
    var b4 := Turn(TakeLabels(b3, 0), Branch(m), e);
    var (b5, y) := LowerBody(n.elseBody, EmitNew(b4, LoadConst(b4.nextReg, ConstNil)), b4.nextReg);
    var b6 := Turn(TakeLabels(b5, 0), Branch(m), m);
    var one := NodeDefines(n.cond, b);
    TurnDefines(b1, CondBranch(c, t, e), t, 3);
    DefinesThen(b, b1, one, b2, []);
    var two := ArmDefines(n.thenBody, b2);
    DefinesThen(b, b2, one + [], b3, two);
    TurnDefines(b3, Branch(m), e, 0);
    DefinesThen(b, b3, one + [] + two, b4, []);
    var three := ArmDefines(n.elseBody, b4);
    DefinesThen(b, b4, one + [] + two + [], b5, three);
    TurnDefines(b5, Branch(m), m, 0);
    DefinesThen(b, b5, one + [] + two + [] + three, b6, []);
    EmitDefines(b6, Copy(b6.nextReg, x));
    DefinesThen(b, b6, one + [] + two + [] + three + [], EmitNew(b6, Copy(b6.nextReg, x)), [b6.nextReg]);
    assert TakeLabels(b3, 0) == b3 && TakeLabels(b5, 0) == b5;
    more := one + [] + two + [] + three + [] + [b6.nextReg];
  }

  lemma {:induction false} LoopDefines(n: Node, b: Builder) returns (more: seq<RegId>)
    requires n.Loop?
    ensures Defines(b, LoopCode(n, b).0, more)
    decreases n, 1
  {
    hide Defines, LowerBody, LabelFor;
    var k := b.nextBlock;
    var t, body, x := LabelFor("loop_cond", k), LabelFor("loop_body", k + 1), LabelFor("loop_exit", k + 2);
    var b1 := Turn(TakeLabels(b, 3), Branch(t), t);
    var (b2, c) := LowerNode(n.cond, b1);
    var b3 := Turn(TakeLabels(b2, 0), CondBranch(c, body, x), body);
    var b4 := LowerBody(n.body, b3, 0).0;
    var b5 := Turn(TakeLabels(b4, 0), Branch(t), x);
    TurnDefines(b, Branch(t), t, 3);
    var one := NodeDefines(n.cond, b1);
    DefinesThen(b, b1, [], b2, one);
    TurnDefines(b2, CondBranch(c, body, x), body, 0);
    DefinesThen(b, b2, [] + one, b3, []);
    var two := BodyDefines(n.body, b3, 0);
    DefinesThen(b, b3, [] + one + [], b4, two);
    TurnDefines(b4, Branch(t), x, 0);
    DefinesThen(b, b4, [] + one + [] + two, b5, []);
    EmitDefines(b5, LoadConst(b5.nextReg, ConstNil));
    DefinesThen(b, b5, [] + one + [] + two + [], EmitNew(b5, LoadConst(b5.nextReg, ConstNil)), [b5.nextReg]);
    assert TakeLabels(b2, 0) == b2 && TakeLabels(b4, 0) == b4;
    more := [] + one + [] + two + [] + [b5.nextReg];
  }

  lemma {:induction false} ReturnDefines(n: Node, b: Builder) returns (more: seq<RegId>)
    requires n.ReturnNode?
    ensures Defines(b, LowerNode(n, b).0, more)
    decreases n, 1
  {
    hide Defines, LabelFor;
    var b1, v, one := b, None, [];
    if n.result.Some? {
      b1, v := LowerNode(n.result.value, b).0, Some(LowerNode(n.result.value, b).1);
      one := NodeDefines(n.result.value, b);
    } else {
      RelabelDefines(b, b);
    }
    FinishDefines(b1, Return(v));
    DefinesThen(b, b1, one, FinishBlock(b1, Return(v)), []);
    var b2 := FinishBlock(b1, Return(v));
    var b3 := StartBlock(TakeLabels(b2, 1), LabelFor("after_return", b2.nextBlock));
    RelabelDefines(b2, b3);
    DefinesThen(b, b2, one + [], b3, []);
    EmitDefines(b3, LoadConst(b3.nextReg, ConstNil));
    DefinesThen(b, b3, one + [] + [], EmitNew(b3, LoadConst(b3.nextReg, ConstNil)), [b3.nextReg]);
    more := one + [] + [] + [b3.nextReg];
  }

  lemma {:induction false} BodyDefines(ns: seq<Node>, b: Builder, last: RegId) returns (more: seq<RegId>)
    ensures Defines(b, LowerBody(ns, b, last).0, more)
    decreases ns, 0
  {
    hide Defines;
    more := [];
    if ns == [] {
      RelabelDefines(b, b);
    } else {
      var (b1, r) := LowerNode(ns[0], b);
      var first := NodeDefines(ns[0], b);
      var rest := BodyDefines(ns[1..], b1, r);
      DefinesThen(b, b1, first, LowerBody(ns, b, last).0, rest);
      more := first + rest;
    }
  }

  lemma {:induction false} AllDefine(ns: seq<Node>, b: Builder) returns (more: seq<RegId>)
    ensures Defines(b, LowerAll(ns, b).0, more)
    decreases ns, 0
  {
    hide Defines;
    more := [];
    if ns == [] {
      RelabelDefines(b, b);
    } else {
      var b1 := LowerNode(ns[0], b).0;
      var first := NodeDefines(ns[0], b);
      var rest := AllDefine(ns[1..], b1);
      DefinesThen(b, b1, first, LowerAll(ns, b).0, rest);
      more := first + rest;
    }
  }

  // ---------------------------------------------------------------- functions

  /** How many definitions come before a place. */
  function DefsBefore(f: Func, b: nat, i: nat): nat
    requires b < |f.blocks| && i <= |f.blocks[b].insts|
  {
    |BlockDefs(f.blocks, b)| + |Defs(f.blocks[b].insts, i)|
  }

  lemma {:induction false} DefsPrefixOf(insts: seq<Inst>, i: nat, n: nat)
    requires i <= n <= |insts|
    ensures Defs(insts, i) <= Defs(insts, n)
    decreases n
  {
    if i < n {
      DefsPrefixOf(insts, i, n - 1);
    }
  }

  lemma {:induction false} BlockDefsPrefixOf(bs: seq<BasicBlock>, b: nat, n: nat)
    requires b <= n <= |bs|
    ensures BlockDefs(bs, b) <= BlockDefs(bs, n)
    decreases n
  {
    if b < n {
      BlockDefsPrefixOf(bs, b, n - 1);
    }
  }

  // A definition is found in the list of all at the number of definitions before it.
  lemma DefIndex(f: Func, r: RegId, b: nat, i: nat)
    requires Def(f, r, b, i)
    ensures var all := BlockDefs(f.blocks, |f.blocks|); DefsBefore(f, b, i) < |all| && all[DefsBefore(f, b, i)] == r
    ensures forall c: nat, j: nat ::
              At(f, c, j) && (c > b || (c == b && j > i)) ==> DefsBefore(f, b, i) < DefsBefore(f, c, j)
  {
    var insts := f.blocks[b].insts;
    DefsPrefixOf(insts, i + 1, |insts|);
    BlockDefsPrefixOf(f.blocks, b + 1, |f.blocks|);
    assert Defs(insts, i + 1)[|Defs(insts, i)|] == r;
    assert BlockDefs(f.blocks, b + 1)[DefsBefore(f, b, i)] == r;
    forall c: nat, j: nat | At(f, c, j) && (c > b || (c == b && j > i))
      ensures DefsBefore(f, b, i) < DefsBefore(f, c, j)
    {
      if c > b {
        BlockDefsPrefixOf(f.blocks, b + 1, c);
      } else {
        DefsPrefixOf(insts, i + 1, j);
      }
    }
  }

  lemma {:induction false} ParamsDefineNothing(params: seq<string>, i: nat)
    requires i <= |params|
    ensures Regs(LowerParams(params, i)) == [] && LowerParams(params, i).nextReg == i
  {
    if i > 0 {
      ParamsDefineNothing(params, i - 1);
      var b := LowerParams(params, i - 1);
      DefsPrefix(b.insts, Store(params[i - 1], b.nextReg), |b.insts|);
    }
  }

  // Whatever the tree: each register has at most one definition, and no parameter has any.
  lemma LoweredDefinesOnce(params: seq<string>, body: seq<Node>)
    ensures SingleDef(LowerFunction(params, body))
  {
    var f := LowerFunction(params, body);
    var b0 := LowerParams(params, |params|);
    ParamsDefineNothing(params, |params|);
    var (b, last) := LowerBody(body, b0, 0);
    var more := BodyDefines(body, b0, 0);
    FinishDefines(b, Return(if body == [] then None else Some(last)));
    var all := BlockDefs(f.blocks, |f.blocks|);
    assert all == more by {
      assert Defs([], 0) == [] && all + [] == all && [] + more == more && Regs(b) + [] == Regs(b);
    }
    forall r, c: nat, i: nat, d: nat, j: nat | Def(f, r, c, i) && Def(f, r, d, j)
      ensures c == d && i == j
    {
      DefIndex(f, r, c, i);
      DefIndex(f, r, d, j);
    }
    forall r, c: nat, i: nat | Def(f, r, c, i)
      ensures r !in f.params
    {
      DefIndex(f, r, c, i);
    }
  }

  // The same for the functions of the blocks in it, however deeply nested.
  lemma BlocksDefineOnce(params: seq<string>, body: seq<Node>)
    ensures forall k :: 0 <= k < |BlockFunctions(params, body)| ==> SingleDef(BlockFunctions(params, body)[k].func)
  {
    hide BlockFunctions, LowerFunction, SingleDef;
    BlocksAreLowered(params, body);
    forall k | 0 <= k < |BlockFunctions(params, body)|
      ensures SingleDef(BlockFunctions(params, body)[k].func)
    {
      assert IsLowered(BlockFunctions(params, body)[k].func);
      var ps, inner :| BlockFunctions(params, body)[k].func == LowerFunction(ps, inner);
      LoweredDefinesOnce(ps, inner);
    }
  }
}
