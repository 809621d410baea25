/** What a call with a block passes: the last instruction of its code, and its operands when a run comes to it. */
module BlockSends {
  import opened Mir
  import opened Hir
  import opened Lower
  import opened LowerMeaning
  import opened LowerCorrect
  import opened Closures

  /**
    The block of a call whose arguments end at this count of registers: for a single symbol the method of that name,
    otherwise the function of the block with what it captures, self in front unless it is there anyway.
   */
  ghost predicate IsBlockOf(n: Node, count: nat, here: State, v: Value)
    requires n.BlockCall?
  {
    && v.Block?
    && if |n.body| == 1 && n.body[0].Literal? && n.body[0].c.ConstSymbol? then
         v.funcSymbol == n.body[0].c.s && v.captured == []
       else
         && v.funcSymbol == "block_in_" + n.name + "_" + Decimal(count)
         && var first := if n.capturesSelf && (n.captured == [] || n.captured[0] != SELF) then 1 else 0;
         && |v.captured| == first + |n.captured|
         && (first == 1 ==> v.captured[0] == ReadName(here, SELF))
         && forall k :: 0 <= k < |n.captured| ==> v.captured[first + k] == ReadName(here, n.captured[k])
  }

  lemma BlockIsCreated(m: Mode, world: World, n: Node, b: Builder, here: State)
    requires n.BlockCall?
    ensures var e := ExecFrom(m, world, BlockArgInsts(n, b), 0, here);
            e.Next? && SameMemory(here, e.st) && IsBlockOf(n, b.nextReg, here, Get(e.st.regs, LowerBlockArg(n, b).1))
  {
    hide FinishedBody, ReadName;
    if IsSymbolProc(n.body) {
      SymbolIsPassed(m, world, n, b, here);
    } else {
      CreationCaptures(m, world, n, b, here);
    }
  }

  lemma SymbolIsPassed(m: Mode, world: World, n: Node, b: Builder, here: State)
    requires n.BlockCall? && IsSymbolProc(n.body)
    ensures var e := ExecFrom(m, world, BlockArgInsts(n, b), 0, here);
            e.Next? && SameMemory(here, e.st) && Get(e.st.regs, LowerBlockArg(n, b).1) == Block(n.body[0].c.s, [])
  {
    var r, insts := b.nextReg, BlockArgInsts(n, b);
    var s1 := SetReg(here, r, Symbol(n.body[0].c.s));
    var s2 := SetReg(s1, r + 1, Block(n.body[0].c.s, []));
    assert ExecFrom(m, world, insts, 2, s2) == Next(s2);
    assert ExecFrom(m, world, insts, 1, s1) == Next(s2);
  }

  // Of every call with a block, wherever it stands: a run that comes through the arguments comes to the send, which
  // is the last instruction of its code, and then the send has the block, self, the name and the arguments.
  lemma BlockIsPassed(p: Place, n: Node, b: Builder, h: State, st: State, gas: nat) returns (before: Builder, at: State)
    requires n.BlockCall? && n.body != [] && UniqueLabels(p.bs) && WellValued(n)
    requires Fits(p, LowerNode(n, b).0) && SameMemory(h, st) && EvalAll(p.m, p.world, n.args, h, gas).AllDone?
    ensures var (b2, r) := LowerNode(n, b);
            var e, count := EvalAll(p.m, p.world, n.args, h, gas), LowerAll(n.args, b).0.nextReg;
            && b2.insts != [] && b2.blocks == before.blocks
            && var send := b2.insts[|b2.insts| - 1];
            && b2.insts == before.insts + [send]
            && Goes(p, b, st, gas, before, at, e.gas) && SameMemory(e.st, at)
            && send.Send? && send.dest == r
            && send.block.Some? && IsBlockOf(n, count, e.st, Get(at.regs, send.block.value))
            && Get(at.regs, send.recv) == ReadName(e.st, SELF) && Get(at.regs, send.selector) == Symbol(n.name)
            && GetAll(at.regs, send.args) == e.vs
  {
    hide Fits, RunFrom, Grows, LowerBlockArg, IsBlockOf, ReadName;
    var (b1, rs) := LowerAll(n.args, b);
    var (b2, block) := LowerBlockArg(n, b1);
    var r, b3 := b2.nextReg, LowerNode(n, b).0;
    var added := [Load(r + 1, SELF), LoadConst(r + 2, ConstSymbol(n.name))];
    before := b2.(nextReg := r + 3, insts := b2.insts + added);
    SendGrows(b2, n.name, rs, block);
    FitsEarlier(p, b2, b3);
    var e := EvalAll(p.m, p.world, n.args, h, gas);
    var st3 := ToTheBlock(p, n, b, h, st, gas);
    assert b3.insts == before.insts + [b3.insts[|b3.insts| - 1]];
    EmitGrows(before, b3.insts[|b3.insts| - 1], b3);
    FitsEarlier(p, before, b3);
    at := ToTheSend(p, b2, before, n.name, st3, e.gas);
    NamesSeeMemoryOnly(e.st, st3, SELF, Nil);
    SameOperands(st3, at, rs, r, r + 3);
    GoesTransitive(p, b, st, gas, b2, st3, e.gas, before, at, e.gas);
  }

  // The arguments are evaluated, and the block is made.
  lemma ToTheBlock(p: Place, n: Node, b: Builder, h: State, st: State, gas: nat) returns (st3: State)
    requires n.BlockCall? && n.body != [] && UniqueLabels(p.bs) && WellValued(n) && SameMemory(h, st)
    requires Fits(p, LowerBlockArg(n, LowerAll(n.args, b).0).0) && EvalAll(p.m, p.world, n.args, h, gas).AllDone?
    ensures var (b1, rs) := LowerAll(n.args, b);
            var (b2, block) := LowerBlockArg(n, b1);
            var e := EvalAll(p.m, p.world, n.args, h, gas);
            && Goes(p, b, st, gas, b2, st3, e.gas) && SameMemory(e.st, st3)
            && (forall q :: q in rs ==> q < b2.nextReg) && GetAll(st3.regs, rs) == e.vs
            && block < b2.nextReg && IsBlockOf(n, b1.nextReg, e.st, Get(st3.regs, block))
  {
    hide Fits, RunFrom, Grows, LowerBlockArg, IsBlockOf, ReadName;
    var (b1, rs) := LowerAll(n.args, b);
    var (b2, block) := LowerBlockArg(n, b1);
    AllGrow(n.args, b);
    GrowsRegs(b, b1);
    BlockArgGrows(n, b1);
    FitsEarlier(p, b1, b2);
    var st1 := AllRun(p, n.args, b, h, st, gas);
    var e := EvalAll(p.m, p.world, n.args, h, gas);
    st3 := BlockArgRuns(p, n, b1, st1, e.gas);
    BlockArgRegs(n, b1);
    BlockIsCreated(p.m, p.world, n, b1, st1);
    SameNames(n, b1.nextReg, st1, e.st, Get(st3.regs, block));
    SameOperands(st1, st3, rs, b1.nextReg, b2.nextReg);
    GoesTransitive(p, b, st, gas, b1, st1, e.gas, b2, st3, e.gas);
  }

  lemma BlockArgRegs(n: Node, b: Builder)
    requires n.BlockCall?
    ensures b.nextReg <= LowerBlockArg(n, b).1 < LowerBlockArg(n, b).0.nextReg
  {
    BlockArgEmits(n, b);
  }

  lemma SameNames(n: Node, count: nat, here: State, there: State, v: Value)
    requires n.BlockCall? && SameMemory(here, there) && IsBlockOf(n, count, here, v)
    ensures IsBlockOf(n, count, there, v)
  {
    hide ReadName;
    forall name
      ensures ReadName(here, name) == ReadName(there, name)
    {
      NamesSeeMemoryOnly(here, there, name, Nil);
    }
  }

  // Self and the name are loaded, and nothing else changes.
  lemma ToTheSend(p: Place, b: Builder, before: Builder, name: string, st: State, gas: nat) returns (at: State)
    requires var r := b.nextReg;
             before == b.(nextReg := r + 3, insts := b.insts + [Load(r + 1, SELF), LoadConst(r + 2, ConstSymbol(name))])
    requires Fits(p, before)
    ensures Goes(p, b, st, gas, before, at, gas) && SameMemory(st, at) && Kept(st, at, b.nextReg, b.nextReg + 3)
    ensures Get(at.regs, b.nextReg + 1) == ReadName(st, SELF) && Get(at.regs, b.nextReg + 2) == Symbol(name)
  {
    hide Fits, RunFrom, Grows, ReadName;
    var r := b.nextReg;
    var insts := [Load(r + 1, SELF), LoadConst(r + 2, ConstSymbol(name))];
    var s1 := SetReg(st, r + 1, ReadName(st, SELF));
    at := SetReg(s1, r + 2, Symbol(name));
    assert ExecFrom(p.m, p.world, insts, 2, at) == Next(at);
    assert ExecFrom(p.m, p.world, insts, 1, s1) == Next(at);
    StretchGoes(p, b, insts, before, st, gas);
  }
}
