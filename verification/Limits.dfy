/**
  Where a pass does not preserve meaning: programs that show what goes wrong without the conditions that
  the soundness results carry, and what lowering itself loses.
 */
module Limits {
  import opened Ints
  import opened Options
  import opened Mir
  import opened Ssa
  import opened Rewriting
  import opened Removal
  import opened Scan
  import opened RewritingPasses
  import opened DeletingPasses
  import opened Fusion
  import opened Peephole
  import opened Hir
  import opened Lower
  import opened Interpreter

  ghost function Silent(): World {
    (trace: seq<Event>) => Answer(Nil, NO_GLOBALS)
  }

  const NO_GLOBALS := Globals(map[], map[])

  /** One run tells the two functions apart. */
  lemma TellApart(m: Mode, f: Func, g: Func, gas: nat)
    requires var o := RunFunc(m, Silent(), f, [], NO_GLOBALS, [], gas);
             !o.Aborted? && o != RunFunc(m, Silent(), g, [], NO_GLOBALS, [], gas)
    ensures !RefinesFunc(m, f, g)
  {
    assert !Refines(RunFunc(m, Silent(), f, [], NO_GLOBALS, [], gas),
                    RunFunc(m, Silent(), g, [], NO_GLOBALS, [], gas));
  }

  // ---------------------------------------------------------------- common subexpressions

  function TwoArms(second: Inst): Func {
    Func([0], [BasicBlock("entry", [], CondBranch(0, "then", "else")),
               BasicBlock("then", [Binary(1, Eq, 0, 0)], Return(Some(1))),
               BasicBlock("else", [second], Return(Some(2)))])
  }

  // The table of seen operations is carried from one arm of a conditional to the other.
  lemma ReuseNeedsDominance(m: Mode)
    ensures exists f, g :: Strict(f, iset{0, 1, 2}) && ReusesResults(f, g) && !RefinesFunc(m, f, g)
  {
    hide Strict, ReusesResults, RefinesFunc;
    var f, g := TwoArms(Binary(2, Eq, 0, 0)), TwoArms(Copy(2, 1));
    TwoArmsStrict();
    TwoArmsReused();
    SecondArmRuns(m, Binary(2, Eq, 0, 0), Bool(false));
    SecondArmRuns(m, Copy(2, 1), Nil);
    TellApart(m, f, g, 2);
  }

  lemma SecondArmRuns(m: Mode, second: Inst, v: Value)
    requires ExecInst(m, Silent(), second, State(map[0 := Nil], map[], NO_GLOBALS, []))
             == Next(State(map[0 := Nil, 2 := v], map[], NO_GLOBALS, []))
    ensures RunFunc(m, Silent(), TwoArms(second), [], NO_GLOBALS, [], 2) == Returned(v, NO_GLOBALS, [])
  {
    hide ExecInst, Silent;
    var f := TwoArms(second);
    var st, st2 := State(map[0 := Nil], map[], NO_GLOBALS, []), State(map[0 := Nil, 2 := v], map[], NO_GLOBALS, []);
    assert Enter(f, [], NO_GLOBALS, []) == st;
    assert |"entry"| == 5 && |"else"| == 4 && "then"[0] != "else"[0];
    assert f.blocks[0].lbl != "else" && f.blocks[1].lbl != "else" && f.blocks[2].lbl == "else";
    assert Find(f.blocks, "entry") == Some(0) && Find(f.blocks, "else") == Some(2);
    assert ExecFrom(m, Silent(), f.blocks[2].insts, 0, st) == Next(st2);
    assert Run(m, Silent(), f.blocks, "else", st, 1) == Returned(v, NO_GLOBALS, []);
    assert ExecFrom(m, Silent(), f.blocks[0].insts, 0, st) == Next(st);
  }

  lemma TwoArmsStrict()
    ensures Strict(TwoArms(Binary(2, Eq, 0, 0)), iset{0, 1, 2})
  {
    hide GoodUse;
    var f, live := TwoArms(Binary(2, Eq, 0, 0)), iset{0, 1, 2};
    assert forall b: nat, i: nat :: At(f, b, i) ==> i == 0 && 1 <= b <= 2;
    assert SingleDef(f);
    TwoArmsUses(f, live);
  }

  lemma TwoArmsUses(f: Func, live: iset<RegId>)
    requires f == TwoArms(Binary(2, Eq, 0, 0)) && live == iset{0, 1, 2}
    ensures forall b: nat :: b < 3 ==> GoodUse(f, live, 0, b, 0)
    ensures GoodUse(f, live, 1, 1, 1) && GoodUse(f, live, 2, 2, 1)
  {
    ParamIsAvailable(f, 0);
    assert Def(f, 1, 1, 0) && Def(f, 2, 2, 0);
  }

  lemma ParamIsAvailable(f: Func, r: RegId)
    requires r in f.params
    ensures forall b :: AvailableAtEntry(f, r, b)
  {
  }

  lemma TwoArmsReused()
    ensures ReusesResults(TwoArms(Binary(2, Eq, 0, 0)), TwoArms(Copy(2, 1)))
  {
    hide Strict;
    var f, g := TwoArms(Binary(2, Eq, 0, 0)), TwoArms(Copy(2, 1));
    var none: Seen := map[];
    assert forall b: nat, i: nat :: At(f, b, i) ==> i == 0 && 1 <= b <= 2;
    assert Entering(LearnBinary, none, Unchanged, f, g, 1) == none;
    assert After(LearnBinary, f.blocks[1].insts, g.blocks[1].insts, 1, none) == none[(6, 0, 0) := 1];
    assert Entering(LearnBinary, none, Unchanged, f, g, 2) == none[(6, 0, 0) := 1];
  }

  // ---------------------------------------------------------------- integer fusion

  function TwoSums(first: Inst, second: Inst): Func {
    Func([], [BasicBlock("entry", [LoadConst(0, ConstInteger(2)), first], Branch("next")),
              BasicBlock("next", [second], Return(Some(2)))])
  }

  // A result folded in one block is taken for 0 in the next: (2 + 2) + 2 becomes 2.
  lemma FusionNeedsLocalOperands(m: Mode)
    ensures exists f, g :: Strict(f, iset{0, 1, 2}) && FusesIntegers(f, g) && !RefinesFunc(m, f, g)
  {
    hide Strict, FusesIntegers, RefinesFunc;
    var f := TwoSums(Binary(1, Add, 0, 0), Binary(2, Add, 1, 0));
    var g := TwoSums(LoadConst(1, ConstInteger(4)), LoadConst(2, ConstInteger(2)));
    TwoSumsStrict();
    TwoSumsFused();
    SumsRun(m, Binary(1, Add, 0, 0), Binary(2, Add, 1, 0), 6);
    SumsRun(m, LoadConst(1, ConstInteger(4)), LoadConst(2, ConstInteger(2)), 2);
    TellApart(m, f, g, 2);
  }

  function SumState(sum: Int64): State {
    State(map[0 := Integer(2), 1 := Integer(4), 2 := Integer(sum)], map[], NO_GLOBALS, [])
  }

  lemma SumsRun(m: Mode, first: Inst, second: Inst, sum: Int64)
    requires var s0 := State(map[0 := Integer(2)], map[], NO_GLOBALS, []);
             var s1 := State(map[0 := Integer(2), 1 := Integer(4)], map[], NO_GLOBALS, []);
             && ExecInst(m, Silent(), first, s0) == Next(s1)
             && ExecInst(m, Silent(), second, s1) == Next(SumState(sum))
    ensures RunFunc(m, Silent(), TwoSums(first, second), [], NO_GLOBALS, [], 2)
            == Returned(Integer(sum), NO_GLOBALS, [])
  {
    hide Silent, EvalBinary, Faults;
    var f := TwoSums(first, second);
    var s0 := State(map[0 := Integer(2)], map[], NO_GLOBALS, []);
    var s1 := State(map[0 := Integer(2), 1 := Integer(4)], map[], NO_GLOBALS, []);
    var st := State(map[], map[], NO_GLOBALS, []);
    assert Enter(f, [], NO_GLOBALS, []) == st;
    assert |"entry"| == 5 && |"next"| == 4;
    assert f.blocks[0].lbl != "next" && f.blocks[1].lbl == "next";
    assert Find(f.blocks, "entry") == Some(0) && Find(f.blocks, "next") == Some(1);
    assert ExecFrom(m, Silent(), f.blocks[1].insts, 0, s1) == Next(SumState(sum));
    assert Run(m, Silent(), f.blocks, "next", s1, 1) == Returned(Integer(sum), NO_GLOBALS, []);
    assert ExecFrom(m, Silent(), f.blocks[0].insts, 1, s0) == Next(s1);
    assert ExecFrom(m, Silent(), f.blocks[0].insts, 0, st) == Next(s1);
  }

  lemma TwoSumsStrict()
    ensures Strict(TwoSums(Binary(1, Add, 0, 0), Binary(2, Add, 1, 0)), iset{0, 1, 2})
  {
    hide GoodUse, SingleDef;
    var f, live := TwoSums(Binary(1, Add, 0, 0), Binary(2, Add, 1, 0)), iset{0, 1, 2};
    assert forall b: nat, i: nat :: At(f, b, i) ==> (b == 0 && i <= 1) || (b == 1 && i == 0);
    TwoSumsDefs(f);
    TwoSumsUses(f, live);
  }

  lemma TwoSumsDefs(f: Func)
    requires f == TwoSums(Binary(1, Add, 0, 0), Binary(2, Add, 1, 0))
    ensures SingleDef(f)
  {
    assert forall b: nat, i: nat :: At(f, b, i) ==> (b == 0 && i <= 1) || (b == 1 && i == 0);
  }

  lemma TwoSumsUses(f: Func, live: iset<RegId>)
    requires f == TwoSums(Binary(1, Add, 0, 0), Binary(2, Add, 1, 0)) && live == iset{0, 1, 2}
    ensures GoodUse(f, live, 0, 0, 1) && GoodUse(f, live, 0, 1, 0) && GoodUse(f, live, 1, 1, 0)
    ensures GoodUse(f, live, 2, 1, 1)
  {
    assert Def(f, 0, 0, 0) && Def(f, 1, 0, 1) && Def(f, 2, 1, 0);
    EntryDominates(f, 0, 0);
    EntryDominates(f, 1, 1);
  }

  lemma EntryDominates(f: Func, r: RegId, i: nat)
    requires Def(f, r, 0, i)
    ensures forall b :: b != 0 ==> AvailableAtEntry(f, r, b)
  {
    forall b, p | b != 0 && PathTo(f, p, b)
      ensures DefinedBefore(f, r, p)
    {
      assert BlockDefines(f, p[0], r);
    }
  }

  lemma TwoSumsFused()
    ensures FusesIntegers(TwoSums(Binary(1, Add, 0, 0), Binary(2, Add, 1, 0)),
                          TwoSums(LoadConst(1, ConstInteger(4)), LoadConst(2, ConstInteger(2))))
  {
    hide Strict, FuseIntegers;
    var f := TwoSums(Binary(1, Add, 0, 0), Binary(2, Add, 1, 0));
    var g := TwoSums(LoadConst(1, ConstInteger(4)), LoadConst(2, ConstInteger(2)));
    var two := IntegerTable(map[0 := ConstInteger(2)], {});
    var three := IntegerTable(map[0 := ConstInteger(2), 1 := ConstInteger(0)], {});
    assert forall b: nat, i: nat :: At(f, b, i) ==> (b == 0 && i == 0) || (b == 0 && i == 1) || (b == 1 && i == 0);
    assert After(LearnInteger, f.blocks[0].insts, g.blocks[0].insts, 0, NO_INTEGERS) == NO_INTEGERS;
    assert After(LearnInteger, f.blocks[0].insts, g.blocks[0].insts, 1, NO_INTEGERS) == two;
    assert After(LearnInteger, f.blocks[0].insts, g.blocks[0].insts, 2, NO_INTEGERS) == two.(folded := {1});
    assert RecordPlaceholders(two.(folded := {1})) == three;
    assert Entering(LearnInteger, NO_INTEGERS, RecordPlaceholders, f, g, 0) == NO_INTEGERS;
    assert Entering(LearnInteger, NO_INTEGERS, RecordPlaceholders, f, g, 1) == three;
    SumsFold(two, three);
  }

  lemma SumsFold(two: IntegerTable, three: IntegerTable)
    requires two.known == map[0 := ConstInteger(2)] && three.known == map[0 := ConstInteger(2), 1 := ConstInteger(0)]
    ensures FuseIntegers(NO_INTEGERS, LoadConst(0, ConstInteger(2))) == Some(LoadConst(0, ConstInteger(2)))
    ensures FuseIntegers(two, Binary(1, Add, 0, 0)) == Some(LoadConst(1, ConstInteger(4)))
    ensures FuseIntegers(three, Binary(2, Add, 1, 0)) == Some(LoadConst(2, ConstInteger(2)))
  {
  }

  // ---------------------------------------------------------------- one block

  function OneBlock(insts: seq<Inst>): Func {
    Func([], [BasicBlock("entry", insts, Return(Some(1)))])
  }

  lemma OneBlockRuns(m: Mode, insts: seq<Inst>, st: State)
    requires ExecFrom(m, Silent(), insts, 0, START) == Next(st)
    ensures RunFunc(m, Silent(), OneBlock(insts), [], NO_GLOBALS, [], 1) == Returning(Get(st.regs, 1), st)
  {
    hide Silent, ExecFrom;
    var f := OneBlock(insts);
    assert Enter(f, [], NO_GLOBALS, []) == START;
    assert Find(f.blocks, "entry") == Some(0);
  }

  const START := State(map[], map[], NO_GLOBALS, [])

  lemma OneBlockStrict(insts: seq<Inst>)
    requires |insts| == 3 && insts[0].LoadConst? && insts[0].dest == 0 && insts[1].Store? && insts[1].src == 0
    requires (insts[2].Load? || (insts[2].Call? && insts[2].args == [])) && insts[2].dest == 1
    ensures Strict(OneBlock(insts), iset{0, 1})
  {
    var f := OneBlock(insts);
    assert forall b: nat, i: nat :: At(f, b, i) ==> b == 0 && i < 3;
    assert Def(f, 0, 0, 0) && Def(f, 1, 0, 2);
  }

  // A name reads back what was stored under it, unless it is an instance variable of no object.
  lemma StoredIsReadBackExactly(st: State, name: string, v: Value)
    ensures ReadName(WriteName(st, name, v), name) == v
            <==> !IsIvarName(name) || OrNil(Lookup(st.vars, SELF)).Object? || v == Nil
  {
  }

  // Without an object for self, an instance variable reads as nil, and the forwarded value is not.
  lemma ForwardingNeedsVariables(m: Mode)
    requires !m.objects
    ensures exists f, g :: Strict(f, iset{0, 1}) && ForwardsStores(f, g) && !RefinesFunc(m, f, g)
  {
    hide Strict, ForwardsStores, RefinesFunc;
    var was := [LoadConst(0, ConstInteger(5)), Store("@x", 0), Load(1, "@x")];
    var now := [LoadConst(0, ConstInteger(5)), Store("@x", 0), Copy(1, 0)];
    OneBlockStrict(was);
    LastIsForwarded(was, now);
    var st := START.(regs := map[0 := Integer(5)]);
    ThreeInsts(m, was, st, st, st.(regs := map[0 := Integer(5), 1 := Nil]));
    ThreeInsts(m, now, st, st, st.(regs := map[0 := Integer(5), 1 := Integer(5)]));
    TellApart(m, OneBlock(was), OneBlock(now), 1);
  }

  lemma ThreeInsts(m: Mode, insts: seq<Inst>, s1: State, s2: State, s3: State)
    requires |insts| == 3
    requires ExecInst(m, Silent(), insts[0], START) == Next(s1) && ExecInst(m, Silent(), insts[1], s1) == Next(s2)
    requires ExecInst(m, Silent(), insts[2], s2) == Next(s3)
    ensures RunFunc(m, Silent(), OneBlock(insts), [], NO_GLOBALS, [], 1) == Returning(Get(s3.regs, 1), s3)
  {
    hide ExecInst, Silent;
    assert ExecFrom(m, Silent(), insts, 2, s2) == Next(s3);
    OneBlockRuns(m, insts, s3);
  }

  lemma LastIsForwarded(was: seq<Inst>, now: seq<Inst>)
    requires |was| == |now| == 3 && now[..2] == was[..2] && was[0].LoadConst?
    requires was[1] == Store("@x", 0) && was[2] == Load(1, "@x") && now[2] == Copy(1, 0)
    ensures ForwardsStores(OneBlock(was), OneBlock(now))
  {
    var f, g := OneBlock(was), OneBlock(now);
    assert now[0] == now[..2][0] && now[1] == now[..2][1];
    assert forall b: nat, i: nat :: At(f, b, i) ==> b == 0 && i < 3;
    assert Entering(LearnStore, map[], Forget, f, g, 0) == map[];
    assert After(LearnStore, was, now, 1, map[]) == map[];
    assert After(LearnStore, was, now, 2, map[]) == map["@x" := 0];
  }

  const SENDING := [LoadConst(0, ConstSymbol("each")), Store("X", 0), Send(2, 0, 0, [], None)]

  // What was stored is forgotten at calls, but not at sends, which can change a constant as well.
  lemma ForwardingIgnoresSends(m: Mode)
    ensures exists f, g :: Strict(f, iset{0, 1, 2}) && ForwardsStores(f, g) && !RefinesFunc(m, f, g)
  {
    hide Strict, ForwardsStores, RefinesFunc;
    SendingIsStrict();
    SendingIsForwarded();
    SendingRuns(m, Load(1, "X"), Nil);
    SendingRuns(m, Copy(1, 0), Symbol("each"));
    TellApart(m, OneBlock(SENDING + [Load(1, "X")]), OneBlock(SENDING + [Copy(1, 0)]), 1);
  }

  lemma SendingIsStrict()
    ensures Strict(OneBlock(SENDING + [Load(1, "X")]), iset{0, 1, 2})
  {
    var f := OneBlock(SENDING + [Load(1, "X")]);
    assert forall b: nat, i: nat :: At(f, b, i) ==> b == 0 && i < 4;
    assert Def(f, 0, 0, 0) && Def(f, 2, 0, 2) && Def(f, 1, 0, 3);
    assert forall r, b: nat, i: nat ::
        Def(f, r, b, i) ==> (r == 0 && i == 0) || (r == 2 && i == 2) || (r == 1 && i == 3);
    assert forall i: nat, r :: 0 < i && Available(f, 0, 0, i) && At(f, 0, i) && r in Uses(InstAt(f, 0, i)) ==> r == 0;
  }

  lemma SendingIsForwarded()
    ensures ForwardsStores(OneBlock(SENDING + [Load(1, "X")]), OneBlock(SENDING + [Copy(1, 0)]))
  {
    var was, now := SENDING + [Load(1, "X")], SENDING + [Copy(1, 0)];
    var f, g := OneBlock(was), OneBlock(now);
    assert forall b: nat, i: nat :: At(f, b, i) ==> b == 0 && i < 4;
    assert Entering(LearnStore, map[], Forget, f, g, 0) == map[];
    assert After(LearnStore, was, now, 1, map[]) == map[];
    assert After(LearnStore, was, now, 2, map[]) == map["X" := 0];
    assert After(LearnStore, was, now, 3, map[]) == map["X" := 0];
  }

  lemma SendingRuns(m: Mode, last: Inst, v: Value)
    requires (last == Load(1, "X") && v == Nil) || (last == Copy(1, 0) && v == Symbol("each"))
    ensures var o := RunFunc(m, Silent(), OneBlock(SENDING + [last]), [], NO_GLOBALS, [], 1); o.Returned? && o.v == v
  {
    hide EvalBinary, EvalUnary;
    var insts := SENDING + [last];
    var s1 := START.(regs := map[0 := Symbol("each")]);
    var s2 := s1.(globals := Globals(map["X" := Symbol("each")], map[]));
    var s3 := Ask(Silent(), s2, 2, Sent(Symbol("each"), "each", [], s2.globals));
    var s4 := SetReg(s3, 1, v);
    assert GetAll(s2.regs, []) == [];
    assert ExecFrom(m, Silent(), insts, 3, s3) == Next(s4);
    assert ExecFrom(m, Silent(), insts, 2, s2) == Next(s4);
    assert ExecFrom(m, Silent(), insts, 1, s1) == Next(s4);
    OneBlockRuns(m, insts, s4);
  }

  // ---------------------------------------------------------------- dead stores

  // A call by name alone consults self, which the removal of dead stores does not know.
  lemma DeadStoresNeedSelf(m: Mode)
    ensures exists f, g :: Strict(f, iset{0, 1}) && DeadStoresGone(f, g) && !RefinesFunc(m, f, g)
  {
    hide Strict, DeadStoresGone, RefinesFunc;
    var was := [LoadConst(0, ConstInteger(5)), Store(SELF, 0), Call(1, "f", [])];
    var f, g := OneBlock(was), OneBlock([was[0], was[2]]);
    OneBlockStrict(was);
    SelfStoreIsDropped(was);
    var s1 := START.(regs := map[0 := Integer(5)]);
    var s2 := s1.(vars := map[SELF := Integer(5)]);
    var seen, unseen := [Called("f", [], Some(Integer(5)), NO_GLOBALS)], [Called("f", [], None, NO_GLOBALS)];
    var end := s2.(regs := map[0 := Integer(5), 1 := Nil], trace := seen);
    ThreeInsts(m, was, s1, s2, end);
    var other := s1.(regs := map[0 := Integer(5), 1 := Nil], trace := unseen);
    assert ExecFrom(m, Silent(), [was[0], was[2]], 1, s1) == Next(other);
    OneBlockRuns(m, [was[0], was[2]], other);
    assert seen[0] != unseen[0];
    TellApart(m, f, g, 1);
  }

  lemma SelfStoreIsDropped(was: seq<Inst>)
    requires |was| == 3 && was[0].LoadConst? && was[1] == Store(SELF, 0) && was[2] == Call(1, "f", [])
    ensures DeadStoresGone(OneBlock(was), OneBlock([was[0], was[2]]))
  {
    var f, g := OneBlock(was), OneBlock([was[0], was[2]]);
    assert forall b: nat, i: nat :: At(f, b, i) ==> b == 0 && i < 3;
    assert LoadedNames(f, {});
    var keep := StoreIsLive({});
    assert !keep(was[1]);
    assert Kept(was, keep, 1) == [was[0]];
    assert Kept(was, keep, 2) == [was[0]];
    assert Kept(was, keep, 3) == [was[0], was[2]];
    assert Filtered(f, g, keep);
  }

  // ---------------------------------------------------------------- operations that are never executed

  const OVERFLOW := [LoadConst(0, ConstInteger(MIN_INT64)), LoadConst(1, ConstInteger(-1)), Binary(2, Div, 0, 1)]

  function DeadDivision(): Func {
    Func([], [BasicBlock("a", [], Return(None)), BasicBlock("b", OVERFLOW, Return(None))])
  }

  // Folding comes before the removal of unreachable blocks: the compiler can stop where no run would.
  lemma FoldingStopsWithoutFault(m: Mode)
    ensures Strict(DeadDivision(), iset{0, 1, 2}) && FoldingStops(m.overflowChecks, DeadDivision())
    ensures forall world, args, globals, trace, gas: nat :: gas > 0 ==>
              RunFunc(m, world, DeadDivision(), args, globals, trace, gas) == Returned(Nil, globals, trace)
  {
    DeadDivisionIsStrict();
    DeadDivisionSticks(m.overflowChecks);
    forall world, args, globals, trace, gas: nat | gas > 0
      ensures RunFunc(m, world, DeadDivision(), args, globals, trace, gas) == Returned(Nil, globals, trace)
    {
      DeadDivisionRuns(m, world, args, globals, trace, gas);
    }
  }

  lemma DeadDivisionRuns(m: Mode, world: World, args: seq<Value>, globals: Globals, trace: seq<Event>, gas: nat)
    requires gas > 0
    ensures RunFunc(m, world, DeadDivision(), args, globals, trace, gas) == Returned(Nil, globals, trace)
  {
    var f := DeadDivision();
    var st := Enter(f, args, globals, trace);
    assert Find(f.blocks, "a") == Some(0);
    assert ExecFrom(m, world, f.blocks[0].insts, 0, st) == Next(st);
    assert Leave(m, world, f.blocks, f.blocks[0].term, st, gas - 1) == Returned(Nil, globals, trace);
    assert Run(m, world, f.blocks, "a", st, gas) == Returned(Nil, globals, trace);
  }

  lemma DeadDivisionIsStrict()
    ensures Strict(DeadDivision(), iset{0, 1, 2})
  {
    var f := DeadDivision();
    assert forall b: nat, i: nat :: At(f, b, i) ==> b == 1 && i < 3;
    assert Def(f, 0, 1, 0) && Def(f, 1, 1, 1);
  }

  lemma DeadDivisionSticks(checks: bool)
    ensures FoldingStops(checks, DeadDivision())
  {
    hide FoldInst;
    var f := DeadDivision();
    var known: Constants := map[0 := ConstInteger(MIN_INT64), 1 := ConstInteger(-1)];
    assert forall b: nat, i: nat :: At(f, b, i) ==> b == 1 && i < 3;
    assert After(LearnConst, f.blocks[0].insts, f.blocks[0].insts, 0, map[]) == map[];
    assert Entering(LearnConst, map[], Unchanged, f, f, 1) == map[];
    assert After(LearnConst, OVERFLOW, OVERFLOW, 1, map[]) == map[0 := ConstInteger(MIN_INT64)];
    assert After(LearnConst, OVERFLOW, OVERFLOW, 2, map[]) == known;
    OverflowSticks(checks, known);
    assert ScannedBefore(LearnConst, map[], Unchanged, Folder(checks), f, f, 1, 2);
    assert TableAt(LearnConst, map[], Unchanged, f, f, 1, 2) == known && At(f, 1, 2);
    assert Folder(checks)(known, InstAt(f, 1, 2)).None?;
  }

  lemma OverflowSticks(checks: bool, known: Constants)
    requires known == map[0 := ConstInteger(MIN_INT64), 1 := ConstInteger(-1)]
    ensures FoldInst(checks, known, OVERFLOW[2]).None?
    ensures forall table: Constants :: FoldInst(checks, table, OVERFLOW[0]) == Some(OVERFLOW[0])
    ensures forall table: Constants :: FoldInst(checks, table, OVERFLOW[1]) == Some(OVERFLOW[1])
  {
  }

  // ---------------------------------------------------------------- branches to the next block

  function Chained(term: Terminator): Func {
    Func([], [BasicBlock("a", [], term), BasicBlock("b", [LoadConst(0, ConstInteger(1))], Return(Some(0)))])
  }

  // Cutting a branch to the next block makes a function return nil that returned 1.
  lemma CuttingNeedsNothingToCut(m: Mode)
    ensures exists f, g :: Strict(f, iset{0}) && CutsFallthroughs(f, g) && !RefinesFunc(m, f, g)
  {
    hide Strict, CutsFallthroughs, RefinesFunc;
    var f, g := Chained(Branch("b")), Chained(Unreachable);
    ChainedIsStrict(f);
    ChainedIsCut(f, g);
    ChainedRuns(m);
    TellApart(m, f, g, 2);
  }

  lemma ChainedIsCut(f: Func, g: Func)
    requires f == Chained(Branch("b")) && g == Chained(Unreachable)
    ensures CutsFallthroughs(f, g)
  {
  }

  lemma ChainedIsStrict(f: Func)
    requires f == Chained(Branch("b"))
    ensures Strict(f, iset{0})
  {
    assert forall b: nat, i: nat :: At(f, b, i) ==> b == 1 && i == 0;
    assert Def(f, 0, 1, 0);
  }

  lemma ChainedRuns(m: Mode)
    ensures RunFunc(m, Silent(), Chained(Branch("b")), [], NO_GLOBALS, [], 2) == Returned(Integer(1), NO_GLOBALS, [])
    ensures RunFunc(m, Silent(), Chained(Unreachable), [], NO_GLOBALS, [], 2) == Returned(Nil, NO_GLOBALS, [])
  {
    hide Silent;
    var f, g := Chained(Branch("b")), Chained(Unreachable);
    var st := START.(regs := map[0 := Integer(1)]);
    assert Enter(f, [], NO_GLOBALS, []) == START && Enter(g, [], NO_GLOBALS, []) == START;
    assert "a"[0] != "b"[0];
    assert Find(f.blocks, "a") == Some(0) && Find(f.blocks, "b") == Some(1) && Find(g.blocks, "a") == Some(0);
    assert ExecFrom(m, Silent(), f.blocks[1].insts, 1, st) == Next(st);
    assert ExecFrom(m, Silent(), f.blocks[1].insts, 0, START) == Next(st);
    assert Run(m, Silent(), f.blocks, "b", START, 1) == Returned(Integer(1), NO_GLOBALS, []);
  }

  // ---------------------------------------------------------------- blocks that are passed to calls

  // The operands of a send are not counted as uses: with its selector gone, the call is not made any more.
  lemma DeadCodeDropsBlockCalls(m: Mode)
    ensures exists f, g :: Strict(f, iset{0, 1}) && DeadCodeGone(f, g) && !RefinesFunc(m, f, g)
  {
    hide Strict, DeadCodeGone, RefinesFunc;
    var was := [LoadConst(0, ConstSymbol("each")), Send(1, 0, 0, [], None)];
    var f, g := OneBlock(was), OneBlock([was[1]]);
    SendIsStrict(was);
    SelectorIsDropped(was);
    var sent := [Sent(Symbol("each"), "each", [], NO_GLOBALS)];
    var s1 := START.(regs := map[0 := Symbol("each")]);
    var s2 := START.(regs := map[0 := Symbol("each"), 1 := Nil], trace := sent);
    assert GetAll(s1.regs, []) == [];
    assert ExecInst(m, Silent(), was[1], s1) == Next(s2);
    assert ExecFrom(m, Silent(), was, 1, s1) == Next(s2);
    OneBlockRuns(m, was, s2);
    var unsent := START.(regs := map[1 := Nil]);
    assert ExecFrom(m, Silent(), [was[1]], 0, START) == Next(unsent);
    OneBlockRuns(m, [was[1]], unsent);
    assert |sent| == 1;
    TellApart(m, f, g, 1);
  }

  lemma SendIsStrict(was: seq<Inst>)
    requires was == [LoadConst(0, ConstSymbol("each")), Send(1, 0, 0, [], None)]
    ensures Strict(OneBlock(was), iset{0, 1})
  {
    var f := OneBlock(was);
    assert forall b: nat, i: nat :: At(f, b, i) ==> b == 0 && i < 2;
    assert Def(f, 0, 0, 0) && Def(f, 1, 0, 1);
  }

  lemma SelectorIsDropped(was: seq<Inst>)
    requires was == [LoadConst(0, ConstSymbol("each")), Send(1, 0, 0, [], None)]
    ensures DeadCodeGone(OneBlock(was), OneBlock([was[1]]))
  {
    var f, g := OneBlock(was), OneBlock([was[1]]);
    assert forall b: nat, i: nat :: At(f, b, i) ==> b == 0 && i < 2;
    assert UsedRegisters(f, {1});
    var keep := ResultIsUsed({1});
    assert !keep(was[0]) && keep(was[1]);
    assert Kept(was, keep, 1) == Kept(was, keep, 0);
    assert Kept(was, keep, 2) == [was[1]];
    assert Filtered(f, g, keep);
  }

  /** A block in a block, passed to methods of the same name. */
  const INNER := BlockCall("each", [], [], [Literal(ConstInteger(1))], [], false)
  const OUTER := BlockCall("each", [], [], [INNER], [], false)

  // Both blocks get the same name, for the count of registers starts again in the outer block.
  lemma NestedBlocksShareTheirName()
    ensures var fs := BlockFunctions([], [OUTER]);
            && |fs| == 2 && fs[0].name == fs[1].name && fs[0].func != fs[1].func && !Agreeing(fs)
            && Lookup(Table(fs), fs[0].name) == Some(fs[1].func)
  {
    hide FinishedBody, BlockName, LowerFunction, BlockFunctions, EMPTY;
    OneBlockCall(INNER);
    OneBlockCall(OUTER);
    LiteralHasNoBlocks();
    var name := BlockName("each", 0);
    var inner, outer := LowerFunction([], [Literal(ConstInteger(1))]), LowerFunction([], [INNER]);
    var fs := BlockFunctions([], [OUTER]);
    assert fs == [NamedFunc(name, inner), NamedFunc(name, outer)];
    InnerDiffersFromOuter();
    TableKeepsLast(fs, 1);
  }

  lemma OneBlockCall(n: Node)
    requires n.BlockCall? && n.args == [] && n.params == [] && n.captured == [] && !n.capturesSelf
    requires n.body != [] && !IsSymbolProc(n.body)
    ensures BlockFunctions([], [n])
            == BlockFunctions([], n.body) + [NamedFunc(BlockName(n.name, 0), LowerFunction([], n.body))]
  {
    hide BlockName, FinishedBody;
    assert LowerAll([], EMPTY) == (EMPTY, []);
    BlockArgAlone(n);
    OneNode(n, EMPTY);
    FinishedFunctions([n]);
  }

  lemma BlockArgAlone(n: Node)
    requires n.BlockCall? && n.params == [] && n.captured == [] && !n.capturesSelf && !IsSymbolProc(n.body)
    ensures LowerBlockArg(n, EMPTY).0.functions
            == BlockFunctions([], n.body) + [NamedFunc(BlockName(n.name, 0), LowerFunction([], n.body))]
  {
    hide BlockName, FinishedBody;
    assert EffectiveCaptures(n.captured, n.capturesSelf) + n.params == [];
    assert EMPTY.functions + BlockFunctions([], n.body) == BlockFunctions([], n.body);
  }

  lemma OneNode(n: Node, b: Builder)
    ensures LowerBody([n], b, 0) == LowerNode(n, b)
  {
    hide LowerNode;
    var (b1, r) := LowerNode(n, b);
    assert LowerBody([], b1, r) == (b1, r);
  }

  lemma FinishedFunctions(body: seq<Node>)
    ensures BlockFunctions([], body) == LowerBody(body, EMPTY, 0).0.functions
  {
    hide LowerBody;
  }

  lemma LiteralHasNoBlocks()
    ensures BlockFunctions([], [Literal(ConstInteger(1))]) == []
  {
    OneNode(Literal(ConstInteger(1)), EMPTY);
    FinishedFunctions([Literal(ConstInteger(1))]);
  }

  lemma InnerDiffersFromOuter()
    ensures LowerFunction([], [Literal(ConstInteger(1))]) != LowerFunction([], [INNER])
  {
    hide FinishedBody, BlockName;
    var one := Literal(ConstInteger(1));
    OneNode(one, EMPTY);
    FirstInst([one]);
    OneNode(INNER, EMPTY);
    assert LowerAll([], EMPTY) == (EMPTY, []);
    FirstInst([INNER]);
  }

  lemma FirstInst(body: seq<Node>)
    requires body != []
    ensures var b := LowerBody(body, EMPTY, 0).0;
            b.blocks == [] && b.insts != []
            ==> LowerFunction([], body).blocks[0].insts == b.insts
  {
    hide LowerBody;
  }

  // ---------------------------------------------------------------- the value of a conditional

  const CHOICE := If(VarRef("c"), [Literal(ConstInteger(1))], [Literal(ConstInteger(2))])

  function ChoiceBlocks(result: Inst): seq<BasicBlock> {
    [BasicBlock("entry_0", [Load(0, "c")], CondBranch(0, "then_0", "else_1")),
     BasicBlock("then_0", [LoadConst(1, ConstNil), LoadConst(2, ConstInteger(1))], Branch("merge_2")),
     BasicBlock("else_1", [LoadConst(3, ConstNil), LoadConst(4, ConstInteger(2))], Branch("merge_2")),
     BasicBlock("merge_2", [result], Return(Some(5)))]
  }

  lemma OneLiteral(i: Int64, b: Builder, last: RegId)
    ensures LowerBody([Literal(ConstInteger(i))], b, last)
            == (EmitNew(b, LoadConst(b.nextReg, ConstInteger(i))), b.nextReg)
  {
    assert LowerBody([], EmitNew(b, LoadConst(b.nextReg, ConstInteger(i))), b.nextReg).1 == b.nextReg;
  }

  lemma ChoiceLabels()
    ensures LabelFor("then", 0) == "then_0" && LabelFor("else", 1) == "else_1"
    ensures LabelFor("merge", 2) == "merge_2" && LabelFor("entry", 0) == "entry_0"
  {
    assert Decimal(0) == "0" && Decimal(1) == "1" && Decimal(2) == "2";
  }

  lemma ChoiceArm(b: Builder, term: Terminator, lbl: Label, i: Int64, b3: Builder)
    requires b3 == Builder(b.nextReg + 2, b.nextBlock, b.blocks + [BasicBlock(OpenLabel(b), b.insts, term)],
                           [LoadConst(b.nextReg, ConstNil), LoadConst(b.nextReg + 1, ConstInteger(i))],
                           Some(lbl), b.functions)
    ensures var b1 := Turn(b, term, lbl);
            LowerBody([Literal(ConstInteger(i))], EmitNew(b1, LoadConst(b1.nextReg, ConstNil)), b1.nextReg)
            == (b3, b.nextReg + 1)
  {
    var b1 := Turn(b, term, lbl);
    var b2 := EmitNew(b1, LoadConst(b1.nextReg, ConstNil));
    OneLiteral(i, b2, b1.nextReg);
    assert b2.insts + [LoadConst(b2.nextReg, ConstInteger(i))] == b3.insts;
    assert EmitNew(b2, LoadConst(b2.nextReg, ConstInteger(i))) == b3;
  }

  lemma ChoiceNode()
    ensures IfCode(CHOICE, EMPTY)
            == (Builder(6, 3, ChoiceBlocks(Copy(5, 2))[..3], [Copy(5, 2)], Some("merge_2"), []), 5)
  {
    hide LowerBody, LabelFor, LowerNode;
    ChoiceLabels();
    var bs := ChoiceBlocks(Copy(5, 2));
    var b1 := Builder(1, 0, [], bs[0].insts, None, []);
    var b3 := Builder(3, 3, bs[..1], bs[1].insts, Some("then_0"), []);
    var b5 := Builder(5, 3, bs[..2], bs[2].insts, Some("else_1"), []);
    ChoiceCondition(b1);
    assert [] + [BasicBlock("entry_0", b1.insts, bs[0].term)] == bs[..1];
    ChoiceArm(TakeLabels(b1, 3), bs[0].term, "then_0", 1, b3);
    assert bs[..1] + [BasicBlock("then_0", b3.insts, bs[1].term)] == bs[..2];
    ChoiceArm(b3, bs[1].term, "else_1", 2, b5);
    assert bs[..2] + [BasicBlock("else_1", b5.insts, bs[2].term)] == bs[..3];
    assert [] + [Copy(5, 2)] == [Copy(5, 2)];
  }

  lemma ChoiceCondition(b1: Builder)
    requires b1 == Builder(1, 0, [], [Load(0, "c")], None, [])
    ensures LowerNode(CHOICE.cond, EMPTY) == (b1, 0)
  {
    assert [] + [Load(0, "c")] == b1.insts;
    assert EmitNew(EMPTY, Load(0, "c")) == b1;
  }

  lemma ChoiceLowers()
    ensures LowerFunction([], [CHOICE]).blocks == ChoiceBlocks(Copy(5, 2))
  {
    hide LowerBody, LowerNode, IfCode, LabelFor;
    ChoiceNode();
    ChoiceIsIf();
    OneNode(CHOICE, EMPTY);
    var bs := ChoiceBlocks(Copy(5, 2));
    assert bs[..3] + [bs[3]] == bs;
  }

  lemma ChoiceIsIf()
    ensures LowerNode(CHOICE, EMPTY) == IfCode(CHOICE, EMPTY)
  {
    hide IfCode;
  }

  // Only the register of the first arm reaches the merge block: when the condition is false, the value is lost.
  lemma ConditionalLosesItsValue(m: Mode)
    ensures EvalFunc(m, Silent(), [], [CHOICE], [], NO_GLOBALS, [], 3) == Returned(Integer(2), NO_GLOBALS, [])
    ensures RunFunc(m, Silent(), LowerFunction([], [CHOICE]), [], NO_GLOBALS, [], 3) == Returned(Nil, NO_GLOBALS, [])
  {
    ChoiceLowers();
    ChoiceRuns(m, Copy(5, 2), Nil);
    ChoiceEvaluates(m);
  }

  // The optimizer changes even that: the constant of the first arm is propagated to the merge block, so that the
  // function returns 1 where the condition is false.
  lemma LostValueIsPropagated(m: Mode)
    ensures var f := LowerFunction([], [CHOICE]);
            exists g :: && PropagatesConstants(f, g)
                        && RunFunc(m, Silent(), f, [], NO_GLOBALS, [], 3) == Returned(Nil, NO_GLOBALS, [])
                        && RunFunc(m, Silent(), g, [], NO_GLOBALS, [], 3) == Returned(Integer(1), NO_GLOBALS, [])
  {
    hide RunFunc, PropagatesConstants, LowerFunction;
    ChoiceLowers();
    ChoiceParams();
    var f, g := Func([], ChoiceBlocks(Copy(5, 2))), Func([], ChoiceBlocks(LoadConst(5, ConstInteger(1))));
    ChoicePropagated(f, g);
    ChoiceRuns(m, Copy(5, 2), Nil);
    ChoiceRuns(m, LoadConst(5, ConstInteger(1)), Integer(1));
  }

  lemma ChoiceParams()
    ensures LowerFunction([], [CHOICE]).params == []
  {
    hide FinishedBody;
  }

  lemma ChoicePropagated(f: Func, g: Func)
    requires f == Func([], ChoiceBlocks(Copy(5, 2))) && g == Func([], ChoiceBlocks(LoadConst(5, ConstInteger(1))))
    ensures PropagatesConstants(f, g)
  {
    hide PropagateInst;
    var one, two, nil := ConstInteger(1), ConstInteger(2), ConstNil;
    var bs := f.blocks;
    ChoiceTables(f, g);
    assert forall b: nat, i: nat :: At(f, b, i) ==>
        (b == 0 && i == 0) || (b == 1 && i <= 1) || (b == 2 && i <= 1) || (b == 3 && i == 0);
    ChoiceUnchanged(map[], Load(0, "c"));
    ChoiceUnchanged(map[], LoadConst(1, nil));
    ChoiceUnchanged(map[1 := nil], LoadConst(2, one));
    ChoiceUnchanged(map[1 := nil, 2 := one], LoadConst(3, nil));
    ChoiceUnchanged(map[1 := nil, 2 := one, 3 := nil], LoadConst(4, two));
    ChoiceMerged(map[1 := nil, 2 := one, 3 := nil, 4 := two]);
  }

  lemma ChoiceUnchanged(known: Constants, inst: Inst)
    requires inst.Load? || inst.LoadConst?
    ensures PropagateInst(known, inst) == Some(inst)
  {
  }

  lemma ChoiceMerged(known: Constants)
    requires 2 in known && known[2] == ConstInteger(1)
    ensures PropagateInst(known, Copy(5, 2)) == Some(LoadConst(5, ConstInteger(1)))
  {
  }

  lemma ChoiceTables(f: Func, g: Func)
    requires f == Func([], ChoiceBlocks(Copy(5, 2))) && g == Func([], ChoiceBlocks(LoadConst(5, ConstInteger(1))))
    ensures SameShape(f, g)
    ensures var one, two, nil := ConstInteger(1), ConstInteger(2), ConstNil;
            && TableAt(LearnConst, map[], Unchanged, f, g, 0, 0) == map[]
            && TableAt(LearnConst, map[], Unchanged, f, g, 1, 0) == map[]
            && TableAt(LearnConst, map[], Unchanged, f, g, 1, 1) == map[1 := nil]
            && TableAt(LearnConst, map[], Unchanged, f, g, 2, 0) == map[1 := nil, 2 := one]
            && TableAt(LearnConst, map[], Unchanged, f, g, 2, 1) == map[1 := nil, 2 := one, 3 := nil]
            && TableAt(LearnConst, map[], Unchanged, f, g, 3, 0) == map[1 := nil, 2 := one, 3 := nil, 4 := two]
  {
    var one, two, nil := ConstInteger(1), ConstInteger(2), ConstNil;
    assert Entering(LearnConst, map[], Unchanged, f, g, 0) == map[];
    assert After(LearnConst, f.blocks[0].insts, g.blocks[0].insts, 1, map[]) == map[];
    assert Entering(LearnConst, map[], Unchanged, f, g, 1) == map[];
    var insts := f.blocks[1].insts;
    assert After(LearnConst, insts, insts, 1, map[]) == map[1 := nil];
    assert After(LearnConst, insts, insts, 2, map[]) == map[1 := nil, 2 := one];
    assert Entering(LearnConst, map[], Unchanged, f, g, 2) == map[1 := nil, 2 := one];
    var others := f.blocks[2].insts;
    var known: Constants := map[1 := nil, 2 := one];
    assert After(LearnConst, others, others, 1, known) == map[1 := nil, 2 := one, 3 := nil];
    assert After(LearnConst, others, others, 2, known) == map[1 := nil, 2 := one, 3 := nil, 4 := two];
    assert Entering(LearnConst, map[], Unchanged, f, g, 3) == map[1 := nil, 2 := one, 3 := nil, 4 := two];
  }

  lemma ChoiceEvaluates(m: Mode)
    ensures EvalFunc(m, Silent(), [], [CHOICE], [], NO_GLOBALS, [], 3) == Returned(Integer(2), NO_GLOBALS, [])
  {
    hide Silent, WriteName, EvalBinary;
    var st := START;
    assert BindNames(st, [], [], 0) == st;
    assert "c"[0] == 'c' && ReadName(st, "c") == Nil;
    assert EvalBody(m, Silent(), [], st, 1, Integer(2)) == Done(Integer(2), st, 1);
    assert EvalBody(m, Silent(), CHOICE.elseBody, st, 1, Nil) == Done(Integer(2), st, 1);
    assert Eval(m, Silent(), CHOICE, st, 2) == Done(Integer(2), st, 0);
    assert EvalBody(m, Silent(), [], st, 0, Integer(2)) == Done(Integer(2), st, 0);
    assert EvalBody(m, Silent(), [CHOICE], st, 2, Nil) == Done(Integer(2), st, 0);
  }

  lemma ChoiceRuns(m: Mode, result: Inst, v: Value)
    requires (result == Copy(5, 2) && v == Nil) || (result == LoadConst(5, ConstInteger(1)) && v == Integer(1))
    ensures RunFunc(m, Silent(), Func([], ChoiceBlocks(result)), [], NO_GLOBALS, [], 3) == Returned(v, NO_GLOBALS, [])
  {
    hide Silent;
    var bs := ChoiceBlocks(result);
    var st0 := START.(regs := map[0 := Nil]);
    var st2 := START.(regs := map[0 := Nil, 3 := Nil, 4 := Integer(2)]);
    var st3 := START.(regs := map[0 := Nil, 3 := Nil, 4 := Integer(2), 5 := v]);
    ChoiceFinds(bs, result);
    ChoiceExecutes(m, st0, st2);
    assert ExecFrom(m, Silent(), bs[3].insts, 0, st2) == Next(st3);
    assert Run(m, Silent(), bs, "merge_2", st2, 1) == Returned(v, NO_GLOBALS, []);
    assert Run(m, Silent(), bs, "else_1", st0, 2) == Returned(v, NO_GLOBALS, []);
    assert Enter(Func([], bs), [], NO_GLOBALS, []) == START;
  }

  lemma ChoiceExecutes(m: Mode, st0: State, st2: State)
    requires st0 == START.(regs := map[0 := Nil]) && st2 == START.(regs := map[0 := Nil, 3 := Nil, 4 := Integer(2)])
    ensures ExecFrom(m, Silent(), [Load(0, "c")], 0, START) == Next(st0)
    ensures ExecFrom(m, Silent(), [LoadConst(3, ConstNil), LoadConst(4, ConstInteger(2))], 0, st0) == Next(st2)
  {
    hide Silent;
    var insts := [LoadConst(3, ConstNil), LoadConst(4, ConstInteger(2))];
    var st1 := START.(regs := map[0 := Nil, 3 := Nil]);
    assert ReadName(START, "c") == Nil;
    assert ExecFrom(m, Silent(), insts, 1, st1) == Next(st2);
  }

  lemma ChoiceFinds(bs: seq<BasicBlock>, result: Inst)
    requires bs == ChoiceBlocks(result)
    ensures Find(bs, "entry_0") == Some(0) && Find(bs, "else_1") == Some(2) && Find(bs, "merge_2") == Some(3)
  {
    assert "then_0"[0] != "else_1"[0] && |"entry_0"| == 7 && |"else_1"| == 6 && |"merge_2"| == 7 && |"then_0"| == 6;
    assert bs[0].lbl != "else_1" && bs[1].lbl != "else_1";
    assert "entry_0"[0] != "merge_2"[0];
    assert bs[0].lbl != "merge_2" && bs[1].lbl != "merge_2" && bs[2].lbl != "merge_2" && bs[3].lbl == "merge_2";
  }
}
