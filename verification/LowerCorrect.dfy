/** The simulation between a tree and its lowered code, and the theorem about whole functions. */
module LowerCorrect {
  import opened Options
  import opened Mir
  import opened Hir
  import opened Lower
  import opened LowerForm
  import opened LowerLabels
  import opened LowerMeaning

  /** What running some code has achieved, given how evaluating its tree went. */
  ghost predicate RanKeeping(p: Place, b: Builder, st: State, gas: nat, res: Result, b2: Builder, r: RegId, st2: State,
                             valued: bool, bound: nat)
  {
    match res
    case Exit(o) => Ends(p, b, st, gas, o)
    case Done(v, h2, gas2) =>
      && Goes(p, b, st, gas, b2, st2, gas2)
      && SameMemory(h2, st2) && Kept(st, st2, bound, b2.nextReg)
      && (valued ==> r < b2.nextReg && Get(st2.regs, r) == v)
  }

  /**
    Code of a tree keeps every register but its own. Where the value is lost, and no register of its was set before,
    it leaves nil.
   */
  ghost predicate Ran(p: Place, b: Builder, st: State, gas: nat, res: Result, b2: Builder, r: RegId, st2: State,
                      valued: bool)
  {
    && RanKeeping(p, b, st, gas, res, b2, r, st2, valued, b.nextReg)
    && (res.Done? && !valued && Blank(st, b.nextReg) ==> Get(st2.regs, r) == Nil)
  }

  /** The same for several trees in a row. */
  ghost predicate RanAll(p: Place, b: Builder, st: State, gas: nat, res: Results, b2: Builder, rs: seq<RegId>,
                         st2: State)
  {
    match res
    case AnyExit(o) => Ends(p, b, st, gas, o)
    case AllDone(vs, h2, gas2) =>
      && Goes(p, b, st, gas, b2, st2, gas2)
      && SameMemory(h2, st2) && Kept(st, st2, b.nextReg, b2.nextReg)
      && (forall r :: r in rs ==> r < b2.nextReg) && GetAll(st2.regs, rs) == vs
  }

  // Put a finished piece of running in front of another.
  lemma Continue(p: Place, b: Builder, st: State, gas: nat, b1: Builder, st1: State, gas1: nat,
                 res: Result, b2: Builder, r: RegId, st2: State, valued: bool, bound1: nat)
    requires Goes(p, b, st, gas, b1, st1, gas1)
    requires RanKeeping(p, b1, st1, gas1, res, b2, r, st2, valued, bound1)
    ensures forall bound: nat :: bound <= bound1 && Kept(st, st1, bound, b2.nextReg)
              ==> RanKeeping(p, b, st, gas, res, b2, r, st2, valued, bound)
  {
    hide RunFrom, Fits;
  }

  lemma ContinueRan(p: Place, b: Builder, st: State, gas: nat, b1: Builder, st1: State, gas1: nat,
                    res: Result, b2: Builder, r: RegId, st2: State, valued: bool)
    requires Goes(p, b, st, gas, b1, st1, gas1) && Kept(st, st1, b.nextReg, b1.nextReg)
    requires b.nextReg <= b1.nextReg <= b2.nextReg
    requires Ran(p, b1, st1, gas1, res, b2, r, st2, valued)
    ensures Ran(p, b, st, gas, res, b2, r, st2, valued)
  {
    hide RunFrom, Fits;
  }

  lemma EndsRan(p: Place, b: Builder, st: State, gas: nat, o: Outcome, b2: Builder, r: RegId, st2: State, valued: bool)
    requires Ends(p, b, st, gas, o)
    ensures Ran(p, b, st, gas, Exit(o), b2, r, st2, valued)
  {
  }

  lemma EmitRuns(p: Place, b: Builder, inst: Inst, st: State, gas: nat, h: State, v: Value) returns (st2: State)
    requires Fits(p, EmitNew(b, inst)) && SameMemory(h, st)
    requires (inst.LoadConst? && v == ValueOf(inst.c)) || (inst.Load? && v == ReadName(h, inst.name))
             || (inst.Copy? && v == Get(st.regs, inst.src))
    requires inst.dest == b.nextReg
    ensures Ran(p, b, st, gas, Done(v, h, gas), EmitNew(b, inst), b.nextReg, st2, true)
  {
    EmitGoes(p, b, inst, EmitNew(b, inst), st, gas);
    st2 := ExecInst(p.m, p.world, inst, st).st;
  }

  // ---------------------------------------------------------------- trees without blocks of their own

  lemma {:induction false} BinaryRuns(p: Place, n: Node, b: Builder, h: State, st: State, gas: nat)
    returns (st2: State)
    requires n.BinaryOp? && UniqueLabels(p.bs) && WellValued(n) && Fits(p, LowerNode(n, b).0) && SameMemory(h, st)
    ensures Ran(p, b, st, gas, Eval(p.m, p.world, n, h, gas), LowerNode(n, b).0, LowerNode(n, b).1, st2,
                Reaches(p.m, p.world, n, h, gas))
    decreases gas, n, 0
  {
    hide Fits, RunFrom, Grows;
    st2 := st;
    var (b1, x) := LowerNode(n.left, b);
    var (b2, y) := LowerNode(n.right, b1);
    var inst := Binary(b2.nextReg, n.op, x, y);
    var b3 := EmitNew(b2, inst);
    NodeGrows(n.left, b);
    NodeGrows(n.right, b1);
    EmitGrows(b2, inst, b3);
    FitsEarlier(p, b2, b3);
    FitsEarlier(p, b1, b2);
    HasValueReaches(p.m, p.world, n.left, h, gas);
    var st1 := NodeRuns(p, n.left, b, h, st, gas);
    var e1 := Eval(p.m, p.world, n.left, h, gas);
    if e1.Done? {
      HasValueReaches(p.m, p.world, n.right, e1.st, e1.gas);
      st2 := NodeRuns(p, n.right, b1, e1.st, st1, e1.gas);
      var e2 := Eval(p.m, p.world, n.right, e1.st, e1.gas);
      GrowsRegs(b, b1);
      GrowsRegs(b1, b2);
      ContinueRan(p, b, st, gas, b1, st1, e1.gas, e2, b2, y, st2, true);
      if e2.Done? {
        EmitGoes(p, b2, inst, b3, st2, e2.gas);
        st2 := Applied(p, b, st, gas, b2, st2, e2, inst);
      }
    }
  }

  lemma FitsEarlier(p: Place, b: Builder, b2: Builder)
    requires Grows(b, b2) && Fits(p, b2)
    ensures Fits(p, b) && b.nextReg <= b2.nextReg
  {
  }

  lemma GrowsRegs(b: Builder, b2: Builder)
    requires Grows(b, b2)
    ensures b.nextReg <= b2.nextReg
  {
  }

  // Operands are in their registers: execute the operation.
  lemma Applied(p: Place, b: Builder, st: State, gas: nat, b2: Builder, st2: State, e2: Result, inst: Inst)
    returns (st3: State)
    requires e2.Done? && Goes(p, b, st, gas, b2, st2, e2.gas) && SameMemory(e2.st, st2)
    requires Kept(st, st2, b.nextReg, b2.nextReg)
    requires b.nextReg <= b2.nextReg && (inst.Binary? || inst.Unary?) && inst.dest == b2.nextReg
    requires match ExecInst(p.m, p.world, inst, st2)
             case Abort => Ends(p, b2, st2, e2.gas, Aborted)
             case Next(t) => Goes(p, b2, st2, e2.gas, EmitNew(b2, inst), t, e2.gas)
    ensures match inst
            case Binary(d, op, l, r) =>
              var vl, vr := Get(st2.regs, l), Get(st2.regs, r);
              Ran(p, b, st, gas,
                  if Faults(p.m, op, vl, vr) then Exit(Aborted) else Done(EvalBinary(op, vl, vr), e2.st, e2.gas),
                  EmitNew(b2, inst), d, st3, true)
            case Unary(d, op, s) =>
              var v := Get(st2.regs, s);
              Ran(p, b, st, gas,
                  if FaultsUnary(p.m, op, v) then Exit(Aborted) else Done(EvalUnary(op, v), e2.st, e2.gas),
                  EmitNew(b2, inst), d, st3, true)
  {
    hide RunFrom, Fits, EvalBinary, EvalUnary, Faults, FaultsUnary;
    var e := ExecInst(p.m, p.world, inst, st2);
    st3 := if e.Next? then e.st else st2;
  }

  lemma {:induction false} UnaryRuns(p: Place, n: Node, b: Builder, h: State, st: State, gas: nat)
    returns (st2: State)
    requires n.UnaryOp? && UniqueLabels(p.bs) && WellValued(n) && Fits(p, LowerNode(n, b).0) && SameMemory(h, st)
    ensures Ran(p, b, st, gas, Eval(p.m, p.world, n, h, gas), LowerNode(n, b).0, LowerNode(n, b).1, st2,
                Reaches(p.m, p.world, n, h, gas))
    decreases gas, n, 0
  {
    hide Fits, RunFrom, Grows;
    var (b1, x) := LowerNode(n.operand, b);
    var inst := Unary(b1.nextReg, n.uop, x);
    NodeGrows(n.operand, b);
    EmitGrows(b1, inst, EmitNew(b1, inst));
    FitsEarlier(p, b1, EmitNew(b1, inst));
    GrowsRegs(b, b1);
    HasValueReaches(p.m, p.world, n.operand, h, gas);
    st2 := NodeRuns(p, n.operand, b, h, st, gas);
    var e := Eval(p.m, p.world, n.operand, h, gas);
    if e.Done? {
      EmitGoes(p, b1, inst, EmitNew(b1, inst), st2, e.gas);
      st2 := Applied(p, b, st, gas, b1, st2, e, inst);
    }
  }

  lemma {:induction false} CallRuns(p: Place, n: Node, b: Builder, h: State, st: State, gas: nat)
    returns (st2: State)
    requires n.CallNode? && UniqueLabels(p.bs) && WellValued(n) && Fits(p, LowerNode(n, b).0) && SameMemory(h, st)
    ensures Ran(p, b, st, gas, Eval(p.m, p.world, n, h, gas), LowerNode(n, b).0, LowerNode(n, b).1, st2,
                Reaches(p.m, p.world, n, h, gas))
    decreases gas, n, 0
  {
    hide Fits, RunFrom, Grows;
    var (b1, rs) := LowerAll(n.args, b);
    var inst := Call(b1.nextReg, n.name, rs);
    AllGrow(n.args, b);
    EmitGrows(b1, inst, EmitNew(b1, inst));
    FitsEarlier(p, b1, EmitNew(b1, inst));
    GrowsRegs(b, b1);
    var st1 := AllRun(p, n.args, b, h, st, gas);
    st2 := st1;
    var e := EvalAll(p.m, p.world, n.args, h, gas);
    if e.AllDone? {
      st2 := CallAsked(p, b1, n.name, rs, st1, e.gas, e.st, e.vs);
      GoesTransitive(p, b, st, gas, b1, st1, e.gas, EmitNew(b1, inst), st2, e.gas);
    }
  }

  lemma {:induction false} BlockCallRuns(p: Place, n: Node, b: Builder, h: State, st: State, gas: nat)
    returns (st2: State)
    requires n.BlockCall? && UniqueLabels(p.bs) && WellValued(n) && Fits(p, LowerNode(n, b).0) && SameMemory(h, st)
    ensures Ran(p, b, st, gas, Eval(p.m, p.world, n, h, gas), LowerNode(n, b).0, LowerNode(n, b).1, st2,
                Reaches(p.m, p.world, n, h, gas))
    decreases gas, n, 0
  {
    hide Fits, RunFrom, Grows, LowerBlockArg, SendToSelf;
    var (b1, rs) := LowerAll(n.args, b);
    var b3 := LowerNode(n, b).0;
    AllGrow(n.args, b);
    GrowsRegs(b, b1);
    var b2, block := b1, 0;
    if n.body != [] {
      b2, block := LowerBlockArg(n, b1).0, LowerBlockArg(n, b1).1;
      BlockArgGrows(n, b1);
      GrowsRegs(b1, b2);
      SendGrows(b2, n.name, rs, block);
      FitsEarlier(p, b2, b3);
    } else {
      EmitGrows(b1, Call(b1.nextReg, n.name, rs), b3);
    }
    FitsEarlier(p, b1, if n.body == [] then b3 else b2);
    var st1 := AllRun(p, n.args, b, h, st, gas);
    st2 := st1;
    var e := EvalAll(p.m, p.world, n.args, h, gas);
    if e.AllDone? {
      if n.body == [] {
        st2 := CallAsked(p, b1, n.name, rs, st1, e.gas, e.st, e.vs);
      } else {
        var st3 := BlockArgRuns(p, n, b1, st1, e.gas);
        SameOperands(st1, st3, rs, b1.nextReg, b2.nextReg);
        st2 := SendAsked(p, b2, n.name, rs, block, st3, e.gas, e.st, e.vs);
        GoesTransitive(p, b1, st1, e.gas, b2, st3, e.gas, b3, st2, e.gas);
      }
      GoesTransitive(p, b, st, gas, b1, st1, e.gas, b3, st2, e.gas);
    }
  }

  lemma SameOperands(st: State, st2: State, rs: seq<RegId>, lo: nat, hi: nat)
    requires Kept(st, st2, lo, hi) && forall r :: r in rs ==> r < lo
    ensures GetAll(st.regs, rs) == GetAll(st2.regs, rs)
  {
    forall k | 0 <= k < |rs|
      ensures GetAll(st.regs, rs)[k] == GetAll(st2.regs, rs)[k]
    {
      assert rs[k] in rs;
    }
  }

  // The arguments are in their registers: make the call.
  lemma CallAsked(p: Place, b: Builder, name: string, rs: seq<RegId>, st: State, gas: nat, h: State, vs: seq<Value>)
    returns (st2: State)
    requires Fits(p, EmitNew(b, Call(b.nextReg, name, rs))) && SameMemory(h, st) && GetAll(st.regs, rs) == vs
    ensures var (v, h2) := AskTree(p.world, h, name, vs);
            && Goes(p, b, st, gas, EmitNew(b, Call(b.nextReg, name, rs)), st2, gas)
            && SameMemory(h2, st2) && Kept(st, st2, b.nextReg, b.nextReg + 1) && Get(st2.regs, b.nextReg) == v
  {
    hide Fits, RunFrom, Grows;
    var inst := Call(b.nextReg, name, rs);
    EmitGoes(p, b, inst, EmitNew(b, inst), st, gas);
    st2 := ExecInst(p.m, p.world, inst, st).st;
    assert CallEvent(st, name, GetAll(st.regs, rs)) == CallEvent(h, name, vs);
  }

  lemma ThreeSteps(p: Place, insts: seq<Inst>, st: State, s1: State, s2: State)
    requires |insts| == 3 && ExecInst(p.m, p.world, insts[0], st) == Next(s1)
    requires ExecInst(p.m, p.world, insts[1], s1) == Next(s2)
    ensures ExecFrom(p.m, p.world, insts, 0, st) == ExecInst(p.m, p.world, insts[2], s2)
  {
    hide ExecInst;
    var e := ExecInst(p.m, p.world, insts[2], s2);
    assert e.Next? ==> ExecFrom(p.m, p.world, insts, 3, e.st) == e;
    assert ExecFrom(p.m, p.world, insts, 2, s2) == e;
    assert ExecFrom(p.m, p.world, insts, 1, s1) == e;
  }

  lemma SendAsked(p: Place, b: Builder, name: string, rs: seq<RegId>, block: RegId, st: State, gas: nat,
                  h: State, vs: seq<Value>) returns (st2: State)
    requires Fits(p, SendToSelf(b, name, rs, block)) && SameMemory(h, st) && GetAll(st.regs, rs) == vs
    requires forall r :: r in rs ==> r < b.nextReg
    ensures var (v, h2) := TellSelf(p.world, h, name, vs);
            && Goes(p, b, st, gas, SendToSelf(b, name, rs, block), st2, gas)
            && SendToSelf(b, name, rs, block).nextReg == b.nextReg + 3
            && SameMemory(h2, st2) && Kept(st, st2, b.nextReg, b.nextReg + 3) && Get(st2.regs, b.nextReg) == v
  {
    hide Fits, RunFrom, Grows, ReadName, EvalBinary, EvalUnary, Faults, FaultsUnary;
    var r := b.nextReg;
    var insts := [Load(r + 1, SELF), LoadConst(r + 2, ConstSymbol(name)), Send(r, r + 1, r + 2, rs, Some(block))];
    NamesSeeMemoryOnly(h, st, SELF, Nil);
    var s1 := SetReg(st, r + 1, ReadName(st, SELF));
    var s2 := SetReg(s1, r + 2, Symbol(name));
    SameOperands(st, s2, rs, b.nextReg, b.nextReg + 3);
    var e := ExecInst(p.m, p.world, insts[2], s2);
    ThreeSteps(p, insts, st, s1, s2);
    hide ExecFrom;
    StretchGoes(p, b, insts, SendToSelf(b, name, rs, block), st, gas);
    st2 := e.st;
  }

  // Creating the block only sets registers.
  lemma BlockArgRuns(p: Place, n: Node, b: Builder, st: State, gas: nat) returns (st2: State)
    requires n.BlockCall? && Fits(p, LowerBlockArg(n, b).0)
    ensures var b2 := LowerBlockArg(n, b).0;
            Goes(p, b, st, gas, b2, st2, gas) && SameMemory(st, st2) && Kept(st, st2, b.nextReg, b2.nextReg)
    ensures ExecFrom(p.m, p.world, BlockArgInsts(n, b), 0, st) == Next(st2)
  {
    hide Fits, RunFrom, LowerBlockArg;
    BlockArgEmits(n, b);
    var b2, insts := LowerBlockArg(n, b).0, BlockArgInsts(n, b);
    BlockArgHarmless(n, b);
    HarmlessRun(p.m, p.world, insts, 0, st, b.nextReg, b2.nextReg);
    StretchGoes(p, b, insts, b2, st, gas);
    st2 := ExecFrom(p.m, p.world, insts, 0, st).st;
  }

  lemma {:induction false} AssignRuns(p: Place, n: Node, b: Builder, h: State, st: State, gas: nat)
    returns (st2: State)
    requires n.Assign? && UniqueLabels(p.bs) && WellValued(n) && Fits(p, LowerNode(n, b).0) && SameMemory(h, st)
    ensures Ran(p, b, st, gas, Eval(p.m, p.world, n, h, gas), LowerNode(n, b).0, LowerNode(n, b).1, st2,
                Reaches(p.m, p.world, n, h, gas))
    decreases gas, n, 0
  {
    hide Fits, RunFrom, Grows, ReadName, WriteName, StoreIsLost;
    var (b1, x) := LowerNode(n.value, b);
    var inst := Store(n.name, x);
    NodeGrows(n.value, b);
    EmitGrows(b1, inst, Emit(b1, inst));
    FitsEarlier(p, b1, Emit(b1, inst));
    GrowsRegs(b, b1);
    HasValueReaches(p.m, p.world, n.value, h, gas);
    var st1 := NodeRuns(p, n.value, b, h, st, gas);
    st2 := st1;
    var e := Eval(p.m, p.world, n.value, h, gas);
    if e.Done? {
      EmitGoes(p, b1, inst, Emit(b1, inst), st1, e.gas);
      NamesSeeMemoryOnly(e.st, st1, n.name, e.v);
      if FaultsStore(p.m, e.st, n.name, e.v) {
        GoesThenEnds(p, b, st, gas, b1, st1, e.gas, Aborted);
      } else {
        st2 := WriteName(st1, n.name, e.v);
        GoesTransitive(p, b, st, gas, b1, st1, e.gas, Emit(b1, inst), st2, e.gas);
      }
    }
  }

  // ---------------------------------------------------------------- all trees

  lemma {:induction false} NodeRuns(p: Place, n: Node, b: Builder, h: State, st: State, gas: nat)
    returns (st2: State)
    requires UniqueLabels(p.bs) && WellValued(n) && Fits(p, LowerNode(n, b).0) && SameMemory(h, st)
    ensures Ran(p, b, st, gas, Eval(p.m, p.world, n, h, gas), LowerNode(n, b).0, LowerNode(n, b).1, st2,
                Reaches(p.m, p.world, n, h, gas))
    decreases gas, n, 2
  {
    hide Fits, RunFrom, Grows, Ran;
    match n
    case Literal(c) => st2 := EmitRuns(p, b, LoadConst(b.nextReg, c), st, gas, h, ValueOf(c));
    case VarRef(name) => st2 := EmitRuns(p, b, Load(b.nextReg, name), st, gas, h, ReadName(h, name));
    case BinaryOp(_, _, _) => st2 := BinaryRuns(p, n, b, h, st, gas);
    case UnaryOp(_, _) => st2 := UnaryRuns(p, n, b, h, st, gas);
    case CallNode(_, _) => st2 := CallRuns(p, n, b, h, st, gas);
    case BlockCall(_, _, _, _, _, _) => st2 := BlockCallRuns(p, n, b, h, st, gas);
    case Assign(_, _) => st2 := AssignRuns(p, n, b, h, st, gas);
    case If(_, _, _) => st2 := IfRuns(p, n, b, h, st, gas);
    case Loop(_, _) => st2 := EnterLoop(p, n, b, h, st, gas);
    case ReturnNode(_) =>
      ReturnRuns(p, n, b, h, st, gas);
      st2 := st;
      EndsRan(p, b, st, gas, Eval(p.m, p.world, n, h, gas).outcome, LowerNode(n, b).0, LowerNode(n, b).1, st2, true);
    case Sequence(ns) => st2 := ArmRuns(p, ns, b, h, st, gas);
    case NopNode => st2 := EmitRuns(p, b, LoadConst(b.nextReg, ConstNil), st, gas, h, Nil);
  }

  // Load nil and run a body: a sequence, or one arm of a conditional.
  lemma {:induction false} ArmRuns(p: Place, ns: seq<Node>, b: Builder, h: State, st: State, gas: nat)
    returns (st2: State)
    requires UniqueLabels(p.bs) && AllWellValued(ns) && SameMemory(h, st)
    requires Fits(p, LowerBody(ns, EmitNew(b, LoadConst(b.nextReg, ConstNil)), b.nextReg).0)
    ensures var (b2, r) := LowerBody(ns, EmitNew(b, LoadConst(b.nextReg, ConstNil)), b.nextReg);
            Ran(p, b, st, gas, EvalBody(p.m, p.world, ns, h, gas, Nil), b2, r, st2,
                BodyReaches(p.m, p.world, ns, h, gas))
    decreases gas, ns, 1
  {
    hide Fits, RunFrom, Grows;
    var b1 := EmitNew(b, LoadConst(b.nextReg, ConstNil));
    var (b2, r) := LowerBody(ns, b1, b.nextReg);
    BodyGrows(ns, b1, b.nextReg);
    FitsEarlier(p, b1, b2);
    var st1 := EmitRuns(p, b, LoadConst(b.nextReg, ConstNil), st, gas, h, Nil);
    st2 := st1;
    if ns != [] {
      st2 := BodyRuns(p, ns, b1, b.nextReg, h, st1, gas, Nil);
      ContinueRan(p, b, st, gas, b1, st1, gas, EvalBody(p.m, p.world, ns, h, gas, Nil), b2, r, st2,
                  BodyReaches(p.m, p.world, ns, h, gas));
    }
  }

  lemma {:induction false} BodyRuns(p: Place, ns: seq<Node>, b: Builder, last: RegId, h: State, st: State, gas: nat,
                                    v: Value) returns (st2: State)
    requires ns != [] && UniqueLabels(p.bs) && AllWellValued(ns) && Fits(p, LowerBody(ns, b, last).0)
    requires SameMemory(h, st)
    ensures Ran(p, b, st, gas, EvalBody(p.m, p.world, ns, h, gas, v), LowerBody(ns, b, last).0,
                LowerBody(ns, b, last).1, st2, BodyReaches(p.m, p.world, ns, h, gas))
    decreases gas, ns, 0
  {
    hide Fits, RunFrom, Grows;
    var (b1, r) := LowerNode(ns[0], b);
    var e := Eval(p.m, p.world, ns[0], h, gas);
    NodeGrows(ns[0], b);
    BodyGrows(ns[1..], b1, r);
    FitsEarlier(p, b1, LowerBody(ns, b, last).0);
    GrowsRegs(b, b1);
    var st1 := NodeRuns(p, ns[0], b, h, st, gas);
    st2 := st1;
    if |ns| == 1 {
      assert LowerBody(ns[1..], b1, r) == (b1, r);
      assert e.Done? ==> EvalBody(p.m, p.world, ns[1..], e.st, e.gas, e.v) == e;
    } else if e.Done? {
      st2 := BodyRuns(p, ns[1..], b1, r, e.st, st1, e.gas, e.v);
      ContinueRan(p, b, st, gas, b1, st1, e.gas, EvalBody(p.m, p.world, ns[1..], e.st, e.gas, e.v),
                  LowerBody(ns, b, last).0, LowerBody(ns, b, last).1, st2, BodyReaches(p.m, p.world, ns[1..], e.st,
                            e.gas));
    }
  }

  lemma {:induction false} AllRun(p: Place, ns: seq<Node>, b: Builder, h: State, st: State, gas: nat)
    returns (st2: State)
    requires UniqueLabels(p.bs) && (forall a | a in ns :: HasValue(a) && WellValued(a))
    requires Fits(p, LowerAll(ns, b).0) && SameMemory(h, st)
    ensures RanAll(p, b, st, gas, EvalAll(p.m, p.world, ns, h, gas), LowerAll(ns, b).0, LowerAll(ns, b).1, st2)
    decreases gas, ns, 0
  {
    hide Fits, RunFrom, Grows, LowerNode, Eval, WellValued;
    st2 := st;
    if ns != [] {
      var (b1, r) := LowerNode(ns[0], b);
      var (b2, rs) := LowerAll(ns[1..], b1);
      NodeGrows(ns[0], b);
      AllGrow(ns[1..], b1);
      FitsEarlier(p, b1, b2);
      GrowsRegs(b, b1);
      GrowsRegs(b1, b2);
      HasValueReaches(p.m, p.world, ns[0], h, gas);
      var st1 := NodeRuns(p, ns[0], b, h, st, gas);
      var e := Eval(p.m, p.world, ns[0], h, gas);
      if e.Done? {
        st2 := AllRun(p, ns[1..], b1, e.st, st1, e.gas);
        var e2 := EvalAll(p.m, p.world, ns[1..], e.st, e.gas);
        if e2.AllDone? {
          GoesTransitive(p, b, st, gas, b1, st1, e.gas, b2, st2, e2.gas);
          assert GetAll(st2.regs, [r] + rs) == [Get(st2.regs, r)] + GetAll(st2.regs, rs);
        } else {
          GoesThenEnds(p, b, st, gas, b1, st1, e.gas, e2.outcome);
        }
      }
    }
  }

  lemma {:induction false} ReturnRuns(p: Place, n: Node, b: Builder, h: State, st: State, gas: nat)
    requires n.ReturnNode? && UniqueLabels(p.bs) && WellValued(n) && Fits(p, LowerNode(n, b).0) && SameMemory(h, st)
    ensures var e := Eval(p.m, p.world, n, h, gas); e.Exit? && Ends(p, b, st, gas, e.outcome)
    decreases gas, n, 0
  {
    var b1, st1, v := b, st, None;
    if n.result.Some? {
      b1 := LowerNode(n.result.value, b).0;
      v := Some(LowerNode(n.result.value, b).1);
    }
    var b2 := Turn(b1, Return(v), LabelFor("after_return", b1.nextBlock));
    RelabelGrows(b2, TakeLabels(b2, 1));
    LoadNilGrows(TakeLabels(b2, 1));
    assert LowerNode(n, b).0 == EmitNew(TakeLabels(b2, 1), LoadConst(TakeLabels(b2, 1).nextReg, ConstNil));
    TurnGrows(b1, Return(v), LabelFor("after_return", b1.nextBlock));
    if n.result.Some? {
      HasValueReaches(p.m, p.world, n.result.value, h, gas);
      st1 := NodeRuns(p, n.result.value, b, h, st, gas);
    }
  }

  // ---------------------------------------------------------------- conditionals and loops

  // From the end of an arm to the block where both arms meet, and past the copy there.
  lemma MergeRuns(p: Place, b: Builder, next: Label, m: Label, merge: Builder, src: RegId, h: State, st: State,
                  gas: nat, w: Value) returns (st2: State)
    requires UniqueLabels(p.bs) && SameMemory(h, st) && b.nextReg <= merge.nextReg
    requires Fits(p, Turn(b, Branch(m), next))
    requires Fits(p, EmitNew(merge, Copy(merge.nextReg, src))) && merge.insts == [] && merge.pending == Some(m)
    ensures var spent := Spend(h, gas);
            && RanKeeping(p, b, st, gas, if spent.Done? then Done(w, h, spent.gas) else spent,
                          EmitNew(merge, Copy(merge.nextReg, src)), merge.nextReg, st2, false, merge.nextReg)
            && (spent.Done? ==> Get(st2.regs, merge.nextReg) == Get(st.regs, src))
  {
    hide Fits, RunFrom, Grows;
    var inst := Copy(merge.nextReg, src);
    EmitGrows(merge, inst, EmitNew(merge, inst));
    FitsEarlier(p, merge, EmitNew(merge, inst));
    JumpGoes(p, b, Branch(m), next, m, merge, st, gas);
    st2 := st;
    if gas > 0 {
      st2 := EmitRuns(p, merge, inst, st, gas - 1, h, Get(st.regs, src));
      GoesTransitive(p, b, st, gas, merge, st, gas - 1, EmitNew(merge, inst), st2, gas - 1);
    }
  }

  /** The builders along a conditional. */
  datatype IfPath = IfPath(b1: Builder, c: RegId, b2: Builder, b3: Builder, r: RegId, b4: Builder, b5: Builder,
                           b6: Builder, t: Label, e: Label, m: Label)

  function PathOfIf(n: Node, b: Builder): IfPath
    requires n.If?
  {
    var (b1, c) := LowerNode(n.cond, b);
    var k := b1.nextBlock;
    var t, e, m := LabelFor("then", k), LabelFor("else", k + 1), LabelFor("merge", k + 2);
    var b2 := Turn(TakeLabels(b1, 3), CondBranch(c, t, e), t);
    var (b3, r) := LowerBody(n.thenBody, EmitNew(b2, LoadConst(b2.nextReg, ConstNil)), b2.nextReg);
    var b4 := Turn(b3, Branch(m), e);
    var b5 := LowerBody(n.elseBody, EmitNew(b4, LoadConst(b4.nextReg, ConstNil)), b4.nextReg).0;
    var b6 := Turn(b5, Branch(m), m);
    IfPath(b1, c, b2, b3, r, b4, b5, b6, t, e, m)
  }

  lemma IfPathFits(p: Place, n: Node, b: Builder)
    requires n.If? && Fits(p, LowerNode(n, b).0)
    ensures var w := PathOfIf(n, b);
            && LowerNode(n, b) == (EmitNew(w.b6, Copy(w.b6.nextReg, w.r)), w.b6.nextReg)
            && Fits(p, w.b1) && Fits(p, TakeLabels(w.b1, 3)) && Fits(p, w.b2) && Fits(p, w.b3)
            && Fits(p, w.b4) && Fits(p, w.b5) && Fits(p, w.b6)
            && b.nextReg <= w.b1.nextReg == w.b2.nextReg <= w.b3.nextReg == w.b4.nextReg <= w.b5.nextReg == w.b6.nextReg
            && w.b2.nextReg <= w.r < w.b3.nextReg
  {
    hide Fits, Grows;
    var w := PathOfIf(n, b);
    NodeGrows(n.cond, b);
    RelabelGrows(w.b1, TakeLabels(w.b1, 3));
    ArmGrows(n.thenBody, TakeLabels(w.b1, 3), CondBranch(w.c, w.t, w.e), w.t);
    ArmGrows(n.elseBody, w.b3, Branch(w.m), w.e);
    TurnGrows(w.b5, Branch(w.m), w.m);
    EmitGrows(w.b6, Copy(w.b6.nextReg, w.r), EmitNew(w.b6, Copy(w.b6.nextReg, w.r)));
    FitsEarlier(p, w.b6, EmitNew(w.b6, Copy(w.b6.nextReg, w.r)));
    FitsEarlier(p, w.b5, w.b6);
    FitsEarlier(p, w.b4, w.b5);
    FitsEarlier(p, w.b3, w.b4);
    FitsEarlier(p, w.b2, w.b3);
    FitsEarlier(p, TakeLabels(w.b1, 3), w.b2);
    FitsEarlier(p, w.b1, TakeLabels(w.b1, 3));
    GrowsRegs(b, w.b1);
    BodyResultIsNew(n.thenBody, EmitNew(w.b2, LoadConst(w.b2.nextReg, ConstNil)), w.b2.nextReg, w.b2.nextReg);
  }

  lemma Relabelled(p: Place, b: Builder, k: nat, st: State, gas: nat)
    requires Fits(p, b)
    ensures Goes(p, b, st, gas, TakeLabels(b, k), st, gas)
  {
  }

  /** The rest of a conditional whose condition has been evaluated. */
  ghost function AfterCondition(p: Place, ns: seq<Node>, h: State, gas: nat): Result {
    match Spend(h, gas)
    case Exit(o) => Exit(o)
    case Done(_, _, gas2) => AfterArm(EvalBody(p.m, p.world, ns, h, gas2, Nil))
  }

  function AfterArm(res: Result): Result {
    if res.Exit? then res
    else var spent := Spend(res.st, res.gas); if spent.Done? then Done(res.v, res.st, spent.gas) else spent
  }

  lemma {:induction false} IfRuns(p: Place, n: Node, b: Builder, h: State, st: State, gas: nat) returns (st2: State)
    requires n.If? && UniqueLabels(p.bs) && WellValued(n) && Fits(p, LowerNode(n, b).0) && SameMemory(h, st)
    ensures Ran(p, b, st, gas, Eval(p.m, p.world, n, h, gas), LowerNode(n, b).0, LowerNode(n, b).1, st2,
                Reaches(p.m, p.world, n, h, gas))
    decreases gas, n, 1
  {
    hide Fits, RunFrom, Grows;
    var w := PathOfIf(n, b);
    IfPathFits(p, n, b);
    HasValueReaches(p.m, p.world, n.cond, h, gas);
    var st1 := NodeRuns(p, n.cond, b, h, st, gas);
    st2 := st1;
    var e := Eval(p.m, p.world, n.cond, h, gas);
    if e.Done? {
      Relabelled(p, w.b1, 3, st1, e.gas);
      GoesTransitive(p, b, st, gas, w.b1, st1, e.gas, TakeLabels(w.b1, 3), st1, e.gas);
      if e.v.IsTruthy() {
        st2 := FirstArmRuns(p, n, b, h, st, gas, e, st1);
      } else {
        st2 := SecondArmRuns(p, n, b, h, st, gas, e, st1);
      }
    }
  }

  lemma {:induction false} FirstArmRuns(p: Place, n: Node, b: Builder, h: State, st: State, gas: nat, e: Result,
                                        st1: State)
    returns (st2: State)
    requires n.If? && UniqueLabels(p.bs) && WellValued(n) && Fits(p, LowerNode(n, b).0)
    requires e.Done? && e.v.IsTruthy() && e == Eval(p.m, p.world, n.cond, h, gas) && SameMemory(e.st, st1)
    requires var w := PathOfIf(n, b);
             && Goes(p, b, st, gas, TakeLabels(w.b1, 3), st1, e.gas)
             && Kept(st, st1, b.nextReg, w.b1.nextReg) && Get(st1.regs, w.c) == e.v
    ensures Ran(p, b, st, gas, Eval(p.m, p.world, n, h, gas), LowerNode(n, b).0, LowerNode(n, b).1, st2,
                Reaches(p.m, p.world, n, h, gas))
    decreases gas, n, 0
  {
    hide Fits, RunFrom, Grows, Eval, EvalBody, LowerNode;
    var w := PathOfIf(n, b);
    IfPathFits(p, n, b);
    st2 := TakenRuns(p, n.thenBody, b, st, gas, TakeLabels(w.b1, 3), CondBranch(w.c, w.t, w.e), w.t, w.t,
                     w.b2, w.b3, w.e, w.m, w.b6, w.r, e.st, st1, e.gas);
    IfAfterCondition(p, n, h, gas);
    hide LowerBody, PathOfIf;
  }

  lemma {:induction false} SecondArmRuns(p: Place, n: Node, b: Builder, h: State, st: State, gas: nat, e: Result,
                                         st1: State)
    returns (st2: State)
    requires n.If? && UniqueLabels(p.bs) && WellValued(n) && Fits(p, LowerNode(n, b).0)
    requires e.Done? && !e.v.IsTruthy() && e == Eval(p.m, p.world, n.cond, h, gas) && SameMemory(e.st, st1)
    requires var w := PathOfIf(n, b);
             && Goes(p, b, st, gas, TakeLabels(w.b1, 3), st1, e.gas)
             && Kept(st, st1, b.nextReg, w.b1.nextReg) && Get(st1.regs, w.c) == e.v
    ensures Ran(p, b, st, gas, Eval(p.m, p.world, n, h, gas), LowerNode(n, b).0, LowerNode(n, b).1, st2,
                Reaches(p.m, p.world, n, h, gas))
    decreases gas, n, 0
  {
    hide Fits, RunFrom, Grows, Eval, EvalBody, LowerNode;
    var w := PathOfIf(n, b);
    IfPathFits(p, n, b);
    st2 := TakenRuns(p, n.elseBody, b, st, gas, TakeLabels(w.b1, 3), CondBranch(w.c, w.t, w.e), w.t, w.e,
                     w.b4, w.b5, w.m, w.m, w.b6, w.r, e.st, st1, e.gas);
    IfAfterCondition(p, n, h, gas);
    hide LowerBody, PathOfIf;
  }

  lemma IfAfterCondition(p: Place, n: Node, h: State, gas: nat)
    requires n.If? && Eval(p.m, p.world, n.cond, h, gas).Done?
    ensures var e := Eval(p.m, p.world, n.cond, h, gas);
            Eval(p.m, p.world, n, h, gas)
            == AfterCondition(p, if e.v.IsTruthy() then n.thenBody else n.elseBody, e.st, e.gas)
  {
    hide EvalBinary, EvalUnary, Faults, FaultsUnary, ReadName, WriteName, AskTree, TellSelf;
  }

  // The condition is decided: jump to the arm with label goal, run it, and meet the other arm.
  lemma {:induction false} TakenRuns(p: Place, ns: seq<Node>, b: Builder, st: State, gas: nat,
                                     decided: Builder, term: Terminator, follow: Label, goal: Label,
                                     arm: Builder, end: Builder, next: Label, m: Label, merge: Builder, src: RegId,
                                     h: State, st1: State, gas1: nat) returns (st2: State)
    requires UniqueLabels(p.bs) && AllWellValued(ns) && SameMemory(h, st1)
    requires Goes(p, b, st, gas, decided, st1, gas1) && Kept(st, st1, b.nextReg, arm.nextReg)
    requires term.CondBranch? && goal == if Get(st1.regs, term.cond).IsTruthy() then term.thenLabel else term.elseLabel
    requires Fits(p, Turn(decided, term, follow))
    requires Fits(p, arm) && arm.insts == [] && arm.pending == Some(goal)
    requires end == LowerBody(ns, EmitNew(arm, LoadConst(arm.nextReg, ConstNil)), arm.nextReg).0 && Fits(p, end)
    requires Fits(p, Turn(end, Branch(m), next))
    requires Fits(p, EmitNew(merge, Copy(merge.nextReg, src))) && merge.insts == [] && merge.pending == Some(m)
    requires b.nextReg <= arm.nextReg <= end.nextReg <= merge.nextReg
    ensures var res := AfterCondition(p, ns, h, gas1);
            && RanKeeping(p, b, st, gas, res, EmitNew(merge, Copy(merge.nextReg, src)), merge.nextReg, st2, false,
                          b.nextReg)
            && (res.Done? ==> MergedValue(p, ns, h, gas1, arm, src, st1, Get(st2.regs, merge.nextReg), res.v))
    decreases gas1, ns, 2
  {
    hide Fits, RunFrom, Grows;
    st2 := st1;
    JumpGoes(p, decided, term, follow, goal, arm, st1, gas1);
    if gas1 == 0 {
      GoesThenEnds(p, b, st, gas, decided, st1, gas1, OutOfGas(st1.globals, st1.trace));
    } else {
      GoesTransitive(p, b, st, gas, decided, st1, gas1, arm, st1, gas1 - 1);
      var st3 := ArmRuns(p, ns, arm, h, st1, gas1 - 1);
      var e3 := EvalBody(p.m, p.world, ns, h, gas1 - 1, Nil);
      st2 := ThenMerge(p, b, st, gas, arm, st1, gas1 - 1, end, st3, e3, next, m, merge, src);
    }
  }

  /**
    What the merge block finds in the register src: what was there, or what the arm left if the register is its
    result.
   */
  ghost predicate MergedValue(p: Place, ns: seq<Node>, h: State, gas: nat, arm: Builder, src: RegId, st1: State,
                              merged: Value, v: Value)
    requires gas > 0
  {
    && (src < arm.nextReg ==> merged == Get(st1.regs, src))
    && (src == LowerBody(ns, EmitNew(arm, LoadConst(arm.nextReg, ConstNil)), arm.nextReg).1 ==>
          if BodyReaches(p.m, p.world, ns, h, gas - 1) then merged == v
          else Blank(st1, arm.nextReg) ==> merged == Nil)
  }

  // An arm has been reached and run: meet the other one.
  lemma ThenMerge(p: Place, b: Builder, st: State, gas: nat, arm: Builder, st1: State, gas1: nat,
                  end: Builder, st3: State, e3: Result, next: Label, m: Label, merge: Builder, src: RegId)
    returns (st2: State)
    requires UniqueLabels(p.bs) && b.nextReg <= arm.nextReg <= end.nextReg <= merge.nextReg
    requires Goes(p, b, st, gas, arm, st1, gas1) && Kept(st, st1, b.nextReg, arm.nextReg)
    requires e3.Exit? ==> Ends(p, arm, st1, gas1, e3.outcome)
    requires e3.Done? ==> Goes(p, arm, st1, gas1, end, st3, e3.gas) && SameMemory(e3.st, st3)
                          && Kept(st1, st3, arm.nextReg, end.nextReg)
    requires Fits(p, Turn(end, Branch(m), next))
    requires Fits(p, EmitNew(merge, Copy(merge.nextReg, src))) && merge.insts == [] && merge.pending == Some(m)
    ensures RanKeeping(p, b, st, gas, AfterArm(e3), EmitNew(merge, Copy(merge.nextReg, src)), merge.nextReg, st2, false,
                       b.nextReg)
    ensures AfterArm(e3).Done? ==> Get(st2.regs, merge.nextReg) == Get(st3.regs, src)
  {
    hide Fits, RunFrom, Grows;
    st2 := st1;
    if e3.Exit? {
      GoesThenEnds(p, b, st, gas, arm, st1, gas1, e3.outcome);
    } else {
      GoesTransitive(p, b, st, gas, arm, st1, gas1, end, st3, e3.gas);
      st2 := MergeRuns(p, end, next, m, merge, src, e3.st, st3, e3.gas, e3.v);
      var spent := Spend(e3.st, e3.gas);
      Continue(p, b, st, gas, end, st3, e3.gas, if spent.Done? then Done(e3.v, e3.st, spent.gas) else spent,
               EmitNew(merge, Copy(merge.nextReg, src)), merge.nextReg, st2, false, merge.nextReg);
    }
  }

  /** The builders along a loop. */
  datatype LoopPath = LoopPath(b1: Builder, c: RegId, b2: Builder, b3: Builder, b4: Builder, b5: Builder,
                               t: Label, y: Label, x: Label)

  function PathOfLoop(n: Node, b: Builder): LoopPath
    requires n.Loop?
  {
    var k := b.nextBlock;
    var t, y, x := LabelFor("loop_cond", k), LabelFor("loop_body", k + 1), LabelFor("loop_exit", k + 2);
    var b1 := Turn(TakeLabels(b, 3), Branch(t), t);
    var (b2, c) := LowerNode(n.cond, b1);
    var b3 := Turn(b2, CondBranch(c, y, x), y);
    var b4 := LowerBody(n.body, b3, 0).0;
    LoopPath(b1, c, b2, b3, b4, Turn(b4, Branch(t), x), t, y, x)
  }

  lemma LoopPathFits(p: Place, n: Node, b: Builder)
    requires n.Loop? && Fits(p, LowerNode(n, b).0)
    ensures var w := PathOfLoop(n, b);
            && LowerNode(n, b) == (EmitNew(w.b5, LoadConst(w.b5.nextReg, ConstNil)), w.b5.nextReg)
            && Fits(p, b) && Fits(p, TakeLabels(b, 3)) && Fits(p, w.b1) && Fits(p, w.b2) && Fits(p, w.b3)
            && Fits(p, w.b4) && Fits(p, w.b5)
            && b.nextReg == w.b1.nextReg <= w.b2.nextReg <= w.b3.nextReg <= w.b4.nextReg <= w.b5.nextReg
  {
    hide Fits, Grows;
    var w := PathOfLoop(n, b);
    RelabelGrows(b, TakeLabels(b, 3));
    TurnGrows(TakeLabels(b, 3), Branch(w.t), w.t);
    NodeGrows(n.cond, w.b1);
    TurnGrows(w.b2, CondBranch(w.c, w.y, w.x), w.y);
    BodyGrows(n.body, w.b3, 0);
    TurnGrows(w.b4, Branch(w.t), w.x);
    LoadNilGrows(w.b5);
    FitsEarlier(p, w.b5, EmitNew(w.b5, LoadConst(w.b5.nextReg, ConstNil)));
    FitsEarlier(p, w.b4, w.b5);
    FitsEarlier(p, w.b3, w.b4);
    FitsEarlier(p, w.b2, w.b3);
    FitsEarlier(p, w.b1, w.b2);
    FitsEarlier(p, TakeLabels(b, 3), w.b1);
    FitsEarlier(p, b, TakeLabels(b, 3));
  }

  lemma {:induction false} EnterLoop(p: Place, n: Node, b: Builder, h: State, st: State, gas: nat) returns (st2: State)
    requires n.Loop? && UniqueLabels(p.bs) && WellValued(n) && Fits(p, LowerNode(n, b).0) && SameMemory(h, st)
    ensures Ran(p, b, st, gas, Eval(p.m, p.world, n, h, gas), LowerNode(n, b).0, LowerNode(n, b).1, st2,
                Reaches(p.m, p.world, n, h, gas))
    decreases gas, n, 0
  {
    hide Fits, RunFrom, Grows;
    var w := PathOfLoop(n, b);
    LoopPathFits(p, n, b);
    st2 := st;
    Relabelled(p, b, 3, st, gas);
    JumpGoes(p, TakeLabels(b, 3), Branch(w.t), w.t, w.t, w.b1, st, gas);
    if gas == 0 {
      GoesThenEnds(p, b, st, gas, TakeLabels(b, 3), st, gas, OutOfGas(st.globals, st.trace));
    } else {
      GoesTransitive(p, b, st, gas, TakeLabels(b, 3), st, gas, w.b1, st, gas - 1);
      var st1 := LoopRuns(p, n, b, h, st, gas - 1);
      var e := EvalLoop(p.m, p.world, n, h, gas - 1);
      if e.Exit? {
        GoesThenEnds(p, b, st, gas, w.b1, st, gas - 1, e.outcome);
      } else {
        GoesTransitive(p, b, st, gas, w.b1, st, gas - 1, w.b5, st1, e.gas);
        var load := LoadConst(w.b5.nextReg, ConstNil);
        st2 := EmitRuns(p, w.b5, load, st1, e.gas, e.st, Nil);
        LoopValueIsNil(p.m, p.world, n, h, gas - 1);
        Continue(p, b, st, gas, w.b5, st1, e.gas, Done(Nil, e.st, e.gas), EmitNew(w.b5, load), w.b5.nextReg, st2, true,
                 w.b5.nextReg);
      }
    }
  }

  lemma {:induction false} LoopValueIsNil(m: Mode, world: World, n: Node, h: State, gas: nat)
    requires n.Loop?
    ensures var e := EvalLoop(m, world, n, h, gas); e.Done? ==> e.v == Nil
    decreases gas
  {
    var e := Eval(m, world, n.cond, h, gas);
    if e.Done? && e.gas > 0 && e.v.IsTruthy() {
      var e3 := EvalBody(m, world, n.body, e.st, e.gas - 1, Nil);
      if e3.Done? && e3.gas > 0 {
        LoopValueIsNil(m, world, n, e3.st, e3.gas - 1);
      }
    }
  }

  // From the test of the loop to its exit, by induction on the gas.
  lemma {:induction false} LoopRuns(p: Place, n: Node, b: Builder, h: State, st: State, gas: nat) returns (st2: State)
    requires n.Loop? && UniqueLabels(p.bs) && WellValued(n) && Fits(p, LowerNode(n, b).0) && SameMemory(h, st)
    ensures var w := PathOfLoop(n, b);
            RanKeeping(p, w.b1, st, gas, EvalLoop(p.m, p.world, n, h, gas), w.b5, 0, st2, false, w.b1.nextReg)
    decreases gas, n, 0
  {
    hide Fits, RunFrom, Grows, LowerNode, LowerBody, LabelFor, EvalBody, Eval;
    var w := PathOfLoop(n, b);
    LoopPathFits(p, n, b);
    HasValueReaches(p.m, p.world, n.cond, h, gas);
    var st1 := NodeRuns(p, n.cond, w.b1, h, st, gas);
    st2 := st1;
    var e := Eval(p.m, p.world, n.cond, h, gas);
    if e.Done? {
      var yes := e.v.IsTruthy();
      var target := if yes then w.b3 else w.b5;
      JumpGoes(p, w.b2, CondBranch(w.c, w.y, w.x), w.y, if yes then w.y else w.x, target, st1, e.gas);
      if e.gas == 0 {
        GoesThenEnds(p, w.b1, st, gas, w.b2, st1, e.gas, OutOfGas(st1.globals, st1.trace));
      } else {
        GoesTransitive(p, w.b1, st, gas, w.b2, st1, e.gas, target, st1, e.gas - 1);
        if yes {
          st2 := IterationRuns(p, n, b, e.st, st1, e.gas - 1);
          Continue(p, w.b1, st, gas, w.b3, st1, e.gas - 1, AfterTest(p, n, e.st, e.gas - 1), w.b5, 0, st2, false,
                   w.b1.nextReg);
        }
      }
    }
  }

  /** The rest of a loop whose test has just succeeded. */
  ghost function AfterTest(p: Place, n: Node, h: State, gas: nat): Result
    requires n.Loop?
  {
    match EvalBody(p.m, p.world, n.body, h, gas, Nil)
    case Exit(o) => Exit(o)
    case Done(_, h3, gas3) =>
      match Spend(h3, gas3)
      case Exit(o) => Exit(o)
      case Done(_, _, gas4) => EvalLoop(p.m, p.world, n, h3, gas4)
  }

  lemma {:induction false} IterationRuns(p: Place, n: Node, b: Builder, h: State, st: State, gas: nat)
    returns (st2: State)
    requires n.Loop? && UniqueLabels(p.bs) && WellValued(n) && Fits(p, LowerNode(n, b).0) && SameMemory(h, st)
    ensures var w := PathOfLoop(n, b);
            RanKeeping(p, w.b3, st, gas, AfterTest(p, n, h, gas), w.b5, 0, st2, false, w.b1.nextReg)
    decreases gas, n, 2
  {
    hide Fits, RunFrom, Grows;
    var w := PathOfLoop(n, b);
    LoopPathFits(p, n, b);
    var st1 := st;
    if n.body != [] {
      st1 := BodyRuns(p, n.body, w.b3, 0, h, st, gas, Nil);
    }
    st2 := st1;
    var e := EvalBody(p.m, p.world, n.body, h, gas, Nil);
    if e.Done? {
      JumpGoes(p, w.b4, Branch(w.t), w.x, w.t, w.b1, st1, e.gas);
      if e.gas == 0 {
        GoesThenEnds(p, w.b3, st, gas, w.b4, st1, e.gas, OutOfGas(st1.globals, st1.trace));
      } else {
        GoesTransitive(p, w.b3, st, gas, w.b4, st1, e.gas, w.b1, st1, e.gas - 1);
        st2 := LoopRuns(p, n, b, e.st, st1, e.gas - 1);
        Continue(p, w.b3, st, gas, w.b1, st1, e.gas - 1, EvalLoop(p.m, p.world, n, e.st, e.gas - 1), w.b5, 0, st2,
                 false, w.b1.nextReg);
      }
    }
  }

  // ---------------------------------------------------------------- whole functions

  lemma {:induction false} BoundRegs(n: nat, args: seq<Value>, i: nat, k: nat)
    requires i <= n && k < i
    ensures Get(Bind(ParamRegs(n), args, i), k) == if k < |args| then args[k] else Nil
  {
    if k < i - 1 {
      BoundRegs(n, args, i - 1, k);
    }
  }

  /** If setting instance variables is watched, no parameter is one. */
  predicate PlainNames(m: Mode, params: seq<string>) {
    m.objects ==> forall name | name in params :: !IsIvarName(name)
  }

  // The first instructions store the parameters under their names.
  lemma {:induction false} ParamsRun(p: Place, params: seq<string>, i: nat, args: seq<Value>, h: State, st: State,
                                     gas: nat)
    returns (st2: State)
    requires i <= |params| && Fits(p, LowerParams(params, i)) && SameMemory(h, st) && PlainNames(p.m, params)
    requires forall k: nat :: k < |params| ==> Get(st.regs, k) == if k < |args| then args[k] else Nil
    ensures Goes(p, EMPTY, st, gas, LowerParams(params, i), st2, gas)
    ensures SameMemory(BindNames(h, params, args, i), st2) && st2.regs == st.regs
    decreases i
  {
    hide Fits, RunFrom, Grows, ReadName, WriteName;
    if i == 0 {
      st2 := st;
    } else {
      var b := LowerParams(params, i - 1);
      ParamsNextReg(params, i - 1);
      EmitGrows(b, Store(params[i - 1], b.nextReg), LowerParams(params, i));
      var st1 := ParamsRun(p, params, i - 1, args, h, st, gas);
      EmitGoes(p, b, Store(params[i - 1], b.nextReg), LowerParams(params, i), st1, gas);
      st2 := WriteName(st1, params[i - 1], Get(st1.regs, i - 1));
      NamesSeeMemoryOnly(BindNames(h, params, args, i - 1), st1, params[i - 1], Get(st1.regs, i - 1));
    }
  }

  lemma {:induction false} ParamsNextReg(params: seq<string>, i: nat)
    requires i <= |params|
    ensures LowerParams(params, i).nextReg == i
  {
    if i > 0 {
      ParamsNextReg(params, i - 1);
    }
  }

  lemma {:induction false} UnboundRegs(n: nat, args: seq<Value>, i: nat, r: RegId)
    requires i <= n <= r
    ensures Get(Bind(ParamRegs(n), args, i), r) == Nil
  {
    if i > 0 {
      UnboundRegs(n, args, i - 1, r);
    }
  }

  /** What the tree returns is not the value of a conditional whose condition was false, or it is nil anyway. */
  predicate ValueSurvives(m: Mode, world: World, params: seq<string>, body: seq<Node>, args: seq<Value>,
                          globals: Globals, trace: seq<Event>, gas: nat)
  {
    gas == 0
    || var h := BindNames(State(map[], map[], globals, trace), params, args, |params|);
       var e := EvalBody(m, world, body, h, gas - 1, Nil);
       e.Exit? || e.v == Nil || BodyReaches(m, world, body, h, gas - 1)
  }

  // A lowered function runs as its tree evaluates, and returns nil where the value is lost in a conditional.
  lemma LoweredRuns(m: Mode, world: World, params: seq<string>, body: seq<Node>, args: seq<Value>,
                    globals: Globals, trace: seq<Event>, gas: nat)
    requires AllWellValued(body) && PlainNames(m, params)
    ensures var o := RunFunc(m, world, LowerFunction(params, body), args, globals, trace, gas);
            if gas == 0 then o == OutOfGas(globals, trace)
            else
              var h := BindNames(State(map[], map[], globals, trace), params, args, |params|);
              match EvalBody(m, world, body, h, gas - 1, Nil)
              case Exit(o') => o == o'
              case Done(v, h2, _) =>
                o == Returned(if BodyReaches(m, world, body, h, gas - 1) then v else Nil, h2.globals, h2.trace)
  {
    hide EvalBody, LowerBody, LowerParams, BindNames, Bind, ReadName, WriteName, BodyReaches;
    var f := LowerFunction(params, body);
    var p := Place(m, world, f.blocks);
    var b0 := LowerParams(params, |params|);
    var (b, last) := LowerBody(body, b0, 0);
    LoweredIsClosedGraph(params, body);
    assert Fits(p, b);
    BodyGrows(body, b0, 0);
    FitsEarlier(p, b0, b);
    if gas > 0 {
      var st := Enter(f, args, globals, trace);
      ParamsBound(params, args, st);
      ParamsNextReg(params, |params|);
      var h0 := State(map[], map[], globals, trace);
      var h := BindNames(h0, params, args, |params|);
      var st1 := ParamsRun(p, params, |params|, args, h0, st, gas - 1);
      EntryRuns(p, st, gas);
      FunctionEnds(p, body, b0, h, st, st1, gas - 1);
    }
  }

  // The main result: for every world, every argument list and every amount of gas, the lowered function makes
  // the calls that the tree makes and ends as the tree ends; and it returns what the tree returns exactly if
  // that is not lost in a conditional.
  lemma LoweringIsCorrect(m: Mode, world: World, params: seq<string>, body: seq<Node>, args: seq<Value>,
                          globals: Globals, trace: seq<Event>, gas: nat)
    requires AllWellValued(body) && PlainNames(m, params)
    ensures var o := RunFunc(m, world, LowerFunction(params, body), args, globals, trace, gas);
            var o' := EvalFunc(m, world, params, body, args, globals, trace, gas);
            SameButValue(o, o') && (o == o' <==> ValueSurvives(m, world, params, body, args, globals, trace, gas))
  {
    hide EvalBody, LowerFunction, BindNames, BodyReaches, RunFunc;
    LoweredRuns(m, world, params, body, args, globals, trace, gas);
  }

  lemma ParamsBound(params: seq<string>, args: seq<Value>, st: State)
    requires st.regs == Bind(ParamRegs(|params|), args, |params|)
    ensures forall k: nat :: k < |params| ==> Get(st.regs, k) == if k < |args| then args[k] else Nil
    ensures Blank(st, |params|)
  {
    forall k: nat | k < |params|
      ensures Get(st.regs, k) == if k < |args| then args[k] else Nil
    {
      BoundRegs(|params|, args, |params|, k);
    }
    forall r: RegId | |params| <= r
      ensures Get(st.regs, r) == Nil
    {
      UnboundRegs(|params|, args, |params|, r);
    }
  }

  // From the start of the body to the end of the function.
  lemma FunctionEnds(p: Place, body: seq<Node>, b0: Builder, h: State, st: State, st1: State, gas: nat)
    requires UniqueLabels(p.bs) && AllWellValued(body) && SameMemory(h, st1) && Blank(st1, b0.nextReg)
    requires Goes(p, EMPTY, st, gas, b0, st1, gas)
    requires var (b, last) := LowerBody(body, b0, 0);
             && Fits(p, b)
             && p.bs[|b.blocks|] == BasicBlock(OpenLabel(b), b.insts, Return(if body == [] then None else Some(last)))
    ensures match EvalBody(p.m, p.world, body, h, gas, Nil)
            case Exit(o) => RunFrom(p, EMPTY, st, gas) == o
            case Done(v, h2, _) =>
              RunFrom(p, EMPTY, st, gas)
              == Returned(if BodyReaches(p.m, p.world, body, h, gas) then v else Nil, h2.globals, h2.trace)
  {
    hide EvalBody, LowerBody, BodyReaches;
    var (b, last) := LowerBody(body, b0, 0);
    var st2 := st1;
    var e := EvalBody(p.m, p.world, body, h, gas, Nil);
    if body == [] {
      EmptyBody(p.m, p.world, h, gas, b0);
    } else {
      st2 := BodyRuns(p, body, b0, 0, h, st1, gas, Nil);
    }
    if e.Exit? {
      GoesThenEnds(p, EMPTY, st, gas, b0, st1, gas, e.outcome);
    } else {
      GoesTransitive(p, EMPTY, st, gas, b0, st1, gas, b, st2, e.gas);
      assert ExecFrom(p.m, p.world, p.bs[|b.blocks|].insts, |b.insts|, st2) == Next(st2);
    }
  }

  lemma EntryRuns(p: Place, st: State, gas: nat)
    requires Fits(p, EMPTY) && gas > 0
    ensures Run(p.m, p.world, p.bs, EntryLabel(p.bs), st, gas) == RunFrom(p, EMPTY, st, gas - 1)
  {
    assert Find(p.bs, EntryLabel(p.bs)) == Some(0);
  }

  lemma EmptyBody(m: Mode, world: World, h: State, gas: nat, b: Builder)
    ensures EvalBody(m, world, [], h, gas, Nil) == Done(Nil, h, gas) && LowerBody([], b, 0) == (b, 0)
  {
  }
}
