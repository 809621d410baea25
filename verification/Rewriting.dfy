/**
  Replacing instructions one for one. If each replacement has the same effect in every state that
  satisfies the run-time invariant of strict form, the function keeps all its runs and its form.
 */
module Rewriting {
  import opened Options
  import opened Mir
  import opened Ssa

  /** The same graph: parameters, labels and terminators. */
  ghost predicate SameGraph(f: Func, f': Func) {
    && f.params == f'.params
    && |f.blocks| == |f'.blocks|
    && (forall b :: 0 <= b < |f.blocks| ==> f.blocks[b].lbl == f'.blocks[b].lbl)
    && (forall b :: 0 <= b < |f.blocks| ==> f.blocks[b].term == f'.blocks[b].term)
  }

  ghost predicate SameShape(f: Func, f': Func) {
    && SameGraph(f, f')
    && forall b :: 0 <= b < |f.blocks| ==> |f.blocks[b].insts| == |f'.blocks[b].insts|
  }

  ghost predicate SameDests(f: Func, f': Func)
    requires SameShape(f, f')
  {
    forall b: nat, i: nat :: At(f, b, i) ==> Dest(InstAt(f, b, i)) == Dest(InstAt(f', b, i))
  }

  predicate RefinesExec(e: Exec, e': Exec) {
    e.Abort? || e == e'
  }

  /** inst' may stand in for inst at this place: it has the same effect in every state a run can be in. */
  ghost predicate StandsIn(m: Mode, f: Func, live: iset<RegId>, b: nat, i: nat, inst: Inst, inst': Inst) {
    && (forall u :: u in Uses(inst') ==> GoodUse(f, live, u, b, i))
    && (Evaluates(inst') ==> inst'.dest in live)
    && forall world: World, st :: Inv(m, f, live, b, i, st)
         ==> RefinesExec(ExecInst(m, world, inst, st), ExecInst(m, world, inst', st))
  }

  ghost predicate Replaces(m: Mode, f: Func, live: iset<RegId>, b: nat, i: nat, inst': Inst)
    requires At(f, b, i)
  {
    var inst := InstAt(f, b, i);
    && Dest(inst') == Dest(inst)
    && if Matters(live, inst) then inst' == inst || StandsIn(m, f, live, b, i, inst, inst')
       else !Effectful(inst') && !Evaluates(inst')
  }

  ghost predicate Rewrites(m: Mode, f: Func, f': Func, live: iset<RegId>) {
    && SameShape(f, f')
    && forall b: nat, i: nat :: At(f, b, i) ==> Replaces(m, f, live, b, i, InstAt(f', b, i))
  }

  // ---------------------------------------------------------------- form

  lemma SamePaths(f: Func, f': Func)
    requires SameGraph(f, f')
    ensures forall lbl :: Find(f.blocks, lbl) == Find(f'.blocks, lbl)
    ensures forall p, b :: PathTo(f, p, b) <==> PathTo(f', p, b)
  {
    forall lbl
      ensures Find(f.blocks, lbl) == Find(f'.blocks, lbl)
    {
      SameLabelsFindFrom(f.blocks, f'.blocks, lbl, 0);
    }
    assert forall b, c :: Successor(f, b, c) <==> Successor(f', b, c);
  }

  lemma SameAvailable(f: Func, f': Func, r: RegId, b: nat, i: nat)
    requires SameShape(f, f') && SameDests(f, f')
    ensures Available(f, r, b, i) <==> Available(f', r, b, i)
  {
    SamePaths(f, f');
    assert forall c, j :: Def(f, r, c, j) <==> Def(f', r, c, j);
    assert forall c :: BlockDefines(f, c, r) <==> BlockDefines(f', c, r);
    assert forall p :: DefinedBefore(f, r, p) <==> DefinedBefore(f', r, p);
  }

  lemma RewritingKeepsStrict(m: Mode, f: Func, f': Func, live: iset<RegId>)
    requires Strict(f, live) && Rewrites(m, f, f', live)
    ensures Strict(f', live)
  {
    assert forall r, b: nat, i: nat :: Def(f', r, b, i) ==> Def(f, r, b, i);
    forall b: nat, i: nat, r | At(f', b, i) && Matters(live, InstAt(f', b, i)) && r in Uses(InstAt(f', b, i))
      ensures GoodUse(f', live, r, b, i)
    {
      assert Replaces(m, f, live, b, i, InstAt(f', b, i));
      assert GoodUse(f, live, r, b, i);
      SameAvailable(f, f', r, b, i);
    }
    forall b: nat, i: nat | At(f', b, i) && Evaluates(InstAt(f', b, i))
      ensures InstAt(f', b, i).dest in live
    {
      assert Replaces(m, f, live, b, i, InstAt(f', b, i));
    }
    forall b: nat, r | b < |f'.blocks| && r in TermUses(f'.blocks[b].term)
      ensures GoodUse(f', live, r, b, |f'.blocks[b].insts|)
    {
      assert GoodUse(f, live, r, b, |f.blocks[b].insts|);
      SameAvailable(f, f', r, b, |f.blocks[b].insts|);
    }
  }

  // ---------------------------------------------------------------- runs

  /** Equal but for the registers nobody looks at. */
  ghost predicate Agree(live: iset<RegId>, st: State, st': State) {
    && (forall r :: r in live ==> Get(st.regs, r) == Get(st'.regs, r))
    && st.vars == st'.vars && st.globals == st'.globals && st.trace == st'.trace
  }

  ghost predicate AgreeExec(live: iset<RegId>, e: Exec, e': Exec) {
    e.Abort? || (e'.Next? && Agree(live, e.st, e'.st))
  }

  lemma SameInstAgrees(m: Mode, world: World, live: iset<RegId>, inst: Inst, st: State, st': State)
    requires Agree(live, st, st')
    requires forall u :: u in Uses(inst) ==> u in live
    ensures AgreeExec(live, ExecInst(m, world, inst, st), ExecInst(m, world, inst, st'))
  {
    hide ExecInst;
    if inst.Call? || inst.MethodCall? || inst.Send? {
      SameCallAgrees(m, world, live, inst, st, st');
    } else if inst.Load? || inst.Store? {
      SameAccessAgrees(m, world, live, inst, st, st');
    } else {
      SameComputationAgrees(m, world, live, inst, st, st');
    }
  }

  lemma SameComputationAgrees(m: Mode, world: World, live: iset<RegId>, inst: Inst, st: State, st': State)
    requires Agree(live, st, st') && !Effectful(inst) && !inst.Load?
    requires forall u :: u in Uses(inst) ==> u in live
    ensures AgreeExec(live, ExecInst(m, world, inst, st), ExecInst(m, world, inst, st'))
  {
    hide EvalBinary, EvalUnary, Faults, FaultsUnary;
    if inst.BlockCreate? {
      assert GetAll(st.regs, inst.captured) == GetAll(st'.regs, inst.captured);
    }
  }

  lemma SameAccessAgrees(m: Mode, world: World, live: iset<RegId>, inst: Inst, st: State, st': State)
    requires Agree(live, st, st') && (inst.Load? || inst.Store?)
    requires forall u :: u in Uses(inst) ==> u in live
    ensures AgreeExec(live, ExecInst(m, world, inst, st), ExecInst(m, world, inst, st'))
  {
    hide ReadName, WriteName, Lookup;
    NamesSeeMemoryOnly(st, st', inst.name, if inst.Store? then Get(st.regs, inst.src) else Nil);
  }

  lemma SameCallAgrees(m: Mode, world: World, live: iset<RegId>, inst: Inst, st: State, st': State)
    requires Agree(live, st, st') && (inst.Call? || inst.MethodCall? || inst.Send?)
    requires forall u :: u in Uses(inst) ==> u in live
    ensures AgreeExec(live, ExecInst(m, world, inst, st), ExecInst(m, world, inst, st'))
  {
    hide EvalBinary, EvalUnary, Faults, FaultsUnary, ReadName, WriteName, Lookup;
    assert GetAll(st.regs, inst.args) == GetAll(st'.regs, inst.args);
  }

  lemma DeadInstsAgree(m: Mode, world: World, live: iset<RegId>, inst: Inst, inst': Inst, st: State, st': State)
    requires Agree(live, st, st') && Dest(inst) == Dest(inst')
    requires !Effectful(inst) && !Evaluates(inst) && !Effectful(inst') && !Evaluates(inst')
    requires Dest(inst).Some? ==> Dest(inst).value !in live
    ensures AgreeExec(live, ExecInst(m, world, inst, st), ExecInst(m, world, inst', st'))
  {
  }

  lemma StepAgrees(m: Mode, world: World, f: Func, f': Func, live: iset<RegId>, b: nat, i: nat, st: State, st': State)
    requires Strict(f, live) && Rewrites(m, f, f', live) && At(f, b, i)
    requires Inv(m, f, live, b, i, st) && Agree(live, st, st')
    ensures AgreeExec(live, ExecInst(m, world, InstAt(f, b, i), st), ExecInst(m, world, InstAt(f', b, i), st'))
  {
    var inst, inst' := InstAt(f, b, i), InstAt(f', b, i);
    assert Replaces(m, f, live, b, i, inst');
    if Matters(live, inst) {
      if inst' == inst {
        assert forall u :: u in Uses(inst) ==> GoodUse(f, live, u, b, i);
      } else {
        assert RefinesExec(ExecInst(m, world, inst, st), ExecInst(m, world, inst', st));
      }
      SameInstAgrees(m, world, live, inst', st, st');
    } else {
      DeadInstsAgree(m, world, live, inst, inst', st, st');
    }
  }

  lemma {:induction false} BlockAgrees(m: Mode, world: World, f: Func, f': Func, live: iset<RegId>,
                                       b: nat, i: nat, st: State, st': State)
    requires Strict(f, live) && Rewrites(m, f, f', live)
    requires Inv(m, f, live, b, i, st) && Agree(live, st, st')
    ensures AgreeExec(live, ExecFrom(m, world, f.blocks[b].insts, i, st),
                      ExecFrom(m, world, f'.blocks[b].insts, i, st'))
    decreases |f.blocks[b].insts| - i
  {
    if i < |f.blocks[b].insts| {
      assert At(f, b, i);
      var e := ExecInst(m, world, InstAt(f, b, i), st);
      var e' := ExecInst(m, world, InstAt(f', b, i), st');
      StepAgrees(m, world, f, f', live, b, i, st, st');
      if e.Next? {
        StepKeepsEquations(m, world, f, live, b, i, st);
        StepKeepsStores(m, world, f, live, b, i, st);
        BlockAgrees(m, world, f, f', live, b, i + 1, e.st, e'.st);
      }
    }
  }

  lemma {:induction false} RunAgrees(m: Mode, world: World, f: Func, f': Func, live: iset<RegId>,
                                     lbl: Label, st: State, st': State, gas: nat)
    requires Strict(f, live) && Rewrites(m, f, f', live)
    requires EntryReady(m, f, live, lbl, st) && Agree(live, st, st')
    ensures Refines(Run(m, world, f.blocks, lbl, st, gas), Run(m, world, f'.blocks, lbl, st', gas))
    decreases gas, 0
  {
    SamePaths(f, f');
    if gas > 0 && Find(f.blocks, lbl).Some? {
      var b := Find(f.blocks, lbl).value;
      BlockAgrees(m, world, f, f', live, b, 0, st, st');
      BlockKeepsInv(m, world, f, live, b, 0, st);
      var e := ExecFrom(m, world, f.blocks[b].insts, 0, st);
      var e' := ExecFrom(m, world, f'.blocks[b].insts, 0, st');
      if e.Next? {
        LeaveAgrees(m, world, f, f', live, b, e.st, e'.st, gas - 1);
      }
    }
  }

  lemma {:induction false} LeaveAgrees(m: Mode, world: World, f: Func, f': Func, live: iset<RegId>,
                                       b: nat, st: State, st': State, gas: nat)
    requires Strict(f, live) && Rewrites(m, f, f', live)
    requires b < |f.blocks| && Inv(m, f, live, b, |f.blocks[b].insts|, st) && Agree(live, st, st')
    ensures Refines(Leave(m, world, f.blocks, f.blocks[b].term, st, gas),
                    Leave(m, world, f'.blocks, f.blocks[b].term, st', gas))
    decreases gas, 1
  {
    var term := f.blocks[b].term;
    match term
    case Return(Some(r)) =>
      assert GoodUse(f, live, r, b, |f.blocks[b].insts|);
    case Branch(l) =>
      TargetReady(m, f, live, b, l, st);
      RunAgrees(m, world, f, f', live, l, st, st', gas);
    case CondBranch(r, t, e) =>
      assert GoodUse(f, live, r, b, |f.blocks[b].insts|);
      var l := if Get(st.regs, r).IsTruthy() then t else e;
      TargetReady(m, f, live, b, l, st);
      RunAgrees(m, world, f, f', live, l, st, st', gas);
    case _ =>
  }

  // The main result: a sound rewriting keeps every run, and the form that later passes need.
  lemma RewritingIsSound(m: Mode, f: Func, f': Func, live: iset<RegId>)
    requires Strict(f, live) && Rewrites(m, f, f', live)
    ensures RefinesFunc(m, f, f') && Strict(f', live)
  {
    RewritingKeepsStrict(m, f, f', live);
    forall world: World, args, globals, trace, gas: nat
      ensures Refines(RunFunc(m, world, f, args, globals, trace, gas),
                      RunFunc(m, world, f', args, globals, trace, gas))
    {
      var st := Enter(f, args, globals, trace);
      StartReady(m, f, live, st);
      RunAgrees(m, world, f, f', live, EntryLabel(f.blocks), st, st, gas);
    }
  }
}
