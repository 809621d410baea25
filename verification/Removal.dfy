/**
  Deleting instructions whose results nobody reads: a register no instruction or terminator uses,
  or a variable no instruction loads. Only the instructions kept can tell, so runs are unchanged.
 */
module Removal {
  import opened Options
  import opened Mir
  import opened Ssa
  import opened Rewriting

  /** The instructions among the first n that are kept, in order. */
  function Kept(insts: seq<Inst>, keep: Inst -> bool, n: nat): seq<Inst>
    requires n <= |insts|
  {
    if n == 0 then []
    else Kept(insts, keep, n - 1) + if keep(insts[n - 1]) then [insts[n - 1]] else []
  }

  ghost predicate Filtered(f: Func, f': Func, keep: Inst -> bool) {
    && SameGraph(f, f')
    && forall b :: 0 <= b < |f.blocks| ==>
         f'.blocks[b].insts == Kept(f.blocks[b].insts, keep, |f.blocks[b].insts|)
  }

  lemma FilteredIsUnique(f: Func, g: Func, g': Func, keep: Inst -> bool)
    requires Filtered(f, g, keep) && Filtered(f, g', keep)
    ensures g == g'
  {
    assert g.blocks == g'.blocks;
  }

  predicate UsesAt(f: Func, b: nat, i: nat, r: RegId) {
    At(f, b, i) && r in Uses(InstAt(f, b, i))
  }

  predicate LoadsAt(f: Func, b: nat, i: nat, name: string) {
    At(f, b, i) && InstAt(f, b, i).Load? && InstAt(f, b, i).name == name
  }

  ghost predicate IsUsed(f: Func, r: RegId) {
    || (exists b: nat, i: nat :: UsesAt(f, b, i, r))
    || (exists b :: 0 <= b < |f.blocks| && r in TermUses(f.blocks[b].term))
  }

  ghost predicate IsLoaded(f: Func, name: string) {
    exists b: nat, i: nat :: LoadsAt(f, b, i, name)
  }

  /** Instructions that consult the variable self without naming it. */
  predicate ConsultsSelf(inst: Inst) {
    || (inst.Call? && inst.name !in Builtins())
    || ((inst.Load? || inst.Store?) && IsIvarName(inst.name))
  }

  /** Instructions for blocks that are passed to calls. */
  predicate PassesBlock(inst: Inst) {
    inst.BlockCreate? || inst.SymbolToProc? || inst.Send?
  }

  ghost predicate AnyConsultsSelf(f: Func) {
    exists b: nat, i: nat :: At(f, b, i) && ConsultsSelf(InstAt(f, b, i))
  }

  ghost predicate IsObserved(f: Func, name: string) {
    IsLoaded(f, name) || (name == SELF && AnyConsultsSelf(f))
  }

  ghost predicate Removable(f: Func, inst: Inst) {
    match inst
    case Nop => true
    case Store(name, _) => IsVariable(name) && !IsObserved(f, name)
    case Call(_, _, _) => false
    case MethodCall(_, _, _, _, _) => false
    case Send(_, _, _, _, _) => false
    case _ => !IsUsed(f, inst.dest)
  }

  ghost predicate Removes(f: Func, f': Func, keep: Inst -> bool) {
    && Filtered(f, f', keep)
    && forall b: nat, i: nat :: At(f, b, i) && !keep(InstAt(f, b, i)) ==> Removable(f, InstAt(f, b, i))
  }

  /** Nothing goes whose result is used: enough for the form. */
  ghost predicate Drops(f: Func, f': Func, keep: Inst -> bool) {
    && Filtered(f, f', keep)
    && forall b: nat, i: nat :: At(f, b, i) && !keep(InstAt(f, b, i)) && Dest(InstAt(f, b, i)).Some?
         ==> !IsUsed(f, InstAt(f, b, i).dest)
  }

  lemma RemovalDrops(f: Func, f': Func, keep: Inst -> bool)
    requires Removes(f, f', keep)
    ensures Drops(f, f', keep)
  {
  }

  // ---------------------------------------------------------------- positions

  lemma {:induction false} KeptPrefix(insts: seq<Inst>, keep: Inst -> bool, i: nat, n: nat)
    requires i <= n <= |insts|
    ensures Kept(insts, keep, i) <= Kept(insts, keep, n)
    decreases n - i
  {
    if i < n {
      KeptPrefix(insts, keep, i, n - 1);
    }
  }

  // A kept instruction sits where the kept instructions before it end.
  lemma KeptAt(insts: seq<Inst>, keep: Inst -> bool, i: nat)
    requires i < |insts| && keep(insts[i])
    ensures var all := Kept(insts, keep, |insts|);
            var k := |Kept(insts, keep, i)|; k < |all| && all[k] == insts[i]
  {
    KeptPrefix(insts, keep, i + 1, |insts|);
    assert Kept(insts, keep, i + 1)[|Kept(insts, keep, i)|] == insts[i];
  }

  lemma {:induction false} KeptSource(insts: seq<Inst>, keep: Inst -> bool, n: nat, k: nat) returns (i: nat)
    requires n <= |insts| && k < |Kept(insts, keep, n)|
    ensures i < n && keep(insts[i]) && k == |Kept(insts, keep, i)| && Kept(insts, keep, n)[k] == insts[i]
  {
    if k < |Kept(insts, keep, n - 1)| {
      i := KeptSource(insts, keep, n - 1, k);
    } else {
      i := n - 1;
    }
  }

  // ---------------------------------------------------------------- form

  /** No definition of r is deleted. */
  ghost predicate KeepsDefs(f: Func, keep: Inst -> bool, r: RegId) {
    forall b: nat, i: nat :: Def(f, r, b, i) ==> keep(InstAt(f, b, i))
  }

  lemma RemovalKeepsDef(f: Func, f': Func, keep: Inst -> bool, b: nat, i: nat, r: RegId)
    requires Drops(f, f', keep) && Def(f, r, b, i) && KeepsDefs(f, keep, r)
    ensures Def(f', r, b, |Kept(f.blocks[b].insts, keep, i)|)
  {
    assert keep(InstAt(f, b, i));
    KeptAt(f.blocks[b].insts, keep, i);
  }

  lemma RemovalKeepsAvailable(f: Func, f': Func, keep: Inst -> bool, r: RegId, b: nat, i: nat)
    requires Drops(f, f', keep) && KeepsDefs(f, keep, r)
    requires b < |f.blocks| && i <= |f.blocks[b].insts| && Available(f, r, b, i)
    ensures Available(f', r, b, |Kept(f.blocks[b].insts, keep, i)|)
  {
    SamePaths(f, f');
    if j: nat :| j < i && Def(f, r, b, j) {
      RemovalKeepsDef(f, f', keep, b, j, r);
      KeptPrefix(f.blocks[b].insts, keep, j + 1, i);
    } else if r !in f.params {
      forall p | PathTo(f', p, b)
        ensures DefinedBefore(f', r, p)
      {
        var k :| 0 <= k < |p| - 1 && BlockDefines(f, p[k], r);
        var j :| Def(f, r, p[k], j);
        RemovalKeepsDef(f, f', keep, p[k], j, r);
      }
    }
  }

  lemma RemovedDef(f: Func, f': Func, keep: Inst -> bool, b: nat, k: nat) returns (i: nat)
    requires Drops(f, f', keep) && At(f', b, k)
    ensures At(f, b, i) && keep(InstAt(f, b, i)) && InstAt(f, b, i) == InstAt(f', b, k)
    ensures k == |Kept(f.blocks[b].insts, keep, i)|
  {
    i := KeptSource(f.blocks[b].insts, keep, |f.blocks[b].insts|, k);
  }

  lemma RemovalKeepsSingleDef(f: Func, f': Func, keep: Inst -> bool)
    requires SingleDef(f) && Drops(f, f', keep)
    ensures SingleDef(f')
  {
    forall r, b: nat, i: nat, c: nat, j: nat | Def(f', r, b, i) && Def(f', r, c, j)
      ensures b == c && i == j
    {
      var i0 := RemovedDef(f, f', keep, b, i);
      var j0 := RemovedDef(f, f', keep, c, j);
      assert Def(f, r, b, i0) && Def(f, r, c, j0);
    }
    forall r, b: nat, i: nat | Def(f', r, b, i)
      ensures r !in f'.params
    {
      var i0 := RemovedDef(f, f', keep, b, i);
      assert Def(f, r, b, i0);
    }
  }

  lemma RemovalKeepsStrict(f: Func, f': Func, keep: Inst -> bool, live: iset<RegId>)
    requires Strict(f, live) && Drops(f, f', keep)
    ensures Strict(f', live)
  {
    RemovalKeepsSingleDef(f, f', keep);
    forall b: nat, i: nat | At(f', b, i) && Evaluates(InstAt(f', b, i))
      ensures InstAt(f', b, i).dest in live
    {
      var i0 := RemovedDef(f, f', keep, b, i);
    }
    forall b: nat, i: nat, r | At(f', b, i) && Matters(live, InstAt(f', b, i)) && r in Uses(InstAt(f', b, i))
      ensures GoodUse(f', live, r, b, i)
    {
      var i0 := RemovedDef(f, f', keep, b, i);
      assert GoodUse(f, live, r, b, i0) && UsesAt(f, b, i0, r);
      RemovalKeepsAvailable(f, f', keep, r, b, i0);
    }
    forall b: nat, r | b < |f'.blocks| && r in TermUses(f'.blocks[b].term)
      ensures GoodUse(f', live, r, b, |f'.blocks[b].insts|)
    {
      var n := |f.blocks[b].insts|;
      assert GoodUse(f, live, r, b, n);
      RemovalKeepsAvailable(f, f', keep, r, b, n);
    }
  }

  // ---------------------------------------------------------------- runs

  /** Equal in every register used and every variable observed. */
  ghost predicate Alike(f: Func, st: State, st': State) {
    && (forall r :: IsUsed(f, r) ==> Get(st.regs, r) == Get(st'.regs, r))
    && (forall name :: IsObserved(f, name) ==> Lookup(st.vars, name) == Lookup(st'.vars, name))
    && st.globals == st'.globals && st.trace == st'.trace
  }

  /** The two states answer alike to everything inst reads. */
  predicate SameInputs(inst: Inst, st: State, st': State) {
    && (forall u :: u in Uses(inst) ==> Get(st.regs, u) == Get(st'.regs, u))
    && st.globals == st'.globals && st.trace == st'.trace
    && (ConsultsSelf(inst) ==> Lookup(st.vars, SELF) == Lookup(st'.vars, SELF))
    && (inst.Load? ==> ReadName(st, inst.name) == ReadName(st', inst.name))
  }

  /** What executing inst in st, with new state t, wrote to the variables of the function. */
  function VarWrites(inst: Inst, st: State): map<string, Value> {
    if inst.Store? && IsVariable(inst.name) then map[inst.name := Get(st.regs, inst.src)] else map[]
  }

  lemma StepWrites(m: Mode, world: World, inst: Inst, st: State)
    requires ExecInst(m, world, inst, st).Next?
    ensures Written(inst, st, ExecInst(m, world, inst, st).st)
  {
  }

  lemma SameInputsSameResult(m: Mode, world: World, inst: Inst, st: State, st': State)
    requires SameInputs(inst, st, st')
    ensures var e, e' := ExecInst(m, world, inst, st), ExecInst(m, world, inst, st');
            e.Abort? || (&& e'.Next? && e.st.globals == e'.st.globals && e.st.trace == e'.st.trace
                         && (Dest(inst).Some? ==> Get(e.st.regs, inst.dest) == Get(e'.st.regs, inst.dest)))
  {
    hide EvalBinary, EvalUnary, Faults, FaultsUnary, ValueOf;
    match inst
    case Call(_, _, _) => SameInputsSameCall(m, world, inst, st, st');
    case MethodCall(_, _, _, _, _) => SameInputsSameCall(m, world, inst, st, st');
    case Send(_, _, _, _, _) => SameInputsSameCall(m, world, inst, st, st');
    case BlockCreate(_, _, captured) =>
      assert GetAll(st.regs, captured) == GetAll(st'.regs, captured);
    case _ =>
  }

  lemma SameInputsSameCall(m: Mode, world: World, inst: Inst, st: State, st': State)
    requires (inst.Call? || inst.MethodCall? || inst.Send?) && SameInputs(inst, st, st')
    ensures var e, e' := ExecInst(m, world, inst, st), ExecInst(m, world, inst, st');
            && e.Next? && e'.Next? && e.st.globals == e'.st.globals && e.st.trace == e'.st.trace
            && Get(e.st.regs, inst.dest) == Get(e'.st.regs, inst.dest)
  {
    hide EvalBinary, EvalUnary, Faults, FaultsUnary, ReadName, WriteName;
    assert GetAll(st.regs, inst.args) == GetAll(st'.regs, inst.args);
  }

  /** t is st with the writes of inst. */
  predicate Written(inst: Inst, st: State, t: State) {
    && t.regs == (if Dest(inst).Some? then st.regs[inst.dest := Get(t.regs, inst.dest)] else st.regs)
    && t.vars == st.vars + VarWrites(inst, st)
  }

  lemma SameWritesKeepAlike(f: Func, inst: Inst, st: State, t: State, st': State, t': State)
    requires Alike(f, st, st') && Written(inst, st, t) && Written(inst, st', t')
    requires VarWrites(inst, st) == VarWrites(inst, st')
    requires Dest(inst).Some? ==> Get(t.regs, inst.dest) == Get(t'.regs, inst.dest)
    requires t.globals == t'.globals && t.trace == t'.trace
    ensures Alike(f, t, t')
  {
  }

  lemma InputsAlike(f: Func, b: nat, i: nat, st: State, st': State)
    requires At(f, b, i) && Alike(f, st, st')
    ensures SameInputs(InstAt(f, b, i), st, st')
    ensures VarWrites(InstAt(f, b, i), st) == VarWrites(InstAt(f, b, i), st')
  {
    var inst := InstAt(f, b, i);
    assert forall u :: u in Uses(inst) ==> UsesAt(f, b, i, u);
    assert ConsultsSelf(inst) ==> IsObserved(f, SELF);
    assert inst.Load? ==> LoadsAt(f, b, i, inst.name);
  }

  lemma KeptStep(m: Mode, world: World, f: Func, b: nat, i: nat, st: State, st': State, e: Exec, e': Exec)
    requires At(f, b, i) && Alike(f, st, st')
    requires e == ExecInst(m, world, InstAt(f, b, i), st) && e' == ExecInst(m, world, InstAt(f, b, i), st')
    ensures e.Abort? || (e'.Next? && Alike(f, e.st, e'.st))
  {
    var inst := InstAt(f, b, i);
    InputsAlike(f, b, i, st, st');
    SameInputsSameResult(m, world, inst, st, st');
    if e.Next? {
      StepWrites(m, world, inst, st);
      StepWrites(m, world, inst, st');
      SameWritesKeepAlike(f, inst, st, e.st, st', e'.st);
    }
  }

  lemma RemovedStep(m: Mode, world: World, f: Func, inst: Inst, st: State, st': State)
    requires Removable(f, inst) && Alike(f, st, st')
    ensures var e := ExecInst(m, world, inst, st); e.Abort? || Alike(f, e.st, st')
  {
  }

  lemma {:induction false} BlockAlike(m: Mode, world: World, f: Func, f': Func, keep: Inst -> bool,
                                      b: nat, i: nat, st: State, st': State)
    requires Removes(f, f', keep) && b < |f.blocks| && i <= |f.blocks[b].insts| && Alike(f, st, st')
    requires |Kept(f.blocks[b].insts, keep, i)| <= |f'.blocks[b].insts|
    ensures var e := ExecFrom(m, world, f.blocks[b].insts, i, st);
            var e' := ExecFrom(m, world, f'.blocks[b].insts, |Kept(f.blocks[b].insts, keep, i)|, st');
            e.Abort? || (e'.Next? && Alike(f, e.st, e'.st))
    decreases |f.blocks[b].insts| - i
  {
    hide ExecInst;
    var insts := f.blocks[b].insts;
    if i < |insts| {
      var e := ExecInst(m, world, insts[i], st);
      assert At(f, b, i) && InstAt(f, b, i) == insts[i];
      KeptPrefix(insts, keep, i + 1, |insts|);
      if keep(insts[i]) {
        KeptAt(insts, keep, i);
        KeptStep(m, world, f, b, i, st, st', e, ExecInst(m, world, insts[i], st'));
        if e.Next? {
          BlockAlike(m, world, f, f', keep, b, i + 1, e.st, ExecInst(m, world, insts[i], st').st);
        }
      } else {
        RemovedStep(m, world, f, insts[i], st, st');
        if e.Next? {
          BlockAlike(m, world, f, f', keep, b, i + 1, e.st, st');
        }
      }
    }
  }

  lemma {:induction false} RunAlike(m: Mode, world: World, f: Func, f': Func, keep: Inst -> bool,
                                    lbl: Label, st: State, st': State, gas: nat)
    requires Removes(f, f', keep) && Alike(f, st, st')
    ensures Refines(Run(m, world, f.blocks, lbl, st, gas), Run(m, world, f'.blocks, lbl, st', gas))
    decreases gas
  {
    hide ExecInst;
    SamePaths(f, f');
    if gas > 0 && Find(f.blocks, lbl).Some? {
      var b := Find(f.blocks, lbl).value;
      BlockAlike(m, world, f, f', keep, b, 0, st, st');
      var e := ExecFrom(m, world, f.blocks[b].insts, 0, st);
      var e' := ExecFrom(m, world, f'.blocks[b].insts, 0, st');
      if e.Next? {
        match f.blocks[b].term
        case Return(Some(r)) =>
          assert IsUsed(f, r);
        case Branch(l) =>
          RunAlike(m, world, f, f', keep, l, e.st, e'.st, gas - 1);
        case CondBranch(r, t, el) =>
          assert IsUsed(f, r);
          RunAlike(m, world, f, f', keep, if Get(e.st.regs, r).IsTruthy() then t else el, e.st, e'.st, gas - 1);
        case _ =>
      }
    }
  }

  // The main result for deletions. It needs no single-definition form.
  lemma RemovalIsSound(m: Mode, f: Func, f': Func, keep: Inst -> bool)
    requires Removes(f, f', keep)
    ensures RefinesFunc(m, f, f')
  {
    forall world: World, args, globals, trace, gas: nat
      ensures Refines(RunFunc(m, world, f, args, globals, trace, gas),
                      RunFunc(m, world, f', args, globals, trace, gas))
    {
      var st := Enter(f, args, globals, trace);
      RunAlike(m, world, f, f', keep, EntryLabel(f.blocks), st, st, gas);
    }
  }
}
