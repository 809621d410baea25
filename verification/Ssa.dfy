/**
  Single-definition form, and what it is worth at run time.

  A register is available at a point when every path from the entry to that point passes its
  definition. In strict form every operand that matters is available where it is used. The main
  result is that the defining equation of an available register holds in every state that a run
  reaches, loops included.
 */
module Ssa {
  import opened Options
  import opened Mir

  function Dest(inst: Inst): Option<RegId> {
    if inst.Store? || inst.Nop? then None else Some(inst.dest)
  }

  /** The registers whose values an instruction reads. */
  function Uses(inst: Inst): set<RegId> {
    match inst
    case Copy(_, s) => {s}
    case Binary(_, _, l, r) => {l, r}
    case Unary(_, _, s) => {s}
    case Call(_, _, args) => set a | a in args
    case MethodCall(_, recv, _, args, _) => {recv} + set a | a in args
    case BlockCreate(_, _, captured) => set a | a in captured
    case SymbolToProc(_, s) => {s}
    case Send(_, recv, selector, args, _) => {recv, selector} + set a | a in args
    case Store(_, s) => {s}
    case _ => {}
  }

  function TermUses(term: Terminator): set<RegId> {
    match term
    case Return(Some(r)) => {r}
    case CondBranch(r, _, _) => {r}
    case _ => {}
  }

  function Targets(term: Terminator): set<Label> {
    match term
    case Branch(l) => {l}
    case CondBranch(_, t, e) => {t, e}
    case _ => {}
  }

  predicate Effectful(inst: Inst) {
    inst.Call? || inst.MethodCall? || inst.Send? || inst.Store?
  }

  /** Instructions that may fault. */
  predicate Evaluates(inst: Inst) {
    inst.Binary? || inst.Unary?
  }

  /** Given the set of registers anyone looks at, the instructions whose operands matter. */
  ghost predicate Matters(live: iset<RegId>, inst: Inst) {
    Effectful(inst) || Evaluates(inst) || (Dest(inst).Some? && Dest(inst).value in live)
  }

  // ---------------------------------------------------------------- positions and paths

  predicate At(f: Func, b: nat, i: nat) {
    b < |f.blocks| && i < |f.blocks[b].insts|
  }

  function InstAt(f: Func, b: nat, i: nat): Inst
    requires At(f, b, i)
  {
    f.blocks[b].insts[i]
  }

  predicate Def(f: Func, r: RegId, b: nat, i: nat) {
    At(f, b, i) && Dest(InstAt(f, b, i)) == Some(r)
  }

  ghost predicate BlockDefines(f: Func, b: nat, r: RegId) {
    exists i: nat :: Def(f, r, b, i)
  }

  predicate Successor(f: Func, b: nat, c: nat) {
    && b < |f.blocks| && c < |f.blocks|
    && f.blocks[c].lbl in Targets(f.blocks[b].term)
    && Find(f.blocks, f.blocks[c].lbl) == Some(c)
  }

  /** A path of blocks from the entry to b. */
  predicate PathTo(f: Func, p: seq<nat>, b: nat) {
    && p != [] && p[0] == 0 && p[|p| - 1] == b
    && (forall k :: 0 <= k < |p| ==> p[k] < |f.blocks|)
    && (forall k :: 0 < k < |p| ==> Successor(f, p[k - 1], p[k]))
  }

  ghost predicate Reachable(f: Func, b: nat) {
    exists p :: PathTo(f, p, b)
  }

  /** Some block of p before the last one defines r. */
  ghost predicate DefinedBefore(f: Func, r: RegId, p: seq<nat>) {
    exists k :: 0 <= k < |p| - 1 && BlockDefines(f, p[k], r)
  }

  ghost predicate AvailableAtEntry(f: Func, r: RegId, b: nat) {
    r in f.params || forall p | PathTo(f, p, b) :: DefinedBefore(f, r, p)
  }

  /** Every path to instruction i of block b passes a definition of r. */
  ghost predicate Available(f: Func, r: RegId, b: nat, i: nat) {
    AvailableAtEntry(f, r, b) || exists j: nat :: j < i && Def(f, r, b, j)
  }

  // ---------------------------------------------------------------- strict form

  ghost predicate SingleDef(f: Func) {
    && (forall r, b: nat, i: nat, c: nat, j: nat :: Def(f, r, b, i) && Def(f, r, c, j) ==> b == c && i == j)
    && (forall r, b: nat, i: nat :: Def(f, r, b, i) ==> r !in f.params)
  }

  ghost predicate GoodUse(f: Func, live: iset<RegId>, r: RegId, b: nat, i: nat) {
    r in live && Available(f, r, b, i)
  }

  /**
    One definition each, and every operand that matters is available and live. With every register
    live this is strict single-assignment form; a smaller set forgives dead copies.
   */
  ghost predicate Strict(f: Func, live: iset<RegId>) {
    && SingleDef(f)
    && (forall b: nat, i: nat :: At(f, b, i) && Evaluates(InstAt(f, b, i)) ==> InstAt(f, b, i).dest in live)
    && (forall b: nat, i: nat, r :: At(f, b, i) && Matters(live, InstAt(f, b, i)) && r in Uses(InstAt(f, b, i))
          ==> GoodUse(f, live, r, b, i))
    && (forall b: nat, r :: b < |f.blocks| && r in TermUses(f.blocks[b].term)
          ==> GoodUse(f, live, r, b, |f.blocks[b].insts|))
  }

  lemma StrictIsSingle(f: Func, live: iset<RegId>)
    requires Strict(f, live)
    ensures SingleDef(f)
  {
  }

  lemma PathPrefix(f: Func, p: seq<nat>, b: nat, k: nat)
    requires PathTo(f, p, b) && k < |p|
    ensures PathTo(f, p[..k + 1], p[k])
  {
  }

  // A register is never available before its own definition: a path that arrived there would
  // contain a shorter one that did.
  lemma {:induction false} NotAvailableBeforeDefinition(f: Func, r: RegId, b: nat, i: nat, j: nat, p: seq<nat>)
    requires SingleDef(f) && Def(f, r, b, i) && j <= i && PathTo(f, p, b)
    ensures !Available(f, r, b, j)
    decreases |p|
  {
    if Available(f, r, b, j) {
      assert DefinedBefore(f, r, p);
      var k :| 0 <= k < |p| - 1 && BlockDefines(f, p[k], r);
      var i' :| Def(f, r, p[k], i');
      assert p[k] == b;
      PathPrefix(f, p, b, k);
      NotAvailableBeforeDefinition(f, r, b, i, j, p[..k + 1]);
    }
  }

  // Where a register is available, so are the operands of its definition.
  lemma OperandAvailable(f: Func, live: iset<RegId>, r: RegId, c: nat, j: nat, u: RegId, b: nat, i: nat)
    requires Strict(f, live) && Def(f, r, c, j) && r in live && u in Uses(InstAt(f, c, j))
    requires Available(f, r, b, i)
    ensures u in live && Available(f, u, b, i)
  {
    assert GoodUse(f, live, u, c, j);
    if u !in f.params {
      if j0: nat :| j0 < i && Def(f, r, b, j0) {
        assert c == b && j == j0;
      } else {
        forall p | PathTo(f, p, b)
          ensures DefinedBefore(f, u, p)
        {
          var k :| 0 <= k < |p| - 1 && BlockDefines(f, p[k], r);
          var i' :| Def(f, r, p[k], i');
          assert p[k] == c;
          if !BlockDefines(f, c, u) {
            PathPrefix(f, p, b, k);
            var k2 :| 0 <= k2 < |p[..k + 1]| - 1 && BlockDefines(f, p[..k + 1][k2], u);
            assert BlockDefines(f, p[k2], u);
          }
        }
      }
    }
  }

  // ---------------------------------------------------------------- the run-time invariant

  /** What a register's definition says about its value, once executed. */
  predicate Equation(m: Mode, inst: Inst, regs: Regs) {
    match inst
    case LoadConst(d, c) => Get(regs, d) == ValueOf(c)
    case Copy(d, s) => Get(regs, d) == Get(regs, s)
    case Binary(d, op, l, r) =>
      && !Faults(m, op, Get(regs, l), Get(regs, r))
      && Get(regs, d) == EvalBinary(op, Get(regs, l), Get(regs, r))
    case Unary(d, op, s) =>
      && !FaultsUnary(m, op, Get(regs, s))
      && Get(regs, d) == EvalUnary(op, Get(regs, s))
    case Alloc(d, _) => Get(regs, d) == Nil
    case _ => true
  }

  /** The registers last stored to each name in this block, since the last call. */
  function LastStores(insts: seq<Inst>, i: nat): map<string, RegId>
    requires i <= |insts|
  {
    if i == 0 then map[]
    else match insts[i - 1]
      case Store(name, s) => LastStores(insts, i - 1)[name := s]
      case Call(_, _, _) => map[]
      case MethodCall(_, _, _, _, _) => map[]
      case _ => LastStores(insts, i - 1)
  }

  ghost predicate EquationsHold(m: Mode, f: Func, live: iset<RegId>, b: nat, i: nat, regs: Regs) {
    forall r, c: nat, j: nat :: r in live && Def(f, r, c, j) && Available(f, r, b, i)
      ==> Equation(m, InstAt(f, c, j), regs)
  }

  /** What a name means can change: in a send if it outlives the function, and with self if it belongs to self. */
  predicate MayChange(inst: Inst, name: string) {
    || (inst.Send? && !IsVariable(name))
    || (inst.Store? && inst.name == SELF && IsIvarName(name))
  }

  /** Since the last store to name nothing has come that may change it. */
  predicate UnchangedSince(insts: seq<Inst>, i: nat, name: string)
    requires i <= |insts|
  {
    i == 0 || (insts[i - 1].Store? && insts[i - 1].name == name)
    || (!MayChange(insts[i - 1], name) && UnchangedSince(insts, i - 1, name))
  }

  /** A name means what was stored last, also an instance variable if it has been set at all. */
  predicate Remembered(m: Mode, insts: seq<Inst>, i: nat, name: string)
    requires i <= |insts|
  {
    (IsIvarName(name) ==> m.objects) && UnchangedSince(insts, i, name)
  }

  ghost predicate StoresHold(m: Mode, insts: seq<Inst>, i: nat, st: State)
    requires i <= |insts|
  {
    var stores := LastStores(insts, i);
    forall name :: name in stores && Remembered(m, insts, i, name) ==> ReadName(st, name) == Get(st.regs, stores[name])
  }

  /** Holds in every state in which a run of f is about to execute instruction i of block b. */
  ghost predicate Inv(m: Mode, f: Func, live: iset<RegId>, b: nat, i: nat, st: State) {
    && b < |f.blocks| && i <= |f.blocks[b].insts|
    && Reachable(f, b)
    && EquationsHold(m, f, live, b, i, st.regs)
    && StoresHold(m, f.blocks[b].insts, i, st)
  }

  lemma {:induction false} LastStoreIsUsed(insts: seq<Inst>, i: nat, name: string) returns (j: nat)
    requires i <= |insts| && name in LastStores(insts, i)
    ensures j < i && insts[j].Store? && insts[j].src == LastStores(insts, i)[name]
  {
    if insts[i - 1].Store? && insts[i - 1].name == name {
      j := i - 1;
    } else {
      j := LastStoreIsUsed(insts, i - 1, name);
    }
  }

  lemma EquationUnaffected(m: Mode, inst: Inst, regs: Regs, d: RegId, v: Value)
    requires Equation(m, inst, regs) && Dest(inst) != Some(d) && d !in Uses(inst)
    ensures Equation(m, inst, regs[d := v])
  {
  }

  lemma EquationEstablished(m: Mode, world: World, inst: Inst, st: State)
    requires Dest(inst).Some? && Dest(inst).value !in Uses(inst)
    requires ExecInst(m, world, inst, st).Next?
    ensures Equation(m, inst, ExecInst(m, world, inst, st).st.regs)
  {
  }

  lemma StepSetsDest(m: Mode, world: World, inst: Inst, st: State)
    requires ExecInst(m, world, inst, st).Next?
    ensures var t := ExecInst(m, world, inst, st).st;
            t.regs == match Dest(inst) case None => st.regs case Some(d) => st.regs[d := Get(t.regs, d)]
  {
    hide EvalBinary, EvalUnary, Faults, FaultsUnary;
  }

  lemma StepKeepsEquations(m: Mode, world: World, f: Func, live: iset<RegId>, b: nat, i: nat, st: State)
    requires Strict(f, live) && Inv(m, f, live, b, i, st) && At(f, b, i)
    requires ExecInst(m, world, InstAt(f, b, i), st).Next?
    ensures EquationsHold(m, f, live, b, i + 1, ExecInst(m, world, InstAt(f, b, i), st).st.regs)
  {
    hide ExecInst, StoresHold;
    var inst := InstAt(f, b, i);
    var t := ExecInst(m, world, inst, st).st;
    StepSetsDest(m, world, inst, st);
    var p :| PathTo(f, p, b);
    forall r, c: nat, j: nat | r in live && Def(f, r, c, j) && Available(f, r, b, i + 1)
      ensures Equation(m, InstAt(f, c, j), t.regs)
    {
      if Available(f, r, b, i) {
        if d: RegId :| Dest(inst) == Some(d) {
          assert Def(f, d, b, i);
          NotAvailableBeforeDefinition(f, d, b, i, i, p);
          forall u | u in Uses(InstAt(f, c, j))
            ensures u != d
          {
            OperandAvailable(f, live, r, c, j, u, b, i);
          }
          EquationUnaffected(m, InstAt(f, c, j), st.regs, d, Get(t.regs, d));
        }
      } else {
        assert Def(f, r, b, i);
        assert c == b && j == i;
        NotAvailableBeforeDefinition(f, r, b, i, i, p);
        forall u | u in Uses(inst)
          ensures u != r
        {
          assert GoodUse(f, live, u, b, i);
        }
        EquationEstablished(m, world, inst, st);
      }
    }
  }

  lemma StoreIsSeen(st: State, name: string, v: Value, other: string)
    requires !StoreIsLost(st, name, v)
    ensures ReadName(WriteName(st, name, v), name) == v
    ensures other != name && (IsIvarName(other) ==> name != SELF)
            ==> ReadName(WriteName(st, name, v), other) == ReadName(st, other)
  {
  }

  lemma StoreKeepsStores(m: Mode, world: World, insts: seq<Inst>, i: nat, st: State)
    requires i < |insts| && insts[i].Store? && StoresHold(m, insts, i, st)
    requires ExecInst(m, world, insts[i], st).Next?
    ensures StoresHold(m, insts, i + 1, ExecInst(m, world, insts[i], st).st)
  {
    hide ReadName, WriteName;
    var t := ExecInst(m, world, insts[i], st).st;
    var stores, v := LastStores(insts, i + 1), Get(st.regs, insts[i].src);
    forall name | name in stores && Remembered(m, insts, i + 1, name)
      ensures ReadName(t, name) == Get(t.regs, stores[name])
    {
      NamesSeeMemoryOnly(st, st, insts[i].name, v);
      if StoreIsLost(st, insts[i].name, v) {
        LostStore(st, insts[i].name, v);
      } else {
        StoreIsSeen(st, insts[i].name, v, name);
      }
    }
  }

  // A lost store changes nothing.
  lemma LostStore(st: State, name: string, v: Value)
    requires StoreIsLost(st, name, v)
    ensures WriteName(st, name, v) == st
  {
  }

  // Nothing but a store changes what a remembered name means, and nothing changes a register but its definition.
  lemma StepKeepsName(m: Mode, world: World, insts: seq<Inst>, i: nat, st: State, name: string)
    requires i < |insts| && !insts[i].Store? && ExecInst(m, world, insts[i], st).Next?
    requires name in LastStores(insts, i + 1) && Remembered(m, insts, i + 1, name)
    ensures LastStores(insts, i + 1) == LastStores(insts, i) && Remembered(m, insts, i, name)
    ensures var t := ExecInst(m, world, insts[i], st).st;
            && ReadName(t, name) == ReadName(st, name)
            && forall r: RegId :: Dest(insts[i]) != Some(r) ==> Get(t.regs, r) == Get(st.regs, r)
  {
    hide EvalBinary, EvalUnary, Faults, FaultsUnary;
  }

  lemma StepKeepsStores(m: Mode, world: World, f: Func, live: iset<RegId>, b: nat, i: nat, st: State)
    requires Strict(f, live) && Inv(m, f, live, b, i, st) && At(f, b, i)
    requires ExecInst(m, world, InstAt(f, b, i), st).Next?
    ensures StoresHold(m, f.blocks[b].insts, i + 1, ExecInst(m, world, InstAt(f, b, i), st).st)
  {
    hide ReadName, ExecInst, Remembered, EquationsHold;
    var insts := f.blocks[b].insts;
    if insts[i].Store? {
      StoreKeepsStores(m, world, insts, i, st);
    } else {
      var t, stores := ExecInst(m, world, insts[i], st).st, LastStores(insts, i + 1);
      var p :| PathTo(f, p, b);
      forall name | name in stores && Remembered(m, insts, i + 1, name)
        ensures ReadName(t, name) == Get(t.regs, stores[name])
      {
        StepKeepsName(m, world, insts, i, st, name);
        var j := LastStoreIsUsed(insts, i, name);
        assert InstAt(f, b, j).Store?;
        assert GoodUse(f, live, stores[name], b, j);
        if Dest(insts[i]).Some? {
          assert Def(f, insts[i].dest, b, i);
          NotAvailableBeforeDefinition(f, insts[i].dest, b, i, j, p);
        }
      }
    }
  }

  // The invariant survives the whole block.
  lemma {:induction false} BlockKeepsInv(m: Mode, world: World, f: Func, live: iset<RegId>,
                                         b: nat, i: nat, st: State)
    requires Strict(f, live) && Inv(m, f, live, b, i, st)
    ensures var e := ExecFrom(m, world, f.blocks[b].insts, i, st);
            e.Next? ==> Inv(m, f, live, b, |f.blocks[b].insts|, e.st)
    decreases |f.blocks[b].insts| - i
  {
    if i < |f.blocks[b].insts| {
      assert At(f, b, i);
      var e := ExecInst(m, world, InstAt(f, b, i), st);
      if e.Next? {
        StepKeepsEquations(m, world, f, live, b, i, st);
        StepKeepsStores(m, world, f, live, b, i, st);
        BlockKeepsInv(m, world, f, live, b, i + 1, e.st);
      }
    }
  }

  lemma EntryInv(m: Mode, f: Func, live: iset<RegId>, st: State)
    requires Strict(f, live) && f.blocks != []
    ensures Inv(m, f, live, 0, 0, st)
  {
    assert PathTo(f, [0], 0);
    forall r, c: nat, j: nat | Def(f, r, c, j)
      ensures !Available(f, r, 0, 0)
    {
      assert !DefinedBefore(f, r, [0]);
    }
  }

  lemma EdgeInv(m: Mode, f: Func, live: iset<RegId>, b: nat, c: nat, st: State)
    requires Strict(f, live) && b < |f.blocks| && Inv(m, f, live, b, |f.blocks[b].insts|, st)
    requires Successor(f, b, c)
    ensures Inv(m, f, live, c, 0, st)
  {
    var p :| PathTo(f, p, b);
    assert PathTo(f, p + [c], c);
    forall r, d: nat, j: nat | r in live && Def(f, r, d, j) && Available(f, r, c, 0)
      ensures Equation(m, InstAt(f, d, j), st.regs)
    {
      EdgeAvailable(f, r, b, c);
    }
  }

  // What is available at the entry of a block is available at the end of each predecessor.
  lemma EdgeAvailable(f: Func, r: RegId, b: nat, c: nat)
    requires Successor(f, b, c) && AvailableAtEntry(f, r, c)
    ensures Available(f, r, b, |f.blocks[b].insts|)
  {
    if r !in f.params && !BlockDefines(f, b, r) {
      forall p | PathTo(f, p, b)
        ensures DefinedBefore(f, r, p)
      {
        var q := p + [c];
        assert PathTo(f, q, c);
        var k :| 0 <= k < |q| - 1 && BlockDefines(f, q[k], r);
        assert q[k] == p[k] && p[|p| - 1] == b;
      }
    } else if i: nat :| Def(f, r, b, i) {
    }
  }

  /** If there is a block to run from here, the invariant holds at its start. */
  ghost predicate EntryReady(m: Mode, f: Func, live: iset<RegId>, lbl: Label, st: State) {
    var b := Find(f.blocks, lbl);
    b.Some? ==> Inv(m, f, live, b.value, 0, st)
  }

  lemma TargetReady(m: Mode, f: Func, live: iset<RegId>, b: nat, lbl: Label, st: State)
    requires Strict(f, live) && b < |f.blocks| && Inv(m, f, live, b, |f.blocks[b].insts|, st)
    requires lbl in Targets(f.blocks[b].term)
    ensures EntryReady(m, f, live, lbl, st)
  {
    var c := Find(f.blocks, lbl);
    if c.Some? {
      EdgeInv(m, f, live, b, c.value, st);
    }
  }

  lemma StartReady(m: Mode, f: Func, live: iset<RegId>, st: State)
    requires Strict(f, live)
    ensures EntryReady(m, f, live, EntryLabel(f.blocks), st)
  {
    if f.blocks != [] {
      assert Find(f.blocks, EntryLabel(f.blocks)) == Some(0);
      EntryInv(m, f, live, st);
    }
  }
}
