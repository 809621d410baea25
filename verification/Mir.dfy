/** The register-based intermediate representation and the meaning its interpreter gives it. */
module Mir {
  import opened Ints
  import opened Options

  type RegId = nat
  type Label = string

  datatype Const =
    | ConstInteger(i: Int64)
    | ConstString(s: string)
    | ConstSymbol(s: string)
    | ConstBool(b: bool)
    | ConstNil

  /** A runtime value. Object stands for every value held by reference. */
  datatype Value =
    | Integer(i: Int64)
    | Str(s: string)
    | Symbol(s: string)
    | Bool(b: bool)
    | Nil
    | Object(className: string, id: nat)
    | Block(funcSymbol: string, captured: seq<Value>)
  {
    predicate IsTruthy() {
      this != Bool(false) && this != Nil
    }

    function ToI64(): Int64 {
      match this
      case Integer(v) => v
      case Bool(true) => 1
      case _ => 0
    }
  }

  function ValueOf(c: Const): Value {
    match c
    case ConstInteger(i) => Integer(i)
    case ConstString(s) => Str(s)
    case ConstSymbol(s) => Symbol(s)
    case ConstBool(b) => Bool(b)
    case ConstNil => Nil
  }

  datatype BinOp =
    | Add | Sub | Mul | Div | Mod | Pow
    | Eq | NotEq | Lt | Gt | LtEq | GtEq | Cmp
    | And | Or
    | BitAnd | BitOr | BitXor | Shl | Shr

  datatype UnOp = Neg | Not | BitNot

  datatype Inst =
    | LoadConst(dest: RegId, c: Const)
    | Copy(dest: RegId, src: RegId)
    | Binary(dest: RegId, op: BinOp, left: RegId, right: RegId)
    | Unary(dest: RegId, uop: UnOp, src: RegId)
    | Call(dest: RegId, name: string, args: seq<RegId>)
    | MethodCall(dest: RegId, recv: RegId, name: string, args: seq<RegId>, block: Option<RegId>)
    | Load(dest: RegId, name: string)
    | Store(name: string, src: RegId)
    | Alloc(dest: RegId, name: string)
    | BlockCreate(dest: RegId, funcSymbol: string, captured: seq<RegId>)
    | SymbolToProc(dest: RegId, src: RegId)
    | Send(dest: RegId, recv: RegId, selector: RegId, args: seq<RegId>, block: Option<RegId>)
    | Nop

  datatype Terminator =
    | Return(reg: Option<RegId>)
    | Branch(target: Label)
    | CondBranch(cond: RegId, thenLabel: Label, elseLabel: Label)
    | Unreachable

  datatype BasicBlock = BasicBlock(lbl: Label, insts: seq<Inst>, term: Terminator)

  datatype Func = Func(params: seq<RegId>, blocks: seq<BasicBlock>)

  datatype NamedFunc = NamedFunc(name: string, func: Func)

  // ---------------------------------------------------------------- machine state

  type Regs = map<RegId, Value>

  /** What outlives a call: constants, and the instance variables of every object. */
  datatype Globals = Globals(consts: map<string, Value>, ivars: map<(nat, string), Value>)

  /** A call leaves the function: everything it can see is recorded. */
  datatype Event =
    | Called(name: string, args: seq<Value>, selfValue: Option<Value>, globals: Globals)
    | Sent(recv: Value, name: string, args: seq<Value>, globals: Globals)

  /** The answer of the rest of the program to a call: a result, and the globals afterwards. */
  datatype Answer = Answer(result: Value, globals: Globals)

  /** The rest of the program, as a function of all that it was asked so far. */
  type World = seq<Event> -> Answer

  datatype State = State(regs: Regs, vars: map<string, Value>, globals: Globals, trace: seq<Event>)

  function Get(regs: Regs, r: RegId): Value {
    if r in regs then regs[r] else Nil
  }

  function GetAll(regs: Regs, rs: seq<RegId>): (vs: seq<Value>)
    ensures |vs| == |rs| && forall k :: 0 <= k < |rs| ==> vs[k] == Get(regs, rs[k])
  {
    seq(|rs|, k requires 0 <= k < |rs| => Get(regs, rs[k]))
  }

  // ---------------------------------------------------------------- names

  predicate IsConstantName(name: string) {
    name != "" && 'A' <= name[0] <= 'Z'
  }

  predicate IsIvarName(name: string) {
    name != "" && name[0] == '@'
  }

  predicate IsGlobalName(name: string) {
    name != "" && name[0] == '$'
  }

  /** Names kept in the variables of the running function. */
  predicate IsVariable(name: string) {
    !IsConstantName(name) && !IsIvarName(name)
  }

  const SELF := "self"

  function OrNil(v: Option<Value>): Value {
    if v.Some? then v.value else Nil
  }

  function ReadName(st: State, name: string): Value {
    if IsConstantName(name) then OrNil(Lookup(st.globals.consts, name))
    else if IsIvarName(name) then
      var me := OrNil(Lookup(st.vars, SELF));
      if me.Object? then OrNil(Lookup(st.globals.ivars, (me.id, name))) else Nil
    else OrNil(Lookup(st.vars, name))
  }

  function WriteName(st: State, name: string, v: Value): State {
    if IsConstantName(name) then st.(globals := st.globals.(consts := st.globals.consts[name := v]))
    else if IsIvarName(name) then
      var me := OrNil(Lookup(st.vars, SELF));
      if me.Object? then st.(globals := st.globals.(ivars := st.globals.ivars[(me.id, name) := v])) else st
    else st.(vars := st.vars[name := v])
  }

  /** Without an object for self an instance variable is not set, and reads as nil. */
  predicate StoreIsLost(st: State, name: string, v: Value) {
    !IsConstantName(name) && IsIvarName(name) && !OrNil(Lookup(st.vars, SELF)).Object? && v != Nil
  }

  // What a name means does not depend on the registers.
  lemma NamesSeeMemoryOnly(st: State, st': State, name: string, v: Value)
    requires st.vars == st'.vars && st.globals == st'.globals && st.trace == st'.trace
    ensures ReadName(st, name) == ReadName(st', name) && StoreIsLost(st, name, v) == StoreIsLost(st', name, v)
    ensures var w, w' := WriteName(st, name, v), WriteName(st', name, v);
            && w.regs == st.regs && w'.regs == st'.regs
            && w.vars == w'.vars && w.globals == w'.globals && w.trace == w'.trace
  {
  }

  // ---------------------------------------------------------------- operators

  /** Which faults stop a run. Division overflow always does. */
  datatype Mode = Mode(
    overflowChecks: bool,  // a debug build: integer overflow stops the process
    disciplined: bool,     // also stop where constant folding and interpreter are known to disagree
    identities: bool,      // also stop where x + 0, x - 0, x * 1 or x / 1 is not x
    objects: bool          // also stop where an instance variable is set and self is no object
  )

  function EvalIntegers(op: BinOp, a: Int64, b: Int64): Value {
    match op
    case Add => Integer(Wrap(a + b))
    case Sub => Integer(Wrap(a - b))
    case Mul => Integer(Wrap(a * b))
    case Div => Integer(if b != 0 then Wrap(Quotient(a, b)) else 0)
    case Mod => Integer(if b != 0 then Wrap(Remainder(a, b)) else 0)
    case Pow => Integer(Wrap(Power(a, AsU32(b))))
    case Eq => Bool(a == b)
    case NotEq => Bool(a != b)
    case Lt => Bool(a < b)
    case Gt => Bool(a > b)
    case LtEq => Bool(a <= b)
    case GtEq => Bool(a >= b)
    case Cmp => Integer(if a < b then -1 else if a > b then 1 else 0)
    case BitAnd => Integer(Ints.BitAnd(a, b))
    case BitOr => Integer(Ints.BitOr(a, b))
    case BitXor => Integer(Ints.BitXor(a, b))
    case Shl => Integer(ShiftLeft(a, b % 64))
    case Shr => Integer(ShiftRight(a, b % 64))
    case And => Integer(b)
    case Or => Integer(a)
  }

  function EvalBinary(op: BinOp, l: Value, r: Value): Value {
    match (l, r)
    case (Integer(a), Integer(b)) => EvalIntegers(op, a, b)
    case (Str(a), Str(b)) =>
      (match op
       case Add => Str(a + b)
       case Eq => Bool(a == b)
       case NotEq => Bool(a != b)
       case _ => Nil)
    case _ =>
      (match op
       case Eq => Bool(false)
       case NotEq => Bool(true)
       case And => if l.IsTruthy() then r else l
       case Or => if l.IsTruthy() then l else r
       case _ => Nil)
  }

  function EvalUnary(op: UnOp, v: Value): Value {
    match op
    case Neg => Integer(Wrap(0 - v.ToI64()))
    case Not => Bool(!v.IsTruthy())
    case BitNot => Integer(Ints.BitNot(v.ToI64()))
  }

  predicate Overflows(op: BinOp, a: Int64, b: Int64) {
    match op
    case Add => !InRange(a + b)
    case Sub => !InRange(a - b)
    case Mul => !InRange(a * b)
    case Pow => !InRange(Power(a, AsU32(b)))
    case Shl => b < 0 || b >= 64
    case Shr => b < 0 || b >= 64
    case _ => false
  }

  predicate DivisionOverflows(op: BinOp, a: Int64, b: Int64) {
    (op == Div || op == Mod) && a == MIN_INT64 && b == -1
  }

  // The interpreter says two booleans are never equal; the constant folder compares them.
  predicate BooleanEquality(op: BinOp, l: Value, r: Value) {
    (op == Eq || op == NotEq) && l.Bool? && l == r
  }

  // x + 0, x - 0, x * 1 and x / 1.
  predicate IsIdentity(op: BinOp, r: Value) {
    || ((op == Add || op == Sub) && r == Integer(0))
    || ((op == Mul || op == Div) && r == Integer(1))
  }

  predicate IdentityOnOther(op: BinOp, l: Value, r: Value) {
    IsIdentity(op, r) && !l.Integer? && !l.Nil?
  }

  predicate Faults(m: Mode, op: BinOp, l: Value, r: Value) {
    || (l.Integer? && r.Integer?
        && (DivisionOverflows(op, l.i, r.i) || (m.overflowChecks && Overflows(op, l.i, r.i))))
    || (m.disciplined && BooleanEquality(op, l, r))
    || (m.identities && IdentityOnOther(op, l, r))
  }

  predicate FaultsUnary(m: Mode, op: UnOp, v: Value) {
    m.overflowChecks && op == Neg && v.ToI64() == MIN_INT64
  }

  predicate FaultsStore(m: Mode, st: State, name: string, v: Value) {
    m.objects && StoreIsLost(st, name, v)
  }

  // ---------------------------------------------------------------- instructions

  datatype Exec = Next(st: State) | Abort

  function SetReg(st: State, r: RegId, v: Value): State {
    st.(regs := st.regs[r := v])
  }

  function Builtins(): set<string> {
    {"puts", "print", "p", "rb_ary_new", "rb_hash_new", "rb_yield"}
  }

  /** A call to a name that is not built in may end in a lookup on the caller's self. */
  function CallEvent(st: State, name: string, args: seq<Value>): Event {
    Called(name, args, if name in Builtins() then None else Lookup(st.vars, SELF), st.globals)
  }

  function Ask(world: World, st: State, dest: RegId, e: Event): State {
    var trace := st.trace + [e];
    var a := world(trace);
    State(st.regs[dest := a.result], st.vars, a.globals, trace)
  }

  /** A symbol as a block: the function of that name, with nothing captured. */
  function ProcOf(v: Value): Value {
    if v.Symbol? then Block(v.s, []) else Nil
  }

  function ExecInst(m: Mode, world: World, inst: Inst, st: State): Exec {
    match inst
    case LoadConst(d, c) => Next(SetReg(st, d, ValueOf(c)))
    case Copy(d, s) => Next(SetReg(st, d, Get(st.regs, s)))
    case Binary(d, op, l, r) =>
      var vl, vr := Get(st.regs, l), Get(st.regs, r);
      if Faults(m, op, vl, vr) then Abort else Next(SetReg(st, d, EvalBinary(op, vl, vr)))
    case Unary(d, op, s) =>
      var v := Get(st.regs, s);
      if FaultsUnary(m, op, v) then Abort else Next(SetReg(st, d, EvalUnary(op, v)))
    case Call(d, name, args) => Next(Ask(world, st, d, CallEvent(st, name, GetAll(st.regs, args))))
    case MethodCall(d, recv, name, args, _) =>
      Next(Ask(world, st, d, Sent(Get(st.regs, recv), name, GetAll(st.regs, args), st.globals)))
    case Load(d, name) => Next(SetReg(st, d, ReadName(st, name)))
    case Store(name, s) =>
      var v := Get(st.regs, s);
      if FaultsStore(m, st, name, v) then Abort else Next(WriteName(st, name, v))
    case Alloc(d, _) => Next(SetReg(st, d, Nil))
    case BlockCreate(d, symbol, captured) => Next(SetReg(st, d, Block(symbol, GetAll(st.regs, captured))))
    case SymbolToProc(d, s) => Next(SetReg(st, d, ProcOf(Get(st.regs, s))))
    case Send(d, recv, selector, args, _) =>
      var name := Get(st.regs, selector);
      if name.Str? || name.Symbol?
      then Next(Ask(world, st, d, Sent(Get(st.regs, recv), name.s, GetAll(st.regs, args), st.globals)))
      else Next(SetReg(st, d, Nil))
    case Nop => Next(st)
  }

  /** Execute insts from position i on. */
  function ExecFrom(m: Mode, world: World, insts: seq<Inst>, i: nat, st: State): Exec
    requires i <= |insts|
    decreases |insts| - i
  {
    if i == |insts| then Next(st)
    else match ExecInst(m, world, insts[i], st)
      case Abort => Abort
      case Next(t) => ExecFrom(m, world, insts, i + 1, t)
  }

  // ---------------------------------------------------------------- runs

  datatype Outcome =
    | Returned(v: Value, globals: Globals, trace: seq<Event>)
    | OutOfGas(globals: Globals, trace: seq<Event>)
    | Aborted

  function FindFrom(bs: seq<BasicBlock>, lbl: Label, i: nat): (r: Option<nat>)
    requires i <= |bs|
    ensures r.Some? ==> i <= r.value < |bs| && bs[r.value].lbl == lbl
                        && forall k :: i <= k < r.value ==> bs[k].lbl != lbl
    ensures r.None? ==> forall k :: i <= k < |bs| ==> bs[k].lbl != lbl
    decreases |bs| - i
  {
    if i == |bs| then None
    else if bs[i].lbl == lbl then Some(i)
    else FindFrom(bs, lbl, i + 1)
  }

  /** The first block with the given label. */
  function Find(bs: seq<BasicBlock>, lbl: Label): (r: Option<nat>)
    ensures r.Some? ==> r.value < |bs| && bs[r.value].lbl == lbl
                        && forall k :: 0 <= k < r.value ==> bs[k].lbl != lbl
    ensures r.None? ==> forall k :: 0 <= k < |bs| ==> bs[k].lbl != lbl
  {
    FindFrom(bs, lbl, 0)
  }

  function Returning(v: Value, st: State): Outcome {
    Returned(v, st.globals, st.trace)
  }

  /** Run from the block with the given label for at most gas blocks. */
  function Run(m: Mode, world: World, bs: seq<BasicBlock>, lbl: Label, st: State, gas: nat): Outcome
    decreases gas, 1
  {
    if gas == 0 then OutOfGas(st.globals, st.trace)
    else match Find(bs, lbl)
      case None => Returning(Nil, st)
      case Some(b) =>
        match ExecFrom(m, world, bs[b].insts, 0, st)
        case Abort => Aborted
        case Next(t) => Leave(m, world, bs, bs[b].term, t, gas - 1)
  }

  function Leave(m: Mode, world: World, bs: seq<BasicBlock>, term: Terminator, st: State, gas: nat): Outcome
    decreases gas, 2
  {
    match term
    case Return(Some(r)) => Returning(Get(st.regs, r), st)
    case Return(None) => Returning(Nil, st)
    case Branch(l) => Run(m, world, bs, l, st, gas)
    case CondBranch(r, t, e) => Run(m, world, bs, if Get(st.regs, r).IsTruthy() then t else e, st, gas)
    case Unreachable => Returning(Nil, st)
  }

  function EntryLabel(bs: seq<BasicBlock>): Label {
    if bs == [] then "" else bs[0].lbl
  }

  /** Bind parameters to registers, Nil where an argument is missing. */
  function Bind(params: seq<RegId>, args: seq<Value>, i: nat): Regs
    requires i <= |params|
  {
    if i == 0 then map[]
    else Bind(params, args, i - 1)[params[i - 1] := if i - 1 < |args| then args[i - 1] else Nil]
  }

  function Enter(f: Func, args: seq<Value>, globals: Globals, trace: seq<Event>): State {
    State(Bind(f.params, args, |f.params|), map[], globals, trace)
  }

  function RunFunc(m: Mode, world: World, f: Func, args: seq<Value>,
                   globals: Globals, trace: seq<Event>, gas: nat): Outcome
  {
    Run(m, world, f.blocks, EntryLabel(f.blocks), Enter(f, args, globals, trace), gas)
  }

  // ---------------------------------------------------------------- comparing runs

  /** Unless the first run aborts, the second is the same. */
  predicate Refines(o: Outcome, o': Outcome) {
    o.Aborted? || o == o'
  }

  /** The same end, but for the value returned. */
  predicate SameButValue(o: Outcome, o': Outcome) {
    o == o' || (o.Returned? && o'.Returned? && o.globals == o'.globals && o.trace == o'.trace)
  }

  /** Every run of f that does not abort is also the run of f', whatever the world and however long. */
  ghost predicate RefinesFunc(m: Mode, f: Func, f': Func) {
    forall world: World, args: seq<Value>, globals: Globals, trace: seq<Event>, gas: nat ::
      Refines(RunFunc(m, world, f, args, globals, trace, gas),
              RunFunc(m, world, f', args, globals, trace, gas))
  }

  // Two lists of blocks with the same labels find the same block.
  lemma SameLabelsFindFrom(bs: seq<BasicBlock>, bs': seq<BasicBlock>, lbl: Label, i: nat)
    requires |bs| == |bs'| && i <= |bs|
    requires forall k :: 0 <= k < |bs| ==> bs[k].lbl == bs'[k].lbl
    ensures FindFrom(bs, lbl, i) == FindFrom(bs', lbl, i)
    decreases |bs| - i
  {
  }

  /** The machine as it is: no run is stopped for the sake of a comparison. */
  function Plain(m: Mode): Mode {
    Mode(m.overflowChecks, false, false, false)
  }

  // A run that no fault stops is the machine's own run.
  lemma {:induction false} DisciplineErasedInsts(m: Mode, world: World, insts: seq<Inst>, i: nat, st: State)
    requires i <= |insts|
    ensures var o := ExecFrom(m, world, insts, i, st);
            o.Next? ==> o == ExecFrom(Plain(m), world, insts, i, st)
    decreases |insts| - i
  {
    if i < |insts| {
      var o := ExecInst(m, world, insts[i], st);
      if o.Next? {
        DisciplineErasedInsts(m, world, insts, i + 1, o.st);
      }
    }
  }

  lemma {:induction false} DisciplineErased(m: Mode, world: World, bs: seq<BasicBlock>, lbl: Label,
                                            st: State, gas: nat)
    ensures Refines(Run(m, world, bs, lbl, st, gas),
                    Run(Plain(m), world, bs, lbl, st, gas))
    decreases gas
  {
    if gas > 0 && Find(bs, lbl).Some? {
      var b := bs[Find(bs, lbl).value];
      DisciplineErasedInsts(m, world, b.insts, 0, st);
      var o := ExecFrom(m, world, b.insts, 0, st);
      if o.Next? {
        match b.term
        case Branch(l) => DisciplineErased(m, world, bs, l, o.st, gas - 1);
        case CondBranch(r, t, e) =>
          DisciplineErased(m, world, bs, if Get(o.st.regs, r).IsTruthy() then t else e, o.st, gas - 1);
        case _ =>
      }
    }
  }
}
