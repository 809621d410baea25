/** The interpreter as a machine whose fields change step by step. */
module Interpreter {
  import opened Options
  import opened Mir

  /** The functions of a module by name. Of several with the same name the last one counts. */
  function Table(funcs: seq<NamedFunc>): map<string, Func> {
    if funcs == [] then map[]
    else Table(funcs[..|funcs| - 1])[funcs[|funcs| - 1].name := funcs[|funcs| - 1].func]
  }

  lemma {:induction false} TableKeepsLast(funcs: seq<NamedFunc>, k: nat)
    requires k < |funcs| && forall j :: k < j < |funcs| ==> funcs[j].name != funcs[k].name
    ensures funcs[k].name in Table(funcs) && Table(funcs)[funcs[k].name] == funcs[k].func
  {
    if k < |funcs| - 1 {
      assert forall j :: 0 <= j < |funcs| - 1 ==> funcs[..|funcs| - 1][j] == funcs[j];
      TableKeepsLast(funcs[..|funcs| - 1], k);
    }
  }

  lemma {:induction false} TableSource(funcs: seq<NamedFunc>, name: string) returns (k: nat)
    requires name in Table(funcs)
    ensures k < |funcs| && funcs[k].name == name && Table(funcs)[name] == funcs[k].func
    ensures forall j :: k < j < |funcs| ==> funcs[j].name != name
  {
    if funcs[|funcs| - 1].name == name {
      k := |funcs| - 1;
    } else {
      k := TableSource(funcs[..|funcs| - 1], name);
      assert forall j :: 0 <= j < |funcs| - 1 ==> funcs[..|funcs| - 1][j] == funcs[j];
    }
  }

  ghost predicate Agreeing(funcs: seq<NamedFunc>) {
    forall j, k :: 0 <= j < |funcs| && 0 <= k < |funcs| && funcs[j].name == funcs[k].name
      ==> funcs[j].func == funcs[k].func
  }

  // Every function of a module can be called exactly when no name stands for two different functions.
  lemma EveryFunctionFoundExactly(funcs: seq<NamedFunc>)
    ensures (forall k :: 0 <= k < |funcs| ==> Lookup(Table(funcs), funcs[k].name) == Some(funcs[k].func))
            <==> Agreeing(funcs)
  {
    forall k | 0 <= k < |funcs|
      ensures exists j :: k <= j < |funcs| && funcs[j].name == funcs[k].name
                          && Lookup(Table(funcs), funcs[k].name) == Some(funcs[j].func)
    {
      var j := LastNamed(funcs, k);
      TableKeepsLast(funcs, j);
    }
  }

  lemma LastNamed(funcs: seq<NamedFunc>, k: nat) returns (j: nat)
    requires k < |funcs|
    ensures k <= j < |funcs| && funcs[j].name == funcs[k].name
    ensures forall i :: j < i < |funcs| ==> funcs[i].name != funcs[j].name
    decreases |funcs| - k
  {
    j := k;
    if i :| k < i < |funcs| && funcs[i].name == funcs[k].name {
      j := LastNamed(funcs, i);
    }
  }

  /**
    The run of the function of a block: its captured values come first, then the arguments. What is no block gives
    nil.
   */
  function Invoked(m: Mode, world: World, functions: map<string, Func>, st: State, blockReg: RegId, args: seq<RegId>,
                   gas: nat): Outcome
  {
    var block := Get(st.regs, blockReg);
    if block.Block? && block.funcSymbol in functions
    then RunFunc(m, world, functions[block.funcSymbol], block.captured + GetAll(st.regs, args),
                 st.globals, st.trace, gas)
    else Returned(Nil, st.globals, st.trace)
  }

  /** The caller goes on with its own registers and variables. */
  function AfterInvoke(st: State, dest: RegId, o: Outcome): State
    requires o.Returned?
  {
    State(st.regs[dest := o.v], st.vars, o.globals, o.trace)
  }

  class MirInterpreter {
    var registers: Regs
    var variables: map<string, Value>
    var globals: Globals
    var functions: map<string, Func>
    var trace: seq<Event>

    constructor ()
      ensures Memory() == State(map[], map[], Globals(map[], map[]), []) && functions == map[]
    {
      registers, variables, globals, functions, trace := map[], map[], Globals(map[], map[]), map[], [];
    }

    function Memory(): State
      reads this
    {
      State(registers, variables, globals, trace)
    }

    method LoadModule(funcs: seq<NamedFunc>)
      modifies this`functions
      ensures functions == old(functions) + Table(funcs)
    {
      for i := 0 to |funcs|
        invariant functions == old(functions) + Table(funcs[..i])
      {
        assert funcs[..i + 1][..i] == funcs[..i];
        functions := functions[funcs[i].name := funcs[i].func];
      }
      assert funcs[..|funcs|] == funcs;
    }

    method LoadName(name: string) returns (v: Value)
      ensures v == ReadName(Memory(), name)
    {
      if IsConstantName(name) {
        v := if name in globals.consts then globals.consts[name] else Nil;
      } else if IsIvarName(name) {
        v := Nil;
        if SELF in variables && variables[SELF].Object? {
          var id := variables[SELF].id;
          v := if (id, name) in globals.ivars then globals.ivars[(id, name)] else Nil;
        }
      } else {
        v := if name in variables then variables[name] else Nil;
      }
    }

    method StoreName(name: string, v: Value)
      modifies this`variables, this`globals
      ensures Memory() == WriteName(old(Memory()), name, v)
    {
      if IsConstantName(name) {
        globals := globals.(consts := globals.consts[name := v]);
      } else if IsIvarName(name) {
        if SELF in variables && variables[SELF].Object? {
          globals := globals.(ivars := globals.ivars[(variables[SELF].id, name) := v]);
        }
      } else {
        variables := variables[name := v];
      }
    }

    /** Returns false if the instruction stops the process. */
    method ExecInstruction(m: Mode, world: World, inst: Inst) returns (ok: bool)
      modifies this`registers, this`variables, this`globals, this`trace
      ensures ok <==> ExecInst(m, world, inst, old(Memory())).Next?
      ensures ok ==> Memory() == ExecInst(m, world, inst, old(Memory())).st
    {
      ok := true;
      match inst
      case LoadConst(d, c) => registers := registers[d := ValueOf(c)];
      case Copy(d, s) => registers := registers[d := Get(registers, s)];
      case Binary(d, op, l, r) =>
        var x, y := Get(registers, l), Get(registers, r);
        if Faults(m, op, x, y) {
          return false;
        }
        registers := registers[d := EvalBinary(op, x, y)];
      case Unary(d, op, s) =>
        var x := Get(registers, s);
        if FaultsUnary(m, op, x) {
          return false;
        }
        registers := registers[d := EvalUnary(op, x)];
      case Call(d, name, args) =>
        trace := trace + [CallEvent(Memory(), name, GetAll(registers, args))];
        registers, globals := registers[d := world(trace).result], world(trace).globals;
      case MethodCall(d, recv, name, args, _) =>
        trace := trace + [Sent(Get(registers, recv), name, GetAll(registers, args), globals)];
        registers, globals := registers[d := world(trace).result], world(trace).globals;
      case Load(d, name) =>
        var v := LoadName(name);
        registers := registers[d := v];
      case Store(name, s) =>
        var x := Get(registers, s);
        if FaultsStore(m, Memory(), name, x) {
          return false;
        }
        StoreName(name, x);
      case Alloc(d, _) => registers := registers[d := Nil];
      case BlockCreate(d, symbol, captured) => registers := registers[d := Block(symbol, GetAll(registers, captured))];
      case SymbolToProc(d, s) => registers := registers[d := ProcOf(Get(registers, s))];
      case Send(d, recv, selector, args, _) =>
        var selected := Get(registers, selector);
        if selected.Str? || selected.Symbol? {
          trace := trace + [Sent(Get(registers, recv), selected.s, GetAll(registers, args), globals)];
          registers, globals := registers[d := world(trace).result], world(trace).globals;
        } else {
          registers := registers[d := Nil];
        }
      case Nop =>
    }

    method ExecBlock(m: Mode, world: World, insts: seq<Inst>) returns (ok: bool)
      modifies this`registers, this`variables, this`globals, this`trace
      ensures ok <==> ExecFrom(m, world, insts, 0, old(Memory())).Next?
      ensures ok ==> Memory() == ExecFrom(m, world, insts, 0, old(Memory())).st
    {
      hide ExecInst;
      for i := 0 to |insts|
        invariant ExecFrom(m, world, insts, i, Memory()) == ExecFrom(m, world, insts, 0, old(Memory()))
      {
        ok := ExecInstruction(m, world, insts[i]);
        if !ok {
          return;
        }
      }
      return true;
    }

    // The loop computes the run, and puts back the caller's registers and variables when it returns.
    method CallFunction(m: Mode, world: World, func: Func, args: seq<Value>, gas: nat) returns (o: Outcome)
      modifies this`registers, this`variables, this`globals, this`trace
      ensures o == RunFunc(m, world, func, args, old(globals), old(trace), gas)
      ensures o.Returned? ==> Memory() == State(old(registers), old(variables), o.globals, o.trace)
    {
      hide ExecFrom;
      var oldRegisters, oldVariables := registers, variables;
      registers, variables := map[], map[];
      for i := 0 to |func.params|
        invariant Memory() == State(Bind(func.params, args, i), map[], old(globals), old(trace))
      {
        registers := registers[func.params[i] := if i < |args| then args[i] else Nil];
      }
      var current := if func.blocks == [] then "" else func.blocks[0].lbl;
      var left := gas;
      while left > 0
        invariant Run(m, world, func.blocks, current, Memory(), left)
                  == RunFunc(m, world, func, args, old(globals), old(trace), gas)
      {
        var b := Find(func.blocks, current);
        if b.None? {
          registers, variables := oldRegisters, oldVariables;
          return Returned(Nil, globals, trace);
        }
        var ok := ExecBlock(m, world, func.blocks[b.value].insts);
        if !ok {
          return Aborted;
        }
        match func.blocks[b.value].term {
        case Return(Some(r)) =>
          o := Returned(Get(registers, r), globals, trace);
          registers, variables := oldRegisters, oldVariables;
          return;
        case Return(None) =>
          registers, variables := oldRegisters, oldVariables;
          return Returned(Nil, globals, trace);
        case Branch(l) => current := l;
        case CondBranch(r, t, e) => current := if Get(registers, r).IsTruthy() then t else e;
        case Unreachable =>
          registers, variables := oldRegisters, oldVariables;
          return Returned(Nil, globals, trace);
        }
        left := left - 1;
      }
      return OutOfGas(globals, trace);
    }

    // Captured values come first, then the arguments. What is no block, or has no function, gives nil.
    method InvokeBlock(m: Mode, world: World, dest: RegId, blockReg: RegId, args: seq<RegId>, gas: nat)
      returns (o: Outcome)
      modifies this`registers, this`variables, this`globals, this`trace
      ensures o == Invoked(m, world, functions, old(Memory()), blockReg, args, gas)
      ensures o.Returned? ==> Memory() == AfterInvoke(old(Memory()), dest, o)
    {
      var block := Get(registers, blockReg);
      o := Returned(Nil, globals, trace);
      if block.Block? && block.funcSymbol in functions {
        o := CallFunction(m, world, functions[block.funcSymbol], block.captured + GetAll(registers, args), gas);
      }
      if o.Returned? {
        registers := registers[dest := o.v];
      }
    }
  }
}
