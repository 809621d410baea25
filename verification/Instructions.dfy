/** The laws of the machine: what names mean across functions, what each instruction changes, and what calls ask. */
module Instructions {
  import opened Options
  import opened Mir
  import opened Ssa

  // ---------------------------------------------------------------- names

  predicate IsSelf(st: State, id: nat) {
    SELF in st.vars && st.vars[SELF].Object? && st.vars[SELF].id == id
  }

  // Setting a name: what begins with a capital letter is set for every function, what begins with an at sign for
  // every function on the same object and for no other object, and anything else for the running function alone.
  lemma NamesAreShared(st: State, other: State, name: string, v: Value, id: nat)
    requires name != "" && other.globals == WriteName(st, name, v).globals
    ensures 'A' <= name[0] <= 'Z' ==> ReadName(other, name) == v
    ensures name[0] == '@' && IsSelf(st, id) && IsSelf(other, id) ==> ReadName(other, name) == v
    ensures name[0] == '@' && !(IsSelf(st, id) && IsSelf(other, id)) && IsSelf(other, id) ==>
              ReadName(other, name) == ReadName(other.(globals := st.globals), name)
    ensures !('A' <= name[0] <= 'Z') && name[0] != '@' ==> other.globals == st.globals
    ensures !('A' <= name[0] <= 'Z') && name[0] != '@' ==> ReadName(WriteName(st, name, v), name) == v
  {
  }

  // Setting one name changes no other, unless it is self and the other belongs to self.
  lemma NamesAreApart(st: State, name: string, v: Value, x: string)
    requires x != name && !(name == "self" && x != "" && x[0] == '@')
    ensures ReadName(WriteName(st, name, v), x) == ReadName(st, x)
    ensures WriteName(st, name, v).regs == st.regs && WriteName(st, name, v).trace == st.trace
  {
  }

  // ---------------------------------------------------------------- instructions

  // An instruction sets its own register and no other; only a store sets variables, and only stores and calls
  // change what outlives the function. Every call is recorded, once, and nothing else is.
  lemma InstructionFrame(m: Mode, world: World, inst: Inst, st: State, r: RegId)
    requires ExecInst(m, world, inst, st).Next?
    ensures var next := ExecInst(m, world, inst, st).st;
            && (Get(next.regs, r) != Get(st.regs, r) ==> Dest(inst) == Some(r))
            && (next.vars != st.vars ==> inst.Store?)
            && (next.globals != st.globals ==> inst.Store? || inst.Call? || inst.MethodCall? || inst.Send?)
            && (next.trace != st.trace ==>
                  (inst.Call? || inst.MethodCall? || inst.Send?)
                  && st.trace <= next.trace && |next.trace| == |st.trace| + 1)
  {
    hide EvalBinary, EvalUnary, ValueOf, ReadName, Faults, FaultsUnary, FaultsStore;
  }

  lemma ValuesInRegisters(m: Mode, world: World, inst: Inst, st: State)
    requires ExecInst(m, world, inst, st).Next?
    ensures var next := ExecInst(m, world, inst, st).st;
            match inst
            case LoadConst(d, c) => Get(next.regs, d) == ValueOf(c)
            case Copy(d, s) => Get(next.regs, d) == Get(st.regs, s)
            case Binary(d, op, l, r) => Get(next.regs, d) == EvalBinary(op, Get(st.regs, l), Get(st.regs, r))
            case Unary(d, op, s) => Get(next.regs, d) == EvalUnary(op, Get(st.regs, s))
            case Load(d, name) => Get(next.regs, d) == ReadName(st, name)
            case Store(name, s) => next == WriteName(st, name, Get(st.regs, s))
            case Alloc(d, _) => Get(next.regs, d) == Nil
            case BlockCreate(d, symbol, captured) =>
              var v := Get(next.regs, d);
              && v.Block? && v.funcSymbol == symbol && |v.captured| == |captured|
              && forall k :: 0 <= k < |captured| ==> v.captured[k] == Get(st.regs, captured[k])
            case SymbolToProc(d, s) =>
              Get(next.regs, d) == if Get(st.regs, s).Symbol? then Block(Get(st.regs, s).s, []) else Nil
            case Nop => next == st
            case _ => true
  {
    hide EvalBinary, EvalUnary, ValueOf, ReadName, Faults, FaultsUnary, FaultsStore;
  }

  /** The call is recorded as e, and answered. */
  predicate Asks(world: World, st: State, dest: RegId, e: Event, next: State) {
    && next.trace == st.trace + [e] && Get(next.regs, dest) == world(next.trace).result
    && next.globals == world(next.trace).globals && next.vars == st.vars
  }

  // What the three kinds of calls ask. A send to a selector that is no name asks nothing and gives nil.
  lemma CallsAsk(m: Mode, world: World, inst: Inst, st: State)
    requires inst.Call? || inst.MethodCall? || inst.Send?
    ensures ExecInst(m, world, inst, st).Next?
    ensures var next := ExecInst(m, world, inst, st).st;
            var args := GetAll(st.regs, inst.args);
            match inst
            case Call(d, name, _) => exists me :: Asks(world, st, d, Called(name, args, me, st.globals), next)
            case MethodCall(d, recv, name, _, _) =>
              Asks(world, st, d, Sent(Get(st.regs, recv), name, args, st.globals), next)
            case Send(d, recv, selector, _, _) =>
              (match Get(st.regs, selector)
               case Str(name) => Asks(world, st, d, Sent(Get(st.regs, recv), name, args, st.globals), next)
               case Symbol(name) => Asks(world, st, d, Sent(Get(st.regs, recv), name, args, st.globals), next)
               case _ => Get(next.regs, d) == Nil && next.trace == st.trace && next.globals == st.globals)
            case _ => true
  {
    if inst.Call? {
      var e := CallEvent(st, inst.name, GetAll(st.regs, inst.args));
      assert Asks(world, st, inst.dest, Called(inst.name, e.args, e.selfValue, st.globals),
                  ExecInst(m, world, inst, st).st);
    }
  }

  // Self takes part in a call exactly if the name is none of those that the interpreter answers itself.
  lemma CallsSeeSelf(st: State, name: string, args: seq<Value>, me: Value)
    ensures CallEvent(st.(vars := st.vars[SELF := me]), name, args).selfValue
            == if name == "puts" || name == "print" || name == "p" || name == "rb_ary_new" || name == "rb_hash_new"
                  || name == "rb_yield" then None else Some(me)
  {
  }

  // ---------------------------------------------------------------- calls of functions

  predicate Distinct(rs: seq<RegId>) {
    forall j, k :: 0 <= j < k < |rs| ==> rs[j] != rs[k]
  }

  // A function starts with its arguments in the registers of its parameters, nil for one that is missing, and with
  // no variables.
  lemma {:induction false} ParametersAreBound(params: seq<RegId>, args: seq<Value>, i: nat, k: nat)
    requires Distinct(params) && k < i <= |params|
    ensures params[k] in Bind(params, args, i)
    ensures Bind(params, args, i)[params[k]] == if k < |args| then args[k] else Nil
    decreases i
  {
    if k < i - 1 {
      ParametersAreBound(params, args, i - 1, k);
    }
  }

  lemma {:induction false} NothingElseIsBound(params: seq<RegId>, args: seq<Value>, i: nat, r: RegId)
    requires i <= |params| && r in Bind(params, args, i)
    ensures r in params
    decreases i
  {
    if r !in Bind(params, args, i - 1) {
      assert r == params[i - 1];
    } else {
      NothingElseIsBound(params, args, i - 1, r);
    }
  }

  lemma EntryOfFunction(f: Func, args: seq<Value>, globals: Globals, trace: seq<Event>, k: nat, r: RegId)
    requires Distinct(f.params) && k < |f.params| && r !in f.params
    ensures var st := Enter(f, args, globals, trace);
            && Get(st.regs, f.params[k]) == (if k < |args| then args[k] else Nil) && Get(st.regs, r) == Nil
            && st.vars == map[] && st.globals == globals && st.trace == trace
  {
    ParametersAreBound(f.params, args, |f.params|, k);
    if r in Bind(f.params, args, |f.params|) {
      NothingElseIsBound(f.params, args, |f.params|, r);
    }
  }
}
