/** Blocks: what the body of a block sees of the place that created it. */
module Closures {
  import opened Options
  import opened Mir
  import opened Hir
  import opened Lower
  import opened LowerLabels
  import opened LowerMeaning
  import opened LowerCorrect
  import opened Interpreter

  // ---------------------------------------------------------------- lowering

  // Two blocks have one name exactly if they are passed to methods of one name at the same count of registers.
  // The count starts again in every function, also in that of a block.
  lemma BlockNameInjective(p: string, j: nat, q: string, k: nat)
    ensures BlockName(p, j) == BlockName(q, k) <==> p == q && j == k
  {
    if BlockName(p, j) == BlockName(q, k) {
      LabelInjective("block_in_" + p, j, "block_in_" + q, k);
      assert p == ("block_in_" + p)[9..] && q == ("block_in_" + q)[9..];
    }
  }

  // ---------------------------------------------------------------- creating a block

  // The loads emitted for the captures leave in the registers what the names stand for.
  lemma {:induction false} LoadsCapture(m: Mode, world: World, names: seq<string>, base: RegId, i: nat, st: State)
    requires i <= |names|
    ensures var e := ExecFrom(m, world, LoadNames(names, base)[..i], 0, st);
            && e.Next? && e.st.vars == st.vars && e.st.globals == st.globals && e.st.trace == st.trace
            && forall k :: 0 <= k < i ==> Get(e.st.regs, base + k) == ReadName(st, names[k])
  {
    if i > 0 {
      var insts := LoadNames(names, base);
      LoadsCapture(m, world, names, base, i - 1, st);
      assert insts[..i] == insts[..i - 1] + [insts[i - 1]];
      ExecAppends(m, world, insts[..i - 1], insts[i - 1], 0, st);
      NamesSeeMemoryOnly(st, ExecFrom(m, world, insts[..i - 1], 0, st).st, names[i - 1], Nil);
    }
  }

  lemma {:induction false} ExecAppends(m: Mode, world: World, insts: seq<Inst>, inst: Inst, i: nat, st: State)
    requires i <= |insts|
    ensures ExecFrom(m, world, insts + [inst], i, st)
            == match ExecFrom(m, world, insts, i, st)
               case Abort => Abort
               case Next(t) => ExecInst(m, world, inst, t)
    decreases |insts| - i
  {
    hide ExecInst;
    if i < |insts| {
      match ExecInst(m, world, insts[i], st)
      case Abort =>
      case Next(t) => ExecAppends(m, world, insts, inst, i + 1, t);
    }
  }

  // ---------------------------------------------------------------- invoking it

  /** The last index below n at which a name occurs. */
  function LastIndex(names: seq<string>, name: string, n: nat): (r: Option<nat>)
    requires n <= |names|
    ensures r.None? <==> forall k :: 0 <= k < n ==> names[k] != name
    ensures r.Some? ==> r.value < n && names[r.value] == name && forall k :: r.value < k < n ==> names[k] != name
  {
    if n == 0 then None
    else if names[n - 1] == name then Some(n - 1)
    else LastIndex(names, name, n - 1)
  }

  /** What a variable stands for on entry to a block: a parameter, else a captured value, else nothing. */
  function SeenInBlock(captured: seq<string>, values: seq<Value>, params: seq<string>, args: seq<Value>,
                       name: string): Value
    requires |values| == |captured|
  {
    match LastIndex(params, name, |params|)
    case Some(k) => if k < |args| then args[k] else Nil
    case None =>
      match LastIndex(captured, name, |captured|)
      case Some(k) => values[k]
      case None => Nil
  }

  lemma {:induction false} BoundName(st: State, names: seq<string>, vs: seq<Value>, i: nat, name: string)
    requires i <= |names| && IsVariable(name)
    ensures ReadName(BindNames(st, names, vs, i), name)
            == match LastIndex(names, name, i)
               case Some(k) => if k < |vs| then vs[k] else Nil
               case None => ReadName(st, name)
  {
    if i > 0 {
      BoundName(st, names, vs, i - 1, name);
    }
  }

  lemma {:induction false} LastIndexSplits(cs: seq<string>, ps: seq<string>, name: string, n: nat)
    requires n <= |ps|
    ensures LastIndex(cs + ps, name, |cs| + n)
            == match LastIndex(ps, name, n)
               case Some(k) => Some(|cs| + k)
               case None => LastIndex(cs, name, |cs|)
  {
    if n > 0 {
      LastIndexSplits(cs, ps, name, n - 1);
    } else {
      LastIndexPrefix(cs, ps, name, |cs|);
    }
  }

  lemma {:induction false} LastIndexPrefix(cs: seq<string>, ps: seq<string>, name: string, n: nat)
    requires n <= |cs|
    ensures LastIndex(cs + ps, name, n) == LastIndex(cs, name, n)
  {
    if n > 0 {
      LastIndexPrefix(cs, ps, name, n - 1);
    }
  }

  /** The state in which the body of an invoked block starts. */
  function BlockEntry(captured: seq<string>, values: seq<Value>, params: seq<string>, args: seq<Value>,
                      globals: Globals, trace: seq<Event>): State
  {
    BindNames(State(map[], map[], globals, trace), captured + params, values + args, |captured + params|)
  }

  lemma BlockSees(captured: seq<string>, values: seq<Value>, params: seq<string>, args: seq<Value>,
                  globals: Globals, trace: seq<Event>, name: string)
    requires |values| == |captured| && IsVariable(name)
    ensures ReadName(BlockEntry(captured, values, params, args, globals, trace), name)
            == SeenInBlock(captured, values, params, args, name)
  {
    BoundName(State(map[], map[], globals, trace), captured + params, values + args, |captured + params|, name);
    LastIndexSplits(captured, params, name, |params|);
  }

  /** The values that names had where a block was created. */
  function ValuesOf(st: State, names: seq<string>): (vs: seq<Value>)
    ensures |vs| == |names|
  {
    seq(|names|, i requires 0 <= i < |names| => ReadName(st, names[i]))
  }

  // A captured name that no parameter shadows means in the block what it meant at the creation.
  lemma CapturedMeansTheSame(here: State, captured: seq<string>, params: seq<string>, args: seq<Value>,
                             globals: Globals, trace: seq<Event>, name: string)
    requires name in captured && name !in params && IsVariable(name)
    ensures ReadName(BlockEntry(captured, ValuesOf(here, captured), params, args, globals, trace), name)
            == ReadName(here, name)
  {
    BlockSees(captured, ValuesOf(here, captured), params, args, globals, trace, name);
  }

  // A block that mentions self means by it what self was at the creation.
  lemma SelfIsCaptured(here: State, captured: seq<string>, params: seq<string>, args: seq<Value>, globals: Globals,
                       trace: seq<Event>)
    requires SELF !in params
    ensures var all := EffectiveCaptures(captured, true);
            ReadName(BlockEntry(all, ValuesOf(here, all), params, args, globals, trace), SELF) == ReadName(here, SELF)
  {
    var all := EffectiveCaptures(captured, true);
    assert all[0] == SELF;
    CapturedMeansTheSame(here, all, params, args, globals, trace, SELF);
  }

  // The code of the block argument of a call leaves a block with the values of the captured names.
  lemma CreationCaptures(m: Mode, world: World, n: Node, b: Builder, here: State)
    requires n.BlockCall? && !IsSymbolProc(n.body)
    ensures var all := EffectiveCaptures(n.captured, n.capturesSelf);
            var e := ExecFrom(m, world, BlockArgInsts(n, b), 0, here);
            && e.Next? && SameMemory(here, e.st)
            && Get(e.st.regs, LowerBlockArg(n, b).1) == Block(BlockName(n.name, b.nextReg), ValuesOf(here, all))
  {
    hide FinishedBody, BlockName;
    var r, all := b.nextReg, EffectiveCaptures(n.captured, n.capturesSelf);
    var loads, create := LoadNames(all, r), BlockCreate(r + |all|, BlockName(n.name, r), RegsFrom(r, |all|));
    LoadsCapture(m, world, all, r, |all|, here);
    assert loads[..|all|] == loads;
    ExecAppends(m, world, loads, create, 0, here);
    var st1 := ExecFrom(m, world, loads, 0, here).st;
    assert GetAll(st1.regs, RegsFrom(r, |all|)) == ValuesOf(here, all);
  }

  lemma FunctionFound(funcs: seq<NamedFunc>, f: NamedFunc)
    requires Agreeing(funcs) && f in funcs
    ensures Lookup(Table(funcs), f.name) == Some(f.func)
  {
    EveryFunctionFoundExactly(funcs);
  }

  // Closure conversion: in a module whose names agree, run the code that creates the block of a call in one state,
  // and invoke the block in another. The body is evaluated with each captured name as it was at the creation and
  // the parameters bound to the arguments; the caller goes on with its own registers and variables.
  lemma ClosureConversion(m: Mode, world: World, funcs: seq<NamedFunc>, n: Node, b: Builder, here: State,
                          there: State, dest: RegId, block: RegId, args: seq<RegId>, gas: nat)
    requires n.BlockCall? && !IsSymbolProc(n.body) && AllWellValued(n.body)
    requires PlainNames(m, EffectiveCaptures(n.captured, n.capturesSelf) + n.params)
    requires Agreeing(funcs) && forall f | f in LowerBlockArg(n, b).0.functions :: f in funcs
    requires var created := ExecFrom(m, world, BlockArgInsts(n, b), 0, here);
             created.Next? && Get(there.regs, block) == Get(created.st.regs, LowerBlockArg(n, b).1)
    ensures var all, vs := EffectiveCaptures(n.captured, n.capturesSelf), GetAll(there.regs, args);
            var entry := BlockEntry(all, ValuesOf(here, all), n.params, vs, there.globals, there.trace);
            var o := Invoked(m, world, Table(funcs), there, block, args, gas);
            && (forall name :: name in all && name !in n.params && IsVariable(name)
                  ==> ReadName(entry, name) == ReadName(here, name))
            && (if gas == 0 then o == OutOfGas(there.globals, there.trace)
                else match EvalBody(m, world, n.body, entry, gas - 1, Nil)
                  case Exit(o') => o == o'
                  case Done(v, st, _) =>
                    var v' := if BodyReaches(m, world, n.body, entry, gas - 1) then v else Nil;
                    && o == Returned(v', st.globals, st.trace)
                    && AfterInvoke(there, dest, o) == State(there.regs[dest := v'], there.vars, st.globals, st.trace))
  {
    hide BodyReaches, EvalBody, BlockName, ReadName, FinishedBody;
    var all, vs := EffectiveCaptures(n.captured, n.capturesSelf), GetAll(there.regs, args);
    CreationCaptures(m, world, n, b, here);
    var f := NamedFunc(BlockName(n.name, b.nextReg), LowerFunction(all + n.params, n.body));
    var added := LowerBlockArg(n, b).0.functions;
    assert added[|added| - 1] == f;
    FunctionFound(funcs, f);
    LoweredRuns(m, world, all + n.params, n.body, ValuesOf(here, all) + vs, there.globals, there.trace, gas);
    forall name | name in all && name !in n.params && IsVariable(name)
      ensures ReadName(BlockEntry(all, ValuesOf(here, all), n.params, vs, there.globals, there.trace), name)
              == ReadName(here, name)
    {
      CapturedMeansTheSame(here, all, n.params, vs, there.globals, there.trace, name);
    }
  }
}
