/**
  Branches to the next block. The peephole pass makes them unreachable, which the interpreter runs as a return of
  nil: what that does to a run, exactly, and when it does no harm.
 */
module FallThrough {
  import opened Options
  import opened Mir
  import opened Ssa
  import opened Rewriting
  import opened Graph
  import opened Peephole
  import opened PeepholeLoop

  predicate IsCut(f: Func, b: nat) {
    b < |f.blocks| && CutTerm(f, b) != f.blocks[b].term
  }

  // ---------------------------------------------------------------- what becomes of a run

  /** The state in which a run of f first comes to a branch that is cut, if it does. */
  function AtCut(m: Mode, world: World, f: Func, lbl: Label, st: State, gas: nat): Option<State>
    decreases gas
  {
    if gas == 0 then None
    else match Find(f.blocks, lbl)
      case None => None
      case Some(b) =>
        match ExecFrom(m, world, f.blocks[b].insts, 0, st)
        case Abort => None
        case Next(t) =>
          if IsCut(f, b) then Some(t)
          else match f.blocks[b].term
            case Branch(l) => AtCut(m, world, f, l, t, gas - 1)
            case CondBranch(r, x, y) => AtCut(m, world, f, if Get(t.regs, r).IsTruthy() then x else y, t, gas - 1)
            case _ => None
  }

  // The run goes on as it did up to the first cut, and there it returns nil.
  lemma {:induction false} RunUpToCut(m: Mode, world: World, f: Func, g: Func, lbl: Label, st: State, gas: nat)
    requires CutsFallthroughs(f, g)
    ensures Run(m, world, g.blocks, lbl, st, gas)
            == match AtCut(m, world, f, lbl, st, gas)
               case Some(t) => Returning(Nil, t)
               case None => Run(m, world, f.blocks, lbl, st, gas)
    decreases gas
  {
    SameLabelsFindFrom(f.blocks, g.blocks, lbl, 0);
    if gas > 0 && Find(f.blocks, lbl).Some? {
      var b := Find(f.blocks, lbl).value;
      var e := ExecFrom(m, world, f.blocks[b].insts, 0, st);
      if e.Next? && !IsCut(f, b) {
        match f.blocks[b].term
        case Branch(l) => RunUpToCut(m, world, f, g, l, e.st, gas - 1);
        case CondBranch(r, x, y) =>
          RunUpToCut(m, world, f, g, if Get(e.st.regs, r).IsTruthy() then x else y, e.st, gas - 1);
        case _ =>
      }
    }
  }

  // So a run is kept exactly if it comes to no cut, or had nothing more to do there than to return nil.
  lemma CuttingKeepsRunExactly(m: Mode, world: World, f: Func, g: Func, args: seq<Value>, globals: Globals,
                               trace: seq<Event>, gas: nat)
    requires CutsFallthroughs(f, g)
    ensures var o := RunFunc(m, world, f, args, globals, trace, gas);
            RunFunc(m, world, g, args, globals, trace, gas) == o
            <==> match AtCut(m, world, f, EntryLabel(f.blocks), Enter(f, args, globals, trace), gas)
                 case None => true
                 case Some(t) => o == Returned(Nil, t.globals, t.trace)
  {
    assert EntryLabel(f.blocks) == EntryLabel(g.blocks);
    RunUpToCut(m, world, f, g, EntryLabel(f.blocks), Enter(f, args, globals, trace), gas);
  }

  // ---------------------------------------------------------------- cuts that do no harm

  /** Cannot fault, and changes only registers and variables of the function. */
  predicate Pure(inst: Inst) {
    match inst
    case LoadConst(_, _) => true
    case Copy(_, _) => true
    case Load(_, _) => true
    case Alloc(_, _) => true
    case BlockCreate(_, _, _) => true
    case SymbolToProc(_, _) => true
    case Unary(_, op, _) => op != Neg
    case Store(name, _) => IsVariable(name)
    case Nop => true
    case _ => false
  }

  /** From the block of this label on, at most n blocks follow, and they only return nil. */
  predicate Quiet(f: Func, lbl: Label, n: nat)
    decreases n
  {
    match Find(f.blocks, lbl)
    case None => true
    case Some(b) =>
      && (forall inst | inst in f.blocks[b].insts :: Pure(inst))
      && match f.blocks[b].term
         case Return(None) => true
         case Unreachable => true
         case Branch(l) => n > 0 && Quiet(f, l, n - 1)
         case CondBranch(_, x, y) => n > 0 && Quiet(f, x, n - 1) && Quiet(f, y, n - 1)
         case _ => false
  }

  ghost predicate QuietSometime(f: Func, lbl: Label) {
    exists n: nat :: Quiet(f, lbl, n)
  }

  /** Every branch that is cut cannot be reached, or leads to nothing but a return of nil. */
  ghost predicate HarmlessCuts(f: Func) {
    forall b: nat :: IsCut(f, b) && Reachable(f, b) ==> QuietSometime(f, f.blocks[b].term.target)
  }

  lemma {:induction false} PureRuns(m: Mode, world: World, insts: seq<Inst>, i: nat, st: State)
    requires i <= |insts| && forall inst | inst in insts :: Pure(inst)
    ensures var e := ExecFrom(m, world, insts, i, st);
            e.Next? && e.st.globals == st.globals && e.st.trace == st.trace
    decreases |insts| - i
  {
    hide EvalUnary, ReadName;
    if i < |insts| {
      assert Pure(insts[i]);
      PureRuns(m, world, insts, i + 1, ExecInst(m, world, insts[i], st).st);
    }
  }

  lemma {:induction false} QuietRuns(m: Mode, world: World, f: Func, lbl: Label, n: nat, st: State, gas: nat)
    requires Quiet(f, lbl, n)
    ensures gas > n ==> Run(m, world, f.blocks, lbl, st, gas) == Returning(Nil, st)
    ensures var o := Run(m, world, f.blocks, lbl, st, gas); o.OutOfGas? || o == Returning(Nil, st)
    decreases n
  {
    hide ExecFrom;
    if gas > 0 && Find(f.blocks, lbl).Some? {
      var b := Find(f.blocks, lbl).value;
      PureRuns(m, world, f.blocks[b].insts, 0, st);
      var t := ExecFrom(m, world, f.blocks[b].insts, 0, st).st;
      match f.blocks[b].term
      case Branch(l) => QuietRuns(m, world, f, l, n - 1, t, gas - 1);
      case CondBranch(r, x, y) => QuietRuns(m, world, f, if Get(t.regs, r).IsTruthy() then x else y, n - 1, t, gas - 1);
      case _ =>
    }
  }

  // ---------------------------------------------------------------- ends

  /** What one run of f returns or stops at, some run of f does at the latest with more gas. */
  ghost predicate ComesTo(m: Mode, world: World, f: Func, args: seq<Value>, globals: Globals, trace: seq<Event>,
                          o: Outcome) {
    exists gas: nat :: RunFunc(m, world, f, args, globals, trace, gas) == o
                       || RunFunc(m, world, f, args, globals, trace, gas).Aborted?
  }

  /** Unless f aborts: g returns what f returns, no later, and what g comes to, f comes to. */
  ghost predicate EndsAlike(m: Mode, f: Func, g: Func) {
    forall world: World, args: seq<Value>, globals: Globals, trace: seq<Event>, gas: nat ::
      var o, o' := RunFunc(m, world, f, args, globals, trace, gas), RunFunc(m, world, g, args, globals, trace, gas);
      && (o.Returned? ==> o' == o)
      && (!o'.OutOfGas? ==> ComesTo(m, world, f, args, globals, trace, o'))
  }

  lemma RefiningEndsAlike(m: Mode, f: Func, g: Func)
    requires RefinesFunc(m, f, g)
    ensures EndsAlike(m, f, g)
  {
    forall world: World, args: seq<Value>, globals: Globals, trace: seq<Event>, gas: nat
      ensures var o := RunFunc(m, world, f, args, globals, trace, gas);
              var o' := RunFunc(m, world, g, args, globals, trace, gas);
              (o.Returned? ==> o' == o) && (!o'.OutOfGas? ==> ComesTo(m, world, f, args, globals, trace, o'))
    {
      assert Refines(RunFunc(m, world, f, args, globals, trace, gas), RunFunc(m, world, g, args, globals, trace, gas));
    }
  }

  lemma EndsAlikeTransitive(m: Mode, f: Func, g: Func, h: Func)
    requires EndsAlike(m, f, g) && EndsAlike(m, g, h)
    ensures EndsAlike(m, f, h)
  {
    forall world: World, args: seq<Value>, globals: Globals, trace: seq<Event>, gas: nat
      ensures var o := RunFunc(m, world, f, args, globals, trace, gas);
              var o' := RunFunc(m, world, h, args, globals, trace, gas);
              (o.Returned? ==> o' == o) && (!o'.OutOfGas? ==> ComesTo(m, world, f, args, globals, trace, o'))
    {
      var o' := RunFunc(m, world, h, args, globals, trace, gas);
      if !o'.OutOfGas? {
        assert ComesTo(m, world, g, args, globals, trace, o');
        var k: nat :| RunFunc(m, world, g, args, globals, trace, k) == o'
                      || RunFunc(m, world, g, args, globals, trace, k).Aborted?;
        assert ComesTo(m, world, f, args, globals, trace, RunFunc(m, world, g, args, globals, trace, k));
      }
    }
  }

  /** The run is at a reachable block, or at no block at all. */
  ghost predicate AtReachable(f: Func, lbl: Label) {
    Find(f.blocks, lbl).Some? ==> Reachable(f, Find(f.blocks, lbl).value)
  }

  lemma ReachesTarget(f: Func, b: nat, lbl: Label)
    requires b < |f.blocks| && Reachable(f, b) && lbl in Targets(f.blocks[b].term)
    ensures AtReachable(f, lbl)
  {
    if Find(f.blocks, lbl).Some? {
      var c := Find(f.blocks, lbl).value;
      var p :| PathTo(f, p, b);
      assert PathTo(f, p + [c], c);
    }
  }

  // From a reachable block: a run that returns does so in g, and what g comes to, f does with more gas.
  lemma {:induction false} HarmlessRun(m: Mode, world: World, f: Func, g: Func, lbl: Label, st: State, gas: nat)
    returns (more: nat)
    requires CutsFallthroughs(f, g) && HarmlessCuts(f) && AtReachable(f, lbl)
    ensures var o, o' := Run(m, world, f.blocks, lbl, st, gas), Run(m, world, g.blocks, lbl, st, gas);
            && (o.Returned? ==> o' == o)
            && (!o'.OutOfGas? ==> Run(m, world, f.blocks, lbl, st, more) == o')
    decreases gas
  {
    hide ExecFrom;
    SameLabelsFindFrom(f.blocks, g.blocks, lbl, 0);
    more := gas;
    if gas > 0 && Find(f.blocks, lbl).Some? {
      var b := Find(f.blocks, lbl).value;
      var e := ExecFrom(m, world, f.blocks[b].insts, 0, st);
      if e.Next? {
        if IsCut(f, b) {
          var n: nat :| Quiet(f, f.blocks[b].term.target, n);
          QuietRuns(m, world, f, f.blocks[b].term.target, n, e.st, gas - 1);
          QuietRuns(m, world, f, f.blocks[b].term.target, n, e.st, n + 1);
          more := n + 2;
        } else {
          match f.blocks[b].term
          case Branch(l) =>
            ReachesTarget(f, b, l);
            more := HarmlessRun(m, world, f, g, l, e.st, gas - 1);
            more := more + 1;
          case CondBranch(r, x, y) =>
            var l := if Get(e.st.regs, r).IsTruthy() then x else y;
            ReachesTarget(f, b, l);
            more := HarmlessRun(m, world, f, g, l, e.st, gas - 1);
            more := more + 1;
          case _ =>
        }
      }
    }
  }

  // Where all cuts are harmless, the pass keeps what every run comes to.
  lemma HarmlessCutsKeepEnds(m: Mode, f: Func, g: Func)
    requires CutsFallthroughs(f, g) && HarmlessCuts(f)
    ensures EndsAlike(m, f, g)
  {
    forall world: World, args: seq<Value>, globals: Globals, trace: seq<Event>, gas: nat
      ensures var o := RunFunc(m, world, f, args, globals, trace, gas);
              var o' := RunFunc(m, world, g, args, globals, trace, gas);
              (o.Returned? ==> o' == o) && (!o'.OutOfGas? ==> ComesTo(m, world, f, args, globals, trace, o'))
    {
      assert EntryLabel(f.blocks) == EntryLabel(g.blocks);
      EntryReachable(f);
      var more := HarmlessRun(m, world, f, g, EntryLabel(f.blocks), Enter(f, args, globals, trace), gas);
      assert RunFunc(m, world, f, args, globals, trace, more)
          == Run(m, world, f.blocks, EntryLabel(f.blocks), Enter(f, args, globals, trace), more);
    }
  }

  lemma EntryReachable(f: Func)
    ensures AtReachable(f, EntryLabel(f.blocks))
  {
    if f.blocks != [] {
      assert Find(f.blocks, EntryLabel(f.blocks)) == Some(0);
      assert PathTo(f, [0], 0);
    }
  }

  // ---------------------------------------------------------------- the whole loop

  lemma {:induction false} StaysQuiet(f: Func, g: Func, lbl: Label, n: nat)
    requires BecomeCopies(f, g) && Quiet(f, lbl, n)
    ensures Quiet(g, lbl, n)
    decreases n
  {
    SameLabelsFindFrom(f.blocks, g.blocks, lbl, 0);
    if Find(f.blocks, lbl).Some? {
      var b := Find(f.blocks, lbl).value;
      forall i: nat | i < |g.blocks[b].insts|
        ensures Pure(g.blocks[b].insts[i])
      {
        assert At(f, b, i) && InstAt(f, b, i) == f.blocks[b].insts[i] && InstAt(g, b, i) == g.blocks[b].insts[i];
        assert f.blocks[b].insts[i] in f.blocks[b].insts;
      }
      match f.blocks[b].term
      case Branch(l) => StaysQuiet(f, g, l, n - 1);
      case CondBranch(_, x, y) =>
        StaysQuiet(f, g, x, n - 1);
        StaysQuiet(f, g, y, n - 1);
      case _ =>
    }
  }

  lemma CopiesKeepHarmless(m: Mode, f: Func, g: Func)
    requires BecomeCopies(f, g) && HarmlessCuts(f) && StoresReadBack(m, f)
    ensures HarmlessCuts(g) && StoresReadBack(m, g)
  {
    CopiesKeepReadBack(m, f, g);
    SamePaths(f, g);
    forall b: nat | IsCut(g, b) && Reachable(g, b)
      ensures QuietSometime(g, g.blocks[b].term.target)
    {
      var p :| PathTo(g, p, b);
      assert PathTo(f, p, b);
      assert IsCut(f, b) && QuietSometime(f, f.blocks[b].term.target);
      var n: nat :| Quiet(f, f.blocks[b].term.target, n);
      StaysQuiet(f, g, f.blocks[b].term.target, n);
    }
  }

  lemma NoCutsLeft(m: Mode, f: Func, g: Func)
    requires CutsFallthroughs(f, g) && StoresReadBack(m, f)
    ensures HarmlessCuts(g) && StoresReadBack(m, g)
  {
    forall b: nat
      ensures !IsCut(g, b)
    {
    }
    assert forall b: nat, i: nat :: At(g, b, i) ==> At(f, b, i) && InstAt(g, b, i) == InstAt(f, b, i);
  }

  lemma CuttingKeepsStrict(f: Func, g: Func, live: iset<RegId>)
    requires CutsFallthroughs(f, g) && Strict(f, live)
    ensures Strict(g, live)
  {
    FewerEdgesKeepStrict(f, g, live);
  }

  lemma SweepKeepsEnds(m: Mode, f: Func, g: Func, live: iset<RegId>)
    requires m.identities && Strict(f, live) && HarmlessCuts(f) && StoresReadBack(m, f) && Sweep(f, g)
    ensures EndsAlike(m, f, g) && Strict(g, live) && HarmlessCuts(g) && StoresReadBack(m, g)
  {
    hide EndsAlike, RefinesFunc, Strict, HarmlessCuts, StoresReadBack;
    var shortened, forwarded, cut :|
      ShortensCopies(f, shortened) && ForwardsStores(shortened, forwarded)
      && CutsFallthroughs(forwarded, cut) && SimplifiesIdentities(cut, g);
    ShorteningImproves(m, f, shortened);
    ShorteningCopies(f, shortened);
    CopiesKeepHarmless(m, f, shortened);
    ForwardingImproves(m, shortened, forwarded);
    ForwardingCopies(shortened, forwarded);
    CopiesKeepHarmless(m, shortened, forwarded);
    HarmlessCutsKeepEnds(m, forwarded, cut);
    CuttingKeepsStrict(forwarded, cut, live);
    NoCutsLeft(m, forwarded, cut);
    IdentitiesImprove(m, cut, g);
    IdentityCopies(cut, g);
    CopiesKeepHarmless(m, cut, g);
    RefiningEndsAlike(m, f, shortened);
    RefiningEndsAlike(m, shortened, forwarded);
    RefiningEndsAlike(m, cut, g);
    EndsAlikeTransitive(m, f, shortened, forwarded);
    EndsAlikeTransitive(m, f, forwarded, cut);
    EndsAlikeTransitive(m, f, cut, g);
  }

  // Where all cuts are harmless and loads find what was stored, the whole loop keeps what every run comes to.
  lemma {:induction false} SweepsKeepEnds(m: Mode, n: nat, f: Func, g: Func, live: iset<RegId>)
    requires m.identities && Strict(f, live) && HarmlessCuts(f) && StoresReadBack(m, f) && Sweeps(n, f, g)
    ensures EndsAlike(m, f, g) && Strict(g, live) && HarmlessCuts(g) && StoresReadBack(m, g)
  {
    hide EndsAlike, Strict, HarmlessCuts, StoresReadBack, Sweep;
    if n == 0 {
      assert RefinesFunc(m, f, f);
      RefiningEndsAlike(m, f, f);
    } else {
      var h :| Sweeps(n - 1, f, h) && Sweep(h, g);
      SweepsKeepEnds(m, n - 1, f, h, live);
      SweepKeepsEnds(m, h, g, live);
      EndsAlikeTransitive(m, f, h, g);
    }
  }
}
