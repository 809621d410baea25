/** Constant folding, constant propagation and common subexpression elimination. */
module RewritingPasses {
  import opened Options
  import opened Mir
  import opened Ssa
  import opened Facts
  import opened Rewriting
  import opened Scan
  import opened Folding
  import opened Improvement

  // ---------------------------------------------------------------- constant folding

  type Constants = map<RegId, Const>

  function FoldInst(overflowChecks: bool, known: Constants, inst: Inst): Option<Inst> {
    match inst
    case Binary(d, op, l, r) =>
      if l in known && r in known then Replacement(d, inst, FoldBinop(op, known[l], known[r])) else Some(inst)
    case Unary(d, op, s) =>
      if s in known then Replacement(d, inst, FoldUnop(overflowChecks, op, known[s])) else Some(inst)
    case _ => Some(inst)
  }

  function Replacement(d: RegId, inst: Inst, fold: Fold): Option<Inst> {
    match fold
    case Unfolded => Some(inst)
    case Folded(c) => Some(LoadConst(d, c))
    case Panics => None
  }

  function Folder(overflowChecks: bool): (Constants, Inst) -> Option<Inst> {
    (known: Constants, inst: Inst) => FoldInst(overflowChecks, known, inst)
  }

  function LearnConst(known: Constants, was: Inst, now: Inst): Constants {
    if now.LoadConst? then known[now.dest := now.c] else known
  }

  ghost predicate FoldsConstants(overflowChecks: bool, f: Func, g: Func) {
    Scanned(LearnConst, map[], Unchanged, Folder(overflowChecks), f, g)
  }

  /** Folding comes to an operation on constants whose own evaluation would stop the compiler. */
  ghost predicate FoldingStops(overflowChecks: bool, f: Func) {
    GetsStuck(LearnConst, map[], Unchanged, Folder(overflowChecks), f)
  }

  /** Every entry about a live register is true wherever the register is available. */
  ghost predicate TrueConstants(m: Mode, f: Func, live: iset<RegId>, known: Constants) {
    forall r :: r in known && r in live ==> KnownConst(m, f, live, r, known[r])
  }

  lemma FoldedInstKnown(m: Mode, f: Func, live: iset<RegId>, b: nat, i: nat, known: Constants, inst': Inst)
    requires Strict(f, live) && At(f, b, i) && m.disciplined && TrueConstants(m, f, live, known)
    requires FoldInst(m.overflowChecks, known, InstAt(f, b, i)) == Some(inst') && inst'.LoadConst?
    requires inst'.dest in live
    ensures KnownConst(m, f, live, inst'.dest, inst'.c)
  {
    var inst := InstAt(f, b, i);
    match inst
    case Binary(_, op, l, r) =>
      assert l in Uses(inst) && r in Uses(inst);
      assert GoodUse(f, live, l, b, i) && GoodUse(f, live, r, b, i);
      FoldAgreesExactly(op, known[l], known[r], inst'.c);
      BinaryKnown(m, f, live, b, i, known[l], known[r], inst'.c);
    case Unary(_, op, s) =>
      assert s in Uses(inst);
      assert GoodUse(f, live, s, b, i);
      FoldUnopAgrees(m, op, known[s]);
      UnaryKnown(m, f, live, b, i, known[s], inst'.c);
    case _ =>
      LoadedConstKnown(m, f, live, b, i);
  }

  lemma {:induction false} FoldTableTrue(m: Mode, f: Func, g: Func, live: iset<RegId>, b: nat, i: nat)
    requires Strict(f, live) && m.disciplined
    requires ScannedBefore(LearnConst, map[], Unchanged, Folder(m.overflowChecks), f, g, b, i)
    requires b < |f.blocks| && i <= |f.blocks[b].insts|
    ensures TrueConstants(m, f, live, TableAt(LearnConst, map[], Unchanged, f, g, b, i))
    decreases b, i
  {
    hide KnownConst, Strict;
    if i > 0 {
      FoldTableTrue(m, f, g, live, b, i - 1);
      assert At(f, b, i - 1);
      var now := InstAt(g, b, i - 1);
      if now.LoadConst? && now.dest in live {
        FoldedInstKnown(m, f, live, b, i - 1, TableAt(LearnConst, map[], Unchanged, f, g, b, i - 1), now);
      }
    } else if b > 0 {
      FoldTableTrue(m, f, g, live, b - 1, |f.blocks[b - 1].insts|);
    }
  }

  lemma FoldingRewrites(m: Mode, f: Func, g: Func, live: iset<RegId>)
    requires Strict(f, live) && m.disciplined && FoldsConstants(m.overflowChecks, f, g)
    ensures Rewrites(m, f, g, live)
  {
    forall b: nat, i: nat | At(f, b, i)
      ensures Replaces(m, f, live, b, i, InstAt(g, b, i))
    {
      var inst, inst' := InstAt(f, b, i), InstAt(g, b, i);
      FoldTableTrue(m, f, g, live, b, i);
      if inst' != inst {
        FoldedInstStandsIn(m, f, live, b, i, TableAt(LearnConst, map[], Unchanged, f, g, b, i), inst');
      }
    }
  }

  lemma FoldedInstStandsIn(m: Mode, f: Func, live: iset<RegId>, b: nat, i: nat, known: Constants, inst': Inst)
    requires Strict(f, live) && At(f, b, i) && m.disciplined && TrueConstants(m, f, live, known)
    requires FoldInst(m.overflowChecks, known, InstAt(f, b, i)) == Some(inst') && inst' != InstAt(f, b, i)
    ensures StandsIn(m, f, live, b, i, InstAt(f, b, i), inst')
  {
    var inst := InstAt(f, b, i);
    match inst
    case Binary(_, op, l, r) =>
      assert l in Uses(inst) && r in Uses(inst);
      assert GoodUse(f, live, l, b, i) && GoodUse(f, live, r, b, i);
      FoldAgreesExactly(op, known[l], known[r], inst'.c);
    case Unary(_, op, s) =>
      assert s in Uses(inst);
      assert GoodUse(f, live, s, b, i);
      FoldUnopAgrees(m, op, known[s]);
  }

  /** The operands are known, and the operation faults on just these values. */
  ghost predicate FaultsOnKnown(m: Mode, f: Func, live: iset<RegId>, inst: Inst) {
    match inst
    case Binary(_, op, l, r) =>
      exists lc, rc ::
        KnownConst(m, f, live, l, lc) && KnownConst(m, f, live, r, rc) && Faults(m, op, ValueOf(lc), ValueOf(rc))
    case Unary(_, op, s) => exists c :: KnownConst(m, f, live, s, c) && FaultsUnary(m, op, ValueOf(c))
    case _ => false
  }

  // Folding stops only at an operation that every run that comes to it stops at, too.
  lemma FoldingStopsOnFault(m: Mode, f: Func, live: iset<RegId>)
    requires Strict(f, live) && m.disciplined && FoldingStops(m.overflowChecks, f)
    ensures exists b: nat, i: nat ::
              && At(f, b, i) && FaultsOnKnown(m, f, live, InstAt(f, b, i))
              && forall world, st :: Inv(m, f, live, b, i, st) ==> ExecInst(m, world, InstAt(f, b, i), st).Abort?
  {
    hide Inv, Strict;
    var g: Func, b: nat, i: nat :|
      && ScannedBefore(LearnConst, map[], Unchanged, Folder(m.overflowChecks), f, g, b, i) && At(f, b, i)
      && FoldInst(m.overflowChecks, TableAt(LearnConst, map[], Unchanged, f, g, b, i), InstAt(f, b, i)).None?;
    FoldTableTrue(m, f, g, live, b, i);
    StuckFaults(m, f, live, b, i, TableAt(LearnConst, map[], Unchanged, f, g, b, i));
  }

  lemma StuckFaults(m: Mode, f: Func, live: iset<RegId>, b: nat, i: nat, known: Constants)
    requires Strict(f, live) && At(f, b, i) && TrueConstants(m, f, live, known)
    requires FoldInst(m.overflowChecks, known, InstAt(f, b, i)).None?
    ensures FaultsOnKnown(m, f, live, InstAt(f, b, i))
    ensures forall world, st :: Inv(m, f, live, b, i, st) ==> ExecInst(m, world, InstAt(f, b, i), st).Abort?
  {
    hide Inv;
    var inst := InstAt(f, b, i);
    assert Evaluates(inst);
    match inst
    case Binary(_, op, l, r) =>
      assert l in Uses(inst) && r in Uses(inst);
      assert GoodUse(f, live, l, b, i) && GoodUse(f, live, r, b, i);
      assert Faults(m, op, ValueOf(known[l]), ValueOf(known[r]));
    case Unary(_, op, s) =>
      assert s in Uses(inst);
      assert GoodUse(f, live, s, b, i);
      FoldUnopAgrees(m, op, known[s]);
  }

  lemma FoldingImproves(m: Mode, f: Func, g: Func)
    requires m.disciplined && FoldsConstants(m.overflowChecks, f, g)
    ensures Improves(m, f, g)
  {
    forall live: iset<RegId> | Strict(f, live)
      ensures Strict(g, live) && RefinesFunc(m, f, g)
    {
      FoldingRewrites(m, f, g, live);
      RewritingIsSound(m, f, g, live);
    }
  }

  lemma FoldingKeepsForm(checks: bool, f: Func, g: Func)
    requires FoldsConstants(checks, f, g)
    ensures KeepsForm(f, g)
  {
    forall b: nat, i: nat | At(f, b, i)
      ensures InstAt(g, b, i) == InstAt(f, b, i)
              || (InstAt(g, b, i).LoadConst? && Dest(InstAt(f, b, i)) == Dest(InstAt(g, b, i)))
    {
      assert Folder(checks)(TableAt(LearnConst, map[], Unchanged, f, g, b, i), InstAt(f, b, i))
          == Some(InstAt(g, b, i));
    }
    SimplifyingKeepsForm(f, g);
  }

  method ConstantFolding(overflowChecks: bool, func: MirFunction) returns (panicked: bool)
    modifies func
    ensures panicked <==> FoldingStops(overflowChecks, old(func.Value()))
    ensures !panicked ==> FoldsConstants(overflowChecks, old(func.Value()), func.Value())
  {
    var changed, stuck := ScanInstructions(LearnConst, map[], Unchanged, Folder(overflowChecks), func);
    return stuck;
  }

  // ---------------------------------------------------------------- constant propagation

  function PropagateInst(known: Constants, inst: Inst): Option<Inst> {
    match inst
    case Copy(d, s) => Some(if s in known then LoadConst(d, known[s]) else inst)
    case _ => Some(inst)
  }

  ghost predicate PropagatesConstants(f: Func, g: Func) {
    Scanned(LearnConst, map[], Unchanged, PropagateInst, f, g)
  }

  lemma {:induction false} PropagationTableTrue(m: Mode, f: Func, g: Func, live: iset<RegId>, b: nat, i: nat)
    requires Strict(f, live) && PropagatesConstants(f, g)
    requires b < |f.blocks| && i <= |f.blocks[b].insts|
    ensures TrueConstants(m, f, live, TableAt(LearnConst, map[], Unchanged, f, g, b, i))
    decreases b, i
  {
    hide KnownConst, Strict;
    if i > 0 {
      PropagationTableTrue(m, f, g, live, b, i - 1);
      assert At(f, b, i - 1);
      var was, now := InstAt(f, b, i - 1), InstAt(g, b, i - 1);
      if now.LoadConst? && now.dest in live {
        if was.Copy? {
          CopyKnown(m, f, live, b, i - 1);
          CopyOfKnown(m, f, live, was.dest, was.src, now.c);
        } else {
          LoadedConstKnown(m, f, live, b, i - 1);
        }
      }
    } else if b > 0 {
      PropagationTableTrue(m, f, g, live, b - 1, |f.blocks[b - 1].insts|);
    }
  }

  lemma PropagationImproves(m: Mode, f: Func, g: Func)
    requires PropagatesConstants(f, g)
    ensures Improves(m, f, g)
  {
    forall live: iset<RegId> | Strict(f, live)
      ensures Strict(g, live) && RefinesFunc(m, f, g)
    {
      forall b: nat, i: nat | At(f, b, i)
        ensures Replaces(m, f, live, b, i, InstAt(g, b, i))
      {
        var inst, inst' := InstAt(f, b, i), InstAt(g, b, i);
        PropagationTableTrue(m, f, g, live, b, i);
        if inst' != inst && Matters(live, inst) {
          assert inst.src in Uses(inst);
          assert GoodUse(f, live, inst.src, b, i);
        }
      }
      RewritingIsSound(m, f, g, live);
    }
  }

  lemma PropagationKeepsForm(f: Func, g: Func)
    requires PropagatesConstants(f, g)
    ensures KeepsForm(f, g)
  {
    forall b: nat, i: nat | At(f, b, i)
      ensures InstAt(g, b, i) == InstAt(f, b, i)
              || (InstAt(g, b, i).LoadConst? && Dest(InstAt(f, b, i)) == Dest(InstAt(g, b, i)))
    {
      assert PropagateInst(TableAt(LearnConst, map[], Unchanged, f, g, b, i), InstAt(f, b, i)) == Some(InstAt(g, b, i));
    }
    SimplifyingKeepsForm(f, g);
  }

  method ConstantPropagation(func: MirFunction)
    modifies func
    ensures PropagatesConstants(old(func.Value()), func.Value())
  {
    var changed, stuck := ScanInstructions(LearnConst, map[], Unchanged, PropagateInst, func);
  }

  // ---------------------------------------------------------------- common subexpressions

  function BinOpDiscriminant(op: BinOp): nat {
    match op
    case Add => 0 case Sub => 1 case Mul => 2 case Div => 3 case Mod => 4 case Pow => 5
    case Eq => 6 case NotEq => 7 case Lt => 8 case Gt => 9 case LtEq => 10 case GtEq => 11
    case Cmp => 12 case And => 13 case Or => 14 case BitAnd => 15 case BitOr => 16 case BitXor => 17
    case Shl => 18 case Shr => 19
  }

  type Seen = map<(nat, RegId, RegId), RegId>

  function Key(inst: Inst): (nat, RegId, RegId)
    requires inst.Binary?
  {
    (BinOpDiscriminant(inst.op), inst.left, inst.right)
  }

  function ReuseInst(seen: Seen, inst: Inst): Option<Inst> {
    if inst.Binary? && Key(inst) in seen then Some(Copy(inst.dest, seen[Key(inst)])) else Some(inst)
  }

  function LearnBinary(seen: Seen, was: Inst, now: Inst): Seen {
    if now.Binary? then seen[Key(now) := now.dest] else seen
  }

  ghost predicate ReusesResults(f: Func, g: Func) {
    Scanned(LearnBinary, map[], Unchanged, ReuseInst, f, g)
  }

  // An entry of the table comes from an earlier operation that was left alone.
  lemma {:induction false} SeenSource(f: Func, g: Func, b: nat, i: nat, inst: Inst) returns (c: nat, j: nat)
    requires ReusesResults(f, g) && b < |f.blocks| && i <= |f.blocks[b].insts| && inst.Binary?
    requires Key(inst) in TableAt(LearnBinary, map[], Unchanged, f, g, b, i)
    ensures At(f, c, j) && Before(c, j, b, i) && InstAt(g, c, j) == InstAt(f, c, j)
    ensures SameOperation(InstAt(f, c, j), inst)
    ensures TableAt(LearnBinary, map[], Unchanged, f, g, b, i)[Key(inst)] == InstAt(f, c, j).dest
    decreases b, i
  {
    if i > 0 {
      assert At(f, b, i - 1);
      var now := InstAt(g, b, i - 1);
      if now.Binary? && Key(now) == Key(inst) {
        c, j := b, i - 1;
      } else {
        c, j := SeenSource(f, g, b, i - 1, inst);
      }
    } else {
      c, j := SeenSource(f, g, b - 1, |f.blocks[b - 1].insts|, inst);
    }
  }

  lemma ReuseStandsIn(m: Mode, f: Func, g: Func, live: iset<RegId>, b: nat, i: nat)
    requires Strict(f, live) && ReusesResults(f, g) && At(f, b, i) && InstAt(g, b, i) != InstAt(f, b, i)
    requires Available(f, InstAt(g, b, i).src, b, i)
    ensures StandsIn(m, f, live, b, i, InstAt(f, b, i), InstAt(g, b, i))
  {
    var inst, inst' := InstAt(f, b, i), InstAt(g, b, i);
    var c, j := SeenSource(f, g, b, i, inst);
    var first := InstAt(f, c, j);
    assert first.dest in live;
    assert Def(f, first.dest, c, j);
    forall world: World, st | Inv(m, f, live, b, i, st)
      ensures RefinesExec(ExecInst(m, world, inst, st), ExecInst(m, world, inst', st))
    {
      assert Equation(m, first, st.regs);
    }
  }

  // Wherever the result is in strict form, the pass keeps every run ...
  lemma ReuseIsSound(m: Mode, f: Func, g: Func, live: iset<RegId>)
    requires Strict(f, live) && ReusesResults(f, g) && Strict(g, live)
    ensures RefinesFunc(m, f, g)
  {
    ReuseKeepsStrictExactly(f, g, live);
    forall b: nat, i: nat | At(f, b, i)
      ensures Replaces(m, f, live, b, i, InstAt(g, b, i))
    {
      if InstAt(g, b, i) != InstAt(f, b, i) {
        ReuseStandsIn(m, f, g, live, b, i);
      }
    }
    RewritingIsSound(m, f, g, live);
  }

  // ... and it is if of two equal operations the first is available at the second.
  lemma ReuseImproves(m: Mode, f: Func, g: Func)
    requires ReusesResults(f, g) && RepeatsDominated(f)
    ensures Improves(m, f, g)
  {
    forall live: iset<RegId> | Strict(f, live)
      ensures Strict(g, live) && RefinesFunc(m, f, g)
    {
      forall b: nat, i: nat | At(f, b, i) && InstAt(g, b, i) != InstAt(f, b, i)
        ensures Available(f, InstAt(g, b, i).src, b, i)
      {
        var c, j := SeenSource(f, g, b, i, InstAt(f, b, i));
      }
      ReuseOfAvailableKeepsStrict(f, g, live);
      ReuseIsSound(m, f, g, live);
    }
  }

  // Dominance of the first operation is exactly what keeps the result in strict form.
  lemma ReuseKeepsStrictExactly(f: Func, g: Func, live: iset<RegId>)
    requires Strict(f, live) && ReusesResults(f, g)
    ensures Strict(g, live)
            <==> forall b: nat, i: nat :: At(f, b, i) && InstAt(g, b, i) != InstAt(f, b, i)
                   ==> Available(f, InstAt(g, b, i).src, b, i)
  {
    if Strict(g, live) {
      forall b: nat, i: nat | At(f, b, i) && InstAt(g, b, i) != InstAt(f, b, i)
        ensures Available(f, InstAt(g, b, i).src, b, i)
      {
        var copy := InstAt(g, b, i);
        assert Evaluates(InstAt(f, b, i)) && copy.src in Uses(copy) && Matters(live, copy);
        assert GoodUse(g, live, copy.src, b, i);
        SameAvailable(f, g, copy.src, b, i);
      }
    }
    if forall b: nat, i: nat :: At(f, b, i) && InstAt(g, b, i) != InstAt(f, b, i)
         ==> Available(f, InstAt(g, b, i).src, b, i) {
      ReuseOfAvailableKeepsStrict(f, g, live);
    }
  }

  lemma ReuseOfAvailableKeepsStrict(f: Func, g: Func, live: iset<RegId>)
    requires Strict(f, live) && ReusesResults(f, g)
    requires forall b: nat, i: nat :: At(f, b, i) && InstAt(g, b, i) != InstAt(f, b, i)
               ==> Available(f, InstAt(g, b, i).src, b, i)
    ensures Strict(g, live)
  {
    assert forall r, b: nat, i: nat :: Def(g, r, b, i) ==> Def(f, r, b, i);
    forall b: nat, i: nat, r | At(g, b, i) && Matters(live, InstAt(g, b, i)) && r in Uses(InstAt(g, b, i))
      ensures GoodUse(g, live, r, b, i)
    {
      assert At(f, b, i);
      if InstAt(g, b, i) != InstAt(f, b, i) {
        var c, j := SeenSource(f, g, b, i, InstAt(f, b, i));
      }
      assert GoodUse(f, live, r, b, i);
      SameAvailable(f, g, r, b, i);
    }
    forall b: nat, i: nat | At(g, b, i) && Evaluates(InstAt(g, b, i))
      ensures InstAt(g, b, i).dest in live
    {
      assert At(f, b, i);
    }
    forall b: nat, r | b < |g.blocks| && r in TermUses(g.blocks[b].term)
      ensures GoodUse(g, live, r, b, |g.blocks[b].insts|)
    {
      assert GoodUse(f, live, r, b, |f.blocks[b].insts|);
      SameAvailable(f, g, r, b, |f.blocks[b].insts|);
    }
  }

  lemma ReuseKeepsForm(f: Func, g: Func)
    requires ReusesResults(f, g)
    ensures KeepsForm(f, g)
  {
    forall b: nat, i: nat | At(f, b, i)
      ensures InstAt(g, b, i) == InstAt(f, b, i)
              || (InstAt(g, b, i).Copy? && Dest(InstAt(f, b, i)) == Dest(InstAt(g, b, i)))
    {
      assert ReuseInst(TableAt(LearnBinary, map[], Unchanged, f, g, b, i), InstAt(f, b, i)) == Some(InstAt(g, b, i));
    }
    SimplifyingKeepsForm(f, g);
  }

  method CommonSubexpressionElimination(func: MirFunction)
    modifies func
    ensures ReusesResults(old(func.Value()), func.Value())
  {
    var changed, stuck := ScanInstructions(LearnBinary, map[], Unchanged, ReuseInst, func);
  }
}
