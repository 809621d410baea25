/** Instruction fusion, which runs before the optimizer: constants, string concatenation, copy chains. */
module Fusion {
  import opened Ints
  import opened Options
  import opened Mir
  import opened Ssa
  import opened Facts
  import opened Rewriting
  import opened Scan
  import opened Folding
  import opened Improvement
  import opened RewritingPasses

  // ---------------------------------------------------------------- integer arithmetic

  function FoldIntegerOp(op: BinOp, a: Int64, b: Int64): (fold: Fold)
    ensures fold.Panics? <==> DivisionOverflows(op, a, b)
  {
    match op
    case Cmp => Folded(ConstInteger(if a < b then -1 else if a > b then 1 else 0))
    case Shl => Unfolded
    case Shr => Unfolded
    case _ => FoldIntegers(op, a, b)
  }

  // Unlike the later folder, this one agrees with the interpreter on all it folds.
  lemma FoldIntegerOpAgrees(op: BinOp, a: Int64, b: Int64, c: Const)
    requires FoldIntegerOp(op, a, b) == Folded(c)
    ensures EvalBinary(op, Integer(a), Integer(b)) == ValueOf(c)
  {
  }

  /** The constants known, and the results folded so far in the present block. */
  datatype IntegerTable = IntegerTable(known: Constants, folded: set<RegId>)

  function FuseIntegers(t: IntegerTable, inst: Inst): Option<Inst> {
    match inst
    case Binary(d, op, l, r) =>
      if l in t.known && t.known[l].ConstInteger? && r in t.known && t.known[r].ConstInteger?
      then Replacement(d, inst, FoldIntegerOp(op, t.known[l].i, t.known[r].i))
      else Some(inst)
    case _ => Some(inst)
  }

  function LearnInteger(t: IntegerTable, was: Inst, now: Inst): IntegerTable {
    if was.LoadConst? then t.(known := t.known[was.dest := was.c])
    else if was.Binary? && now != was then t.(folded := t.folded + {was.dest})
    else t
  }

  /** When a block is done, the results folded in it are recorded as 0, whatever they are. */
  function RecordPlaceholders(t: IntegerTable): IntegerTable {
    IntegerTable(t.known + map r | r in t.folded :: ConstInteger(0), {})
  }

  const NO_INTEGERS := IntegerTable(map[], {})

  ghost predicate FusesIntegers(f: Func, g: Func) {
    Scanned(LearnInteger, NO_INTEGERS, RecordPlaceholders, FuseIntegers, f, g)
  }

  /** Fusion comes to a division of the least integer by -1. */
  ghost predicate IntegerFusionStops(f: Func) {
    GetsStuck(LearnInteger, NO_INTEGERS, RecordPlaceholders, FuseIntegers, f)
  }

  /** No operation takes the result of an operation in an earlier block. */
  ghost predicate OperandsLocal(f: Func) {
    forall b: nat, i: nat, c: nat, j: nat, r ::
      At(f, b, i) && InstAt(f, b, i).Binary? && r in Uses(InstAt(f, b, i)) && Def(f, r, c, j) && c < b
      ==> !InstAt(f, c, j).Binary?
  }

  predicate IsFolded(f: Func, g: Func, b: nat, i: nat) {
    At(f, b, i) && At(g, b, i) && InstAt(f, b, i).Binary? && InstAt(g, b, i) != InstAt(f, b, i)
  }

  /** No operation is folded that takes a result folded in an earlier block. */
  ghost predicate PlaceholdersUnused(f: Func, g: Func) {
    forall b: nat, i: nat, c: nat, j: nat, r ::
      IsFolded(f, g, b, i) && r in Uses(InstAt(f, b, i)) && Def(f, r, c, j) && c < b ==> !IsFolded(f, g, c, j)
  }

  lemma LocalOperandsUseNoPlaceholders(f: Func, g: Func)
    requires OperandsLocal(f)
    ensures PlaceholdersUnused(f, g)
  {
  }

  /** Entries are true, or belong to an operation folded in an earlier block; folded results to this block. */
  ghost predicate TrueIntegers(m: Mode, f: Func, g: Func, live: iset<RegId>, b: nat, t: IntegerTable) {
    && (forall r :: r in t.known && r in live ==> KnownConst(m, f, live, r, t.known[r]) || FoldedBefore(f, g, r, b))
    && (forall r :: r in t.folded ==> exists j: nat :: Def(f, r, b, j) && IsFolded(f, g, b, j))
  }

  ghost predicate FoldedBefore(f: Func, g: Func, r: RegId, b: nat) {
    exists c: nat, j: nat :: c < b && Def(f, r, c, j) && IsFolded(f, g, c, j)
  }

  lemma PlaceholdersBelongToEarlierBlocks(m: Mode, f: Func, g: Func, live: iset<RegId>, b: nat, t: IntegerTable)
    requires TrueIntegers(m, f, g, live, b, t)
    ensures TrueIntegers(m, f, g, live, b + 1, RecordPlaceholders(t))
  {
  }

  lemma {:induction false} IntegerTableTrue(m: Mode, f: Func, g: Func, live: iset<RegId>, b: nat, i: nat)
    requires Strict(f, live) && FusesIntegers(f, g)
    requires b < |f.blocks| && i <= |f.blocks[b].insts|
    ensures TrueIntegers(m, f, g, live, b, TableAt(LearnInteger, NO_INTEGERS, RecordPlaceholders, f, g, b, i))
    decreases b, i
  {
    hide KnownConst, FuseIntegers, Strict;
    if i > 0 {
      IntegerTableTrue(m, f, g, live, b, i - 1);
      assert At(f, b, i - 1);
      var was := InstAt(f, b, i - 1);
      if was.LoadConst? && was.dest in live {
        LoadedConstKnown(m, f, live, b, i - 1);
      }
      assert was.Binary? ==> Def(f, was.dest, b, i - 1);
      assert was.Binary? && InstAt(g, b, i - 1) != was ==> IsFolded(f, g, b, i - 1);
    } else if b > 0 {
      IntegerTableTrue(m, f, g, live, b - 1, |f.blocks[b - 1].insts|);
      PlaceholdersBelongToEarlierBlocks(m, f, g, live, b - 1,
        TableAt(LearnInteger, NO_INTEGERS, RecordPlaceholders, f, g, b - 1, |f.blocks[b - 1].insts|));
    }
  }

  lemma IntegerFusionImproves(m: Mode, f: Func, g: Func)
    requires FusesIntegers(f, g) && PlaceholdersUnused(f, g)
    ensures Improves(m, f, g)
  {
    forall live: iset<RegId> | Strict(f, live)
      ensures Strict(g, live) && RefinesFunc(m, f, g)
    {
      forall b: nat, i: nat | At(f, b, i)
        ensures Replaces(m, f, live, b, i, InstAt(g, b, i))
      {
        if InstAt(g, b, i) != InstAt(f, b, i) {
          FusedIntegersStandIn(m, f, g, live, b, i);
        }
      }
      RewritingIsSound(m, f, g, live);
    }
  }

  lemma FusedIntegersStandIn(m: Mode, f: Func, g: Func, live: iset<RegId>, b: nat, i: nat)
    requires Strict(f, live) && FusesIntegers(f, g) && PlaceholdersUnused(f, g)
    requires At(f, b, i) && InstAt(g, b, i) != InstAt(f, b, i)
    ensures StandsIn(m, f, live, b, i, InstAt(f, b, i), InstAt(g, b, i))
  {
    var inst := InstAt(f, b, i);
    var t := TableAt(LearnInteger, NO_INTEGERS, RecordPlaceholders, f, g, b, i);
    IntegerTableTrue(m, f, g, live, b, i);
    assert IsFolded(f, g, b, i);
    forall r | r in Uses(inst)
      ensures GoodUse(f, live, r, b, i) && KnownConst(m, f, live, r, t.known[r])
    {
      assert Matters(live, inst);
    }
    assert inst.left in Uses(inst) && inst.right in Uses(inst);
    FoldIntegerOpAgrees(inst.op, t.known[inst.left].i, t.known[inst.right].i, InstAt(g, b, i).c);
  }

  method FuseIntegerArithmetic(func: MirFunction) returns (panicked: bool)
    modifies func
    ensures panicked <==> IntegerFusionStops(old(func.Value()))
    ensures !panicked ==> FusesIntegers(old(func.Value()), func.Value())
  {
    var changed, stuck := ScanInstructions(LearnInteger, NO_INTEGERS, RecordPlaceholders, FuseIntegers, func);
    return stuck;
  }

  // ---------------------------------------------------------------- string concatenation

  function FuseStrings(known: Constants, inst: Inst): Option<Inst> {
    match inst
    case Binary(d, Add, l, r) =>
      if l in known && known[l].ConstString? && r in known && known[r].ConstString?
      then Some(LoadConst(d, ConstString(known[l].s + known[r].s)))
      else Some(inst)
    case _ => Some(inst)
  }

  function LearnLoaded(known: Constants, was: Inst, now: Inst): Constants {
    if was.LoadConst? then known[was.dest := was.c] else known
  }

  ghost predicate FusesStrings(f: Func, g: Func) {
    Scanned(LearnLoaded, map[], Unchanged, FuseStrings, f, g)
  }

  lemma {:induction false} LoadedTableTrue(m: Mode, f: Func, g: Func, live: iset<RegId>, b: nat, i: nat)
    requires Strict(f, live) && SameShape(f, g) && b < |f.blocks| && i <= |f.blocks[b].insts|
    ensures TrueConstants(m, f, live, TableAt(LearnLoaded, map[], Unchanged, f, g, b, i))
    decreases b, i
  {
    if i > 0 {
      LoadedTableTrue(m, f, g, live, b, i - 1);
      assert At(f, b, i - 1);
      if InstAt(f, b, i - 1).LoadConst? && InstAt(f, b, i - 1).dest in live {
        LoadedConstKnown(m, f, live, b, i - 1);
      }
    } else if b > 0 {
      LoadedTableTrue(m, f, g, live, b - 1, |f.blocks[b - 1].insts|);
    }
  }

  lemma StringFusionImproves(m: Mode, f: Func, g: Func)
    requires FusesStrings(f, g)
    ensures Improves(m, f, g)
  {
    forall live: iset<RegId> | Strict(f, live)
      ensures Strict(g, live) && RefinesFunc(m, f, g)
    {
      forall b: nat, i: nat | At(f, b, i)
        ensures Replaces(m, f, live, b, i, InstAt(g, b, i))
      {
        var inst := InstAt(f, b, i);
        if InstAt(g, b, i) != inst {
          LoadedTableTrue(m, f, g, live, b, i);
          assert inst.left in Uses(inst) && inst.right in Uses(inst);
          assert GoodUse(f, live, inst.left, b, i) && GoodUse(f, live, inst.right, b, i);
        }
      }
      RewritingIsSound(m, f, g, live);
    }
  }

  method FuseStringConcatenation(func: MirFunction)
    modifies func
    ensures FusesStrings(old(func.Value()), func.Value())
  {
    var changed, stuck := ScanInstructions(LearnLoaded, map[], Unchanged, FuseStrings, func);
  }
}
