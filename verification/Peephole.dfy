/** The peephole passes: what each one does, and what it is worth. */
module Peephole {
  import opened Ints
  import opened Options
  import opened Mir
  import opened Ssa
  import opened Rewriting
  import opened Scan
  import opened Improvement
  import opened RewritingPasses
  import opened Fusion
  import opened Chains
  import opened CopyFusion

  // ---------------------------------------------------------------- copy chains

  function ShortenCopy(chain: Chain, inst: Inst): Option<Inst> {
    match inst
    case Copy(d, s) => Some(if s in chain && chain[s] != s then Copy(d, chain[s]) else inst)
    case _ => Some(inst)
  }

  /** The copies of the whole function. */
  ghost function AllCopies(f: Func): Chain {
    Entering<Chain>(LinkCopy, NoCopies(), Unchanged, f, f, |f.blocks|)
  }

  ghost predicate ShortensCopies(f: Func, g: Func) {
    && SameShape(f, g)
    && forall b: nat, i: nat :: At(f, b, i) ==> ShortenCopy(AllCopies(f), InstAt(f, b, i)) == Some(InstAt(g, b, i))
  }

  lemma ShorteningImproves(m: Mode, f: Func, g: Func)
    requires ShortensCopies(f, g)
    ensures Improves(m, f, g)
  {
    forall live: iset<RegId> | Strict(f, live)
      ensures Strict(g, live) && RefinesFunc(m, f, g)
    {
      if f.blocks != [] {
        ChainTrue(m, f, f, live, |f.blocks| - 1, |f.blocks[|f.blocks| - 1].insts|);
      }
      forall b: nat, i: nat | At(f, b, i)
        ensures Replaces(m, f, live, b, i, InstAt(g, b, i))
      {
        var inst := InstAt(f, b, i);
        if InstAt(g, b, i) != inst && Matters(live, inst) {
          assert inst.src in Uses(inst);
          ResolvedGood(m, f, live, AllCopies(f), inst.src, b, i);
        }
      }
      RewritingIsSound(m, f, g, live);
    }
  }

  function KeepTable(chain: Chain, was: Inst, now: Inst): Chain {
    chain
  }

  lemma {:induction false} TableKept(chain: Chain, f: Func, g: Func, b: nat, i: nat)
    requires SameShape(f, g) && b < |f.blocks| && i <= |f.blocks[b].insts|
    ensures TableAt<Chain>(KeepTable, chain, Unchanged, f, g, b, i) == chain
    decreases b, i
  {
    if i > 0 {
      TableKept(chain, f, g, b, i - 1);
    } else if b > 0 {
      TableKept(chain, f, g, b - 1, |f.blocks[b - 1].insts|);
    }
  }

  method EliminateCopyChains(func: MirFunction) returns (changed: bool)
    modifies func
    ensures ShortensCopies(old(func.Value()), func.Value())
    ensures changed <==> func.Value() != old(func.Value())
  {
    ghost var f := func.Value();
    var chain: Chain := NoCopies();
    for b := 0 to |func.blocks|
      invariant chain == Entering<Chain>(LinkCopy, NoCopies(), Unchanged, f, f, b)
    {
      for i := 0 to |func.blocks[b].insts|
        invariant chain == TableAt<Chain>(LinkCopy, NoCopies(), Unchanged, f, f, b, i)
      {
        chain := LinkCopy(chain, func.blocks[b].insts[i], func.blocks[b].insts[i]);
      }
    }
    var stuck;
    changed, stuck := ScanInstructions<Chain>(KeepTable, chain, Unchanged, ShortenCopy, func);
    forall b: nat, i: nat | At(f, b, i)
      ensures ShortenCopy(chain, InstAt(f, b, i)) == Some(InstAt(func.Value(), b, i))
    {
      TableKept(chain, f, func.Value(), b, i);
    }
  }

  // ---------------------------------------------------------------- loads after stores

  type StoreTable = map<string, RegId>

  function ForwardStore(stores: StoreTable, inst: Inst): Option<Inst> {
    match inst
    case Load(d, name) => Some(if name in stores then Copy(d, stores[name]) else inst)
    case _ => Some(inst)
  }

  function LearnStore(stores: StoreTable, was: Inst, now: Inst): StoreTable {
    match was
    case Store(name, s) => stores[name := s]
    case Call(_, _, _) => map[]
    case MethodCall(_, _, _, _, _) => map[]
    case _ => stores
  }

  /** Every block starts afresh. */
  function Forget(stores: StoreTable): StoreTable {
    map[]
  }

  ghost predicate ForwardsStores(f: Func, g: Func) {
    Scanned(LearnStore, map[], Forget, ForwardStore, f, g)
  }

  lemma {:induction false} StoreTableIsLastStores(was: seq<Inst>, now: seq<Inst>, i: nat)
    requires i <= |was| && |was| == |now|
    ensures After(LearnStore, was, now, i, map[]) == LastStores(was, i)
  {
    if i > 0 {
      StoreTableIsLastStores(was, now, i - 1);
    }
  }

  predicate StaysOrCopies(was: Inst, now: Inst) {
    now == was || (now.Copy? && (was.Copy? || was.Load? || was.Binary?))
  }

  /** Instructions have stayed, or copies, loads and operations become copies. */
  ghost predicate BecomeCopies(f: Func, g: Func) {
    SameShape(f, g) && forall b: nat, i: nat :: At(f, b, i) ==> StaysOrCopies(InstAt(f, b, i), InstAt(g, b, i))
  }

  /** What a load finds is what was stored last in its block, if anything was. */
  ghost predicate StoresReadBack(m: Mode, f: Func) {
    forall b: nat, i: nat ::
      At(f, b, i) && InstAt(f, b, i).Load? && InstAt(f, b, i).name in LastStores(f.blocks[b].insts, i)
      ==> Remembered(m, f.blocks[b].insts, i, InstAt(f, b, i).name)
  }

  // Forwarding a store to a load keeps every run of a strict function in which loads find what was stored.
  lemma ForwardingImproves(m: Mode, f: Func, g: Func)
    requires ForwardsStores(f, g) && StoresReadBack(m, f)
    ensures Improves(m, f, g)
  {
    forall live: iset<RegId> | Strict(f, live)
      ensures Strict(g, live) && RefinesFunc(m, f, g)
    {
      forall b: nat, i: nat | At(f, b, i)
        ensures Replaces(m, f, live, b, i, InstAt(g, b, i))
      {
        if InstAt(g, b, i) != InstAt(f, b, i) {
          ForwardedStandsIn(m, f, g, live, b, i);
        }
      }
      RewritingIsSound(m, f, g, live);
    }
  }

  lemma ForwardedStandsIn(m: Mode, f: Func, g: Func, live: iset<RegId>, b: nat, i: nat)
    requires Strict(f, live) && ForwardsStores(f, g) && StoresReadBack(m, f)
    requires At(f, b, i) && InstAt(g, b, i) != InstAt(f, b, i)
    ensures Replaces(m, f, live, b, i, InstAt(g, b, i))
  {
    hide Remembered;
    StoreTableIsLastStores(f.blocks[b].insts, g.blocks[b].insts, i);
    var j := LastStoreIsUsed(f.blocks[b].insts, i, InstAt(f, b, i).name);
    assert InstAt(f, b, j).src in Uses(InstAt(f, b, j)) && Matters(live, InstAt(f, b, j));
    assert GoodUse(f, live, InstAt(f, b, j).src, b, j);
    assert GoodUse(f, live, InstAt(f, b, j).src, b, i);
  }

  // ---------------------------------------------------------------- code in which loads find what was stored

  lemma {:induction false} CopiesKeepStores(m: Mode, was: seq<Inst>, now: seq<Inst>, i: nat, name: string)
    requires |was| == |now| && i <= |was|
    requires forall k :: 0 <= k < |was| ==> StaysOrCopies(was[k], now[k])
    ensures name in LastStores(was, i) <==> name in LastStores(now, i)
    ensures Remembered(m, was, i, name) <==> Remembered(m, now, i, name)
  {
    if i > 0 {
      CopiesKeepStores(m, was, now, i - 1, name);
    }
  }

  lemma CopiesKeepReadBack(m: Mode, f: Func, g: Func)
    requires BecomeCopies(f, g) && StoresReadBack(m, f)
    ensures StoresReadBack(m, g)
  {
    forall b: nat, i: nat |
      At(g, b, i) && InstAt(g, b, i).Load? && InstAt(g, b, i).name in LastStores(g.blocks[b].insts, i)
      ensures Remembered(m, g.blocks[b].insts, i, InstAt(g, b, i).name)
    {
      assert At(f, b, i) && InstAt(g, b, i) == InstAt(f, b, i);
      CopiesAt(f, g, b);
      CopiesKeepStores(m, f.blocks[b].insts, g.blocks[b].insts, i, InstAt(g, b, i).name);
    }
  }

  lemma CopiesAt(f: Func, g: Func, b: nat)
    requires BecomeCopies(f, g) && b < |f.blocks|
    ensures forall k :: 0 <= k < |f.blocks[b].insts| ==> StaysOrCopies(f.blocks[b].insts[k], g.blocks[b].insts[k])
  {
    forall k: nat | k < |f.blocks[b].insts|
      ensures StaysOrCopies(f.blocks[b].insts[k], g.blocks[b].insts[k])
    {
      assert At(f, b, k) && InstAt(f, b, k) == f.blocks[b].insts[k] && InstAt(g, b, k) == g.blocks[b].insts[k];
    }
  }

  lemma {:induction false} UnchangedThroughout(f: Func, b: nat, i: nat, name: string)
    requires BlockFree(f) && (IsIvarName(name) ==> SelfFirst(f))
    requires b < |f.blocks| && i <= |f.blocks[b].insts| && name in LastStores(f.blocks[b].insts, i)
    ensures UnchangedSince(f.blocks[b].insts, i, name)
  {
    var insts := f.blocks[b].insts;
    if !(insts[i - 1].Store? && insts[i - 1].name == name) {
      UnchangedThroughout(f, b, i - 1, name);
      var j := LastStoreOf(insts, i - 1, name);
      assert At(f, b, i - 1) && InstAt(f, b, i - 1) == insts[i - 1] && InstAt(f, b, j).Store?;
    }
  }

  lemma {:induction false} LastStoreOf(insts: seq<Inst>, i: nat, name: string) returns (j: nat)
    requires i <= |insts| && name in LastStores(insts, i)
    ensures j < i && insts[j].Store? && insts[j].name == name
  {
    if insts[i - 1].Store? && insts[i - 1].name == name {
      j := i - 1;
    } else {
      j := LastStoreOf(insts, i - 1, name);
    }
  }

  // Without block calls: if no instance variable is read, or all belong to the one object self.
  lemma OneSelfReadsBack(m: Mode, f: Func)
    requires BlockFree(f) && (LoadsNoIvar(f) || (m.objects && SelfFirst(f)))
    ensures StoresReadBack(m, f)
  {
    forall b: nat, i: nat |
      At(f, b, i) && InstAt(f, b, i).Load? && InstAt(f, b, i).name in LastStores(f.blocks[b].insts, i)
      ensures Remembered(m, f.blocks[b].insts, i, InstAt(f, b, i).name)
    {
      UnchangedThroughout(f, b, i, InstAt(f, b, i).name);
    }
  }

  method EliminateRedundantLoads(func: MirFunction) returns (changed: bool)
    modifies func
    ensures ForwardsStores(old(func.Value()), func.Value())
    ensures changed <==> func.Value() != old(func.Value())
  {
    var stuck;
    changed, stuck := ScanInstructions(LearnStore, map[], Forget, ForwardStore, func);
  }

  // ---------------------------------------------------------------- branches to the next block

  function CutTerm(f: Func, b: nat): Terminator
    requires b < |f.blocks|
  {
    var term := f.blocks[b].term;
    if term.Branch? && b + 1 < |f.blocks| && term.target == f.blocks[b + 1].lbl then Unreachable else term
  }

  ghost predicate CutsFallthroughs(f: Func, g: Func) {
    && f.params == g.params && |g.blocks| == |f.blocks|
    && forall b :: 0 <= b < |f.blocks| ==> g.blocks[b] == f.blocks[b].(term := CutTerm(f, b))
  }

  method EliminateDeadBranchesToFallthrough(func: MirFunction) returns (changed: bool)
    modifies func
    ensures CutsFallthroughs(old(func.Value()), func.Value())
    ensures changed <==> func.Value() != old(func.Value())
  {
    ghost var f := func.Value();
    var labels := seq(|func.blocks|, b requires 0 <= b < |func.blocks| reads func => func.blocks[b].lbl);
    changed := false;
    for b := 0 to |func.blocks|
      invariant |func.blocks| == |f.blocks| == |labels|
      invariant forall c :: 0 <= c < b ==> func.blocks[c] == f.blocks[c].(term := CutTerm(f, c))
      invariant forall c :: b <= c < |f.blocks| ==> func.blocks[c] == f.blocks[c]
      invariant changed <==> exists c :: 0 <= c < b && func.blocks[c] != f.blocks[c]
    {
      var term := func.blocks[b].term;
      if term.Branch? && b + 1 < |func.blocks| && term.target == labels[b + 1] {
        func.blocks := func.blocks[b := func.blocks[b].(term := Unreachable)];
        changed := true;
      }
    }
  }

  // ---------------------------------------------------------------- identities

  predicate IsIdentityConst(op: BinOp, c: Const) {
    match op
    case Add => c == ConstInteger(0)
    case Sub => c == ConstInteger(0)
    case Mul => c == ConstInteger(1)
    case Div => c == ConstInteger(1)
    case _ => false
  }

  function SimplifyIdentity(known: Constants, inst: Inst): Option<Inst> {
    match inst
    case Binary(d, op, l, r) => Some(if r in known && IsIdentityConst(op, known[r]) then Copy(d, l) else inst)
    case _ => Some(inst)
  }

  ghost predicate SimplifiesIdentities(f: Func, g: Func) {
    Scanned(LearnLoaded, map[], Unchanged, SimplifyIdentity, f, g)
  }

  // The left operand is the result exactly when it is an integer or nil.
  lemma IdentityExactly(op: BinOp, l: Value, c: Const)
    requires IsIdentityConst(op, c)
    ensures EvalBinary(op, l, ValueOf(c)) == l <==> l.Integer? || l.Nil?
    ensures IdentityOnOther(op, l, ValueOf(c)) <==> !(l.Integer? || l.Nil?)
  {
    if l.Integer? {
      QuotientByOne(l.i);
    }
  }

  lemma IdentitiesImprove(m: Mode, f: Func, g: Func)
    requires SimplifiesIdentities(f, g) && m.identities
    ensures Improves(m, f, g)
  {
    forall live: iset<RegId> | Strict(f, live)
      ensures Strict(g, live) && RefinesFunc(m, f, g)
    {
      forall b: nat, i: nat | At(f, b, i)
        ensures Replaces(m, f, live, b, i, InstAt(g, b, i))
      {
        if InstAt(g, b, i) != InstAt(f, b, i) {
          IdentityStandsIn(m, f, g, live, b, i);
        }
      }
      RewritingIsSound(m, f, g, live);
    }
  }

  lemma IdentityStandsIn(m: Mode, f: Func, g: Func, live: iset<RegId>, b: nat, i: nat)
    requires Strict(f, live) && SimplifiesIdentities(f, g) && m.identities
    requires At(f, b, i) && InstAt(g, b, i) != InstAt(f, b, i)
    ensures StandsIn(m, f, live, b, i, InstAt(f, b, i), InstAt(g, b, i))
  {
    var inst, inst' := InstAt(f, b, i), InstAt(g, b, i);
    var known := TableAt(LearnLoaded, map[], Unchanged, f, g, b, i);
    LoadedTableTrue(m, f, g, live, b, i);
    assert inst.left in Uses(inst) && inst.right in Uses(inst);
    assert GoodUse(f, live, inst.left, b, i) && GoodUse(f, live, inst.right, b, i);
    forall world: World, st | Inv(m, f, live, b, i, st)
      ensures RefinesExec(ExecInst(m, world, inst, st), ExecInst(m, world, inst', st))
    {
      IdentityExactly(inst.op, Get(st.regs, inst.left), known[inst.right]);
    }
  }

  method SimplifyIdentityOps(func: MirFunction) returns (changed: bool)
    modifies func
    ensures SimplifiesIdentities(old(func.Value()), func.Value())
    ensures changed <==> func.Value() != old(func.Value())
  {
    var stuck;
    changed, stuck := ScanInstructions(LearnLoaded, map[], Unchanged, SimplifyIdentity, func);
  }
}
