/** Rewriting through copy chains: the fusion pass, and the peephole pass. */
module CopyFusion {
  import opened Options
  import opened Mir
  import opened Ssa
  import opened Rewriting
  import opened Scan
  import opened Chains

  function Resolve(chain: CopyMap, r: RegId): RegId {
    if r in chain then chain[r] else r
  }

  function ResolveAll(chain: CopyMap, rs: seq<RegId>): (out: seq<RegId>)
    ensures |out| == |rs| && forall k :: 0 <= k < |rs| ==> out[k] == Resolve(chain, rs[k])
  {
    seq(|rs|, k requires 0 <= k < |rs| => Resolve(chain, rs[k]))
  }

  // ---------------------------------------------------------------- fusion: roots at the uses

  function FuseCopy(chain: Chain, inst: Inst): Option<Inst> {
    match inst
    case Copy(d, s) => Some(Copy(d, Root(chain, s)))
    case Binary(d, op, l, r) => Some(Binary(d, op, Resolve(chain, l), Resolve(chain, r)))
    case MethodCall(d, recv, name, args, block) =>
      Some(MethodCall(d, Resolve(chain, recv), name, ResolveAll(chain, args), block))
    case _ => Some(inst)
  }

  ghost predicate FusesCopies(f: Func, g: Func) {
    Scanned<Chain>(LinkCopy, NoCopies(), Unchanged, FuseCopy, f, g)
  }

  // In single-definition form the table is true at every point of the scan.
  lemma {:induction false} ChainTrue(m: Mode, f: Func, g: Func, live: iset<RegId>, b: nat, i: nat)
    requires Strict(f, live) && SameShape(f, g) && b < |f.blocks| && i <= |f.blocks[b].insts|
    ensures TrueCopies(m, f, live, TableAt<Chain>(LinkCopy, NoCopies(), Unchanged, f, g, b, i))
    decreases b, i
  {
    if i > 0 {
      ChainTrue(m, f, g, live, b, i - 1);
      assert At(f, b, i - 1);
      LinkKnown(m, f, live, TableAt<Chain>(LinkCopy, NoCopies(), Unchanged, f, g, b, i - 1), b, i - 1,
                InstAt(g, b, i - 1));
    } else if b > 0 {
      ChainTrue(m, f, g, live, b - 1, |f.blocks[b - 1].insts|);
    }
  }

  lemma ResolvedGood(m: Mode, f: Func, live: iset<RegId>, chain: CopyMap, r: RegId, b: nat, i: nat)
    requires TrueCopies(m, f, live, chain) && GoodUse(f, live, r, b, i)
    ensures GoodUse(f, live, Resolve(chain, r), b, i)
    ensures forall st :: Inv(m, f, live, b, i, st) ==> Get(st.regs, Resolve(chain, r)) == Get(st.regs, r)
  {
  }

  lemma FusedCopyStandsIn(m: Mode, f: Func, live: iset<RegId>, b: nat, i: nat, chain: Chain)
    requires Strict(f, live) && At(f, b, i) && TrueCopies(m, f, live, chain) && Matters(live, InstAt(f, b, i))
    ensures StandsIn(m, f, live, b, i, InstAt(f, b, i), FuseCopy(chain, InstAt(f, b, i)).value)
  {
    var inst := InstAt(f, b, i);
    assert forall u :: u in Uses(inst) ==> GoodUse(f, live, u, b, i);
    match inst
    case Copy(d, s) =>
      assert s in Uses(inst);
      RootKnown(m, f, live, chain, s);
    case Binary(d, op, l, r) =>
      ResolvedGood(m, f, live, chain, l, b, i);
      ResolvedGood(m, f, live, chain, r, b, i);
    case MethodCall(_, _, _, _, _) => FusedCallStandsIn(m, f, live, b, i, chain);
    case _ =>
  }

  lemma FusedCallStandsIn(m: Mode, f: Func, live: iset<RegId>, b: nat, i: nat, chain: Chain)
    requires Strict(f, live) && At(f, b, i) && InstAt(f, b, i).MethodCall? && TrueCopies(m, f, live, chain)
    ensures StandsIn(m, f, live, b, i, InstAt(f, b, i), FuseCopy(chain, InstAt(f, b, i)).value)
  {
    hide EvalBinary, EvalUnary, Faults, FaultsUnary;
    var inst := InstAt(f, b, i);
    assert forall u :: u in Uses(inst) ==> GoodUse(f, live, u, b, i);
    match inst
    case MethodCall(d, recv, name, args, block) =>
      ResolvedGood(m, f, live, chain, recv, b, i);
      forall k | 0 <= k < |args|
        ensures GoodUse(f, live, Resolve(chain, args[k]), b, i)
        ensures forall st ::
                  Inv(m, f, live, b, i, st) ==> Get(st.regs, Resolve(chain, args[k])) == Get(st.regs, args[k])
      {
        assert args[k] in Uses(inst);
        ResolvedGood(m, f, live, chain, args[k], b, i);
      }
      assert forall st :: Inv(m, f, live, b, i, st) ==>
          GetAll(st.regs, ResolveAll(chain, args)) == GetAll(st.regs, args);
  }

  // Reading the root at the use gives the value the copy held, loops included.
  lemma CopyFusionIsSound(m: Mode, f: Func, g: Func, live: iset<RegId>)
    requires Strict(f, live) && FusesCopies(f, g)
    ensures Strict(g, live) && RefinesFunc(m, f, g)
  {
    forall b: nat, i: nat | At(f, b, i)
      ensures Replaces(m, f, live, b, i, InstAt(g, b, i))
    {
      ChainTrue(m, f, g, live, b, i);
      if Matters(live, InstAt(f, b, i)) {
        FusedCopyStandsIn(m, f, live, b, i, TableAt<Chain>(LinkCopy, NoCopies(), Unchanged, f, g, b, i));
      }
    }
    RewritingIsSound(m, f, g, live);
  }

  method FuseCopyChains(func: MirFunction)
    modifies func
    ensures FusesCopies(old(func.Value()), func.Value())
  {
    var changed, stuck := ScanInstructions<Chain>(LinkCopy, NoCopies(), Unchanged, FuseCopy, func);
  }
}
