/** The peephole loop: repeat the four passes until nothing changes. It terminates, and what it reaches. */
module PeepholeLoop {
  import opened Options
  import opened Mir
  import opened Ssa
  import opened Rewriting
  import opened Scan
  import opened Chains
  import opened Improvement
  import opened Peephole

  // ---------------------------------------------------------------- sums over a function

  ghost function SumInsts(weight: Inst -> nat, insts: seq<Inst>, n: nat): nat
    requires n <= |insts|
  {
    if n == 0 then 0 else SumInsts(weight, insts, n - 1) + weight(insts[n - 1])
  }

  ghost function SumBlocks(weight: Inst -> nat, exit: Terminator -> nat, bs: seq<BasicBlock>, n: nat): nat
    requires n <= |bs|
  {
    if n == 0 then 0
    else SumBlocks(weight, exit, bs, n - 1)
         + SumInsts(weight, bs[n - 1].insts, |bs[n - 1].insts|) + exit(bs[n - 1].term)
  }

  ghost function Total(weight: Inst -> nat, exit: Terminator -> nat, f: Func): nat {
    SumBlocks(weight, exit, f.blocks, |f.blocks|)
  }

  ghost predicate Lighter(weight: Inst -> nat, exit: Terminator -> nat, f: Func, g: Func) {
    && |g.blocks| == |f.blocks|
    && (forall b :: 0 <= b < |f.blocks| ==> |g.blocks[b].insts| == |f.blocks[b].insts|)
    && (forall b: nat, i: nat :: At(f, b, i) ==> weight(InstAt(g, b, i)) <= weight(InstAt(f, b, i)))
    && (forall b :: 0 <= b < |f.blocks| ==> exit(g.blocks[b].term) <= exit(f.blocks[b].term))
  }

  ghost predicate StrictlyLighter(weight: Inst -> nat, exit: Terminator -> nat, f: Func, g: Func) {
    && Lighter(weight, exit, f, g)
    && (|| (exists b: nat, i: nat :: At(f, b, i) && weight(InstAt(g, b, i)) < weight(InstAt(f, b, i)))
        || (exists b :: 0 <= b < |f.blocks| && exit(g.blocks[b].term) < exit(f.blocks[b].term)))
  }

  lemma {:induction false} SumInstsLighter(weight: Inst -> nat, was: seq<Inst>, now: seq<Inst>, n: nat)
    requires n <= |was| == |now|
    requires forall i :: 0 <= i < n ==> weight(now[i]) <= weight(was[i])
    ensures SumInsts(weight, now, n) <= SumInsts(weight, was, n)
    ensures (exists i :: 0 <= i < n && weight(now[i]) < weight(was[i]))
            ==> SumInsts(weight, now, n) < SumInsts(weight, was, n)
  {
    if n > 0 {
      SumInstsLighter(weight, was, now, n - 1);
    }
  }

  lemma {:induction false} SumBlocksLighter(weight: Inst -> nat, exit: Terminator -> nat, f: Func, g: Func, n: nat)
    requires Lighter(weight, exit, f, g) && n <= |f.blocks|
    ensures SumBlocks(weight, exit, g.blocks, n) <= SumBlocks(weight, exit, f.blocks, n)
    ensures forall b: nat, i: nat :: b < n && At(f, b, i) && weight(InstAt(g, b, i)) < weight(InstAt(f, b, i))
              ==> SumBlocks(weight, exit, g.blocks, n) < SumBlocks(weight, exit, f.blocks, n)
    ensures forall b :: 0 <= b < n && exit(g.blocks[b].term) < exit(f.blocks[b].term)
              ==> SumBlocks(weight, exit, g.blocks, n) < SumBlocks(weight, exit, f.blocks, n)
  {
    if n > 0 {
      SumBlocksLighter(weight, exit, f, g, n - 1);
      var was, now := f.blocks[n - 1].insts, g.blocks[n - 1].insts;
      forall i | 0 <= i < |was|
        ensures weight(now[i]) <= weight(was[i])
      {
        assert At(f, n - 1, i) && InstAt(f, n - 1, i) == was[i] && InstAt(g, n - 1, i) == now[i];
      }
      SumInstsLighter(weight, was, now, |was|);
    }
  }

  lemma LighterTotal(weight: Inst -> nat, exit: Terminator -> nat, f: Func, g: Func)
    requires Lighter(weight, exit, f, g)
    ensures Total(weight, exit, g) <= Total(weight, exit, f)
    ensures StrictlyLighter(weight, exit, f, g) ==> Total(weight, exit, g) < Total(weight, exit, f)
  {
    SumBlocksLighter(weight, exit, f, g, |f.blocks|);
  }

  // ---------------------------------------------------------------- the measure

  /** Loads and operations can still become copies. */
  function Pending(inst: Inst): nat {
    if inst.Load? || inst.Binary? then 1 else 0
  }

  function PendingExit(term: Terminator): nat {
    if term.Branch? then 1 else 0
  }

  /** The registers that copies read. */
  ghost function Sources(f: Func): set<RegId> {
    set b, i | 0 <= b < |f.blocks| && 0 <= i < |f.blocks[b].insts| && f.blocks[b].insts[i].Copy?
      :: f.blocks[b].insts[i].src
  }

  /** When each entry of a copy map was last changed: it leads to a source that is a root, or is changed later. */
  ghost predicate Timed(chain: CopyMap, changed: map<RegId, nat>, sources: set<RegId>) {
    && changed.Keys == chain.Keys
    && forall r :: r in chain ==>
         chain[r] in sources && (IsRoot(chain, chain[r]) || changed[r] < changed[chain[r]])
  }

  lemma {:induction false} RootIsSource(chain: Chain, changed: map<RegId, nat>, sources: set<RegId>, r: RegId)
    requires Timed(chain, changed, sources) && r in sources
    ensures Root(chain, r) in sources
    decreases Depth(chain, r)
  {
    if !IsRoot(chain, r) {
      StepDecreasesDepth(chain, r);
      RootIsSource(chain, changed, sources, chain[r]);
    }
  }

  lemma LinkKeepsTimed(chain: Chain, changed: map<RegId, nat>, sources: set<RegId>, inst: Inst, now: nat)
    requires Timed(chain, changed, sources) && inst.Copy? && inst.src in sources
    requires forall r :: r in changed ==> changed[r] < now
    ensures Timed(LinkCopy(chain, inst, inst), changed[inst.dest := now], sources)
  {
    RootIsSource(chain, changed, sources, inst.src);
  }

  lemma {:induction false} ChainTimed(f: Func, b: nat, i: nat) returns (changed: map<RegId, nat>, now: nat)
    requires b < |f.blocks| && i <= |f.blocks[b].insts|
    ensures Timed(TableAt<Chain>(LinkCopy, NoCopies(), Unchanged, f, f, b, i), changed, Sources(f))
    ensures forall r :: r in changed ==> changed[r] < now
    decreases b, i
  {
    if i > 0 {
      changed, now := ChainTimed(f, b, i - 1);
      var inst := f.blocks[b].insts[i - 1];
      if inst.Copy? {
        var chain := TableAt<Chain>(LinkCopy, NoCopies(), Unchanged, f, f, b, i - 1);
        LinkKeepsTimed(chain, changed, Sources(f), inst, now);
        changed, now := changed[inst.dest := now], now + 1;
      }
    } else if b > 0 {
      changed, now := ChainTimed(f, b - 1, |f.blocks[b - 1].insts|);
    } else {
      changed, now := map[], 0;
    }
  }

  /** The source is replaced by another one. */
  predicate Moves(chain: CopyMap, r: RegId) {
    r in chain && chain[r] != r
  }

  // Of the sources that move there is one that was changed first.
  lemma {:induction false} FirstMoving(chain: CopyMap, changed: map<RegId, nat>, sources: set<RegId>, r: RegId)
    returns (first: RegId)
    requires Timed(chain, changed, sources) && r in sources && Moves(chain, r)
    ensures first in sources && Moves(chain, first)
    ensures forall u :: u in sources && Moves(chain, u) ==> changed[first] <= changed[u]
    decreases changed[r]
  {
    if u :| u in sources && Moves(chain, u) && changed[u] < changed[r] {
      first := FirstMoving(chain, changed, sources, u);
    } else {
      first := r;
    }
  }

  // ---------------------------------------------------------------- one pass

  lemma ChangeSomewhere(f: Func, g: Func) returns (b: nat, i: nat)
    requires SameShape(f, g) && g != f
    ensures At(f, b, i) && InstAt(g, b, i) != InstAt(f, b, i)
  {
    SameIfNowhereDifferent(f, g);
    b, i :| At(f, b, i) && Before(b, i, |f.blocks|, 0) && InstAt(g, b, i) != InstAt(f, b, i);
  }

  // Shortening invents no source, and of those that move the first one changed is lost: nothing moves to it.
  lemma ShorteningLosesSource(f: Func, g: Func)
    requires ShortensCopies(f, g)
    ensures Sources(g) <= Sources(f) && (g != f ==> Sources(g) != Sources(f))
  {
    if f.blocks != [] {
      var chain := AllCopies(f);
      var changed, now := ChainTimed(f, |f.blocks| - 1, |f.blocks[|f.blocks| - 1].insts|);
      forall r | r in Sources(g)
        ensures r in Sources(f)
      {
        var u := ShortenedFrom(f, g, r);
      }
      if g != f {
        var b, i := ChangeSomewhere(f, g);
        var first := FirstMoving(chain, changed, Sources(f), f.blocks[b].insts[i].src);
        if first in Sources(g) {
          var u := ShortenedFrom(f, g, first);
          assert false;
        }
      }
    }
  }

  lemma ShortenedFrom(f: Func, g: Func, r: RegId) returns (u: RegId)
    requires ShortensCopies(f, g) && r in Sources(g)
    ensures u in Sources(f) && r == if Moves(AllCopies(f), u) then AllCopies(f)[u] else u
  {
    var b, i :| 0 <= b < |g.blocks| && 0 <= i < |g.blocks[b].insts| && g.blocks[b].insts[i].Copy?
                && g.blocks[b].insts[i].src == r;
    assert At(f, b, i) && ShortenCopy(AllCopies(f), InstAt(f, b, i)) == Some(InstAt(g, b, i));
    u := f.blocks[b].insts[i].src;
  }

  lemma ShorteningDescends(f: Func, g: Func)
    requires ShortensCopies(f, g)
    ensures Total(Pending, PendingExit, g) <= Total(Pending, PendingExit, f)
    ensures Sources(g) <= Sources(f) && (g != f ==> Sources(g) != Sources(f))
  {
    ShorteningLosesSource(f, g);
    LighterTotal(Pending, PendingExit, f, g);
  }

  /** Some loads and operations have become copies. */
  ghost predicate PendingBecomeCopies(f: Func, g: Func) {
    && SameShape(f, g)
    && forall b: nat, i: nat :: At(f, b, i) ==>
         InstAt(g, b, i) == InstAt(f, b, i) || (Pending(InstAt(f, b, i)) == 1 && InstAt(g, b, i).Copy?)
  }

  lemma BecomingCopiesDescends(f: Func, g: Func)
    requires PendingBecomeCopies(f, g)
    ensures g != f ==> Total(Pending, PendingExit, g) < Total(Pending, PendingExit, f)
  {
    LighterTotal(Pending, PendingExit, f, g);
    if g != f {
      var b, i := ChangeSomewhere(f, g);
      assert Pending(InstAt(g, b, i)) < Pending(InstAt(f, b, i));
    }
  }

  lemma ForwardingDescends(f: Func, g: Func)
    requires ForwardsStores(f, g)
    ensures g != f ==> Total(Pending, PendingExit, g) < Total(Pending, PendingExit, f)
  {
    hide Total;
    assert PendingBecomeCopies(f, g);
    BecomingCopiesDescends(f, g);
  }

  lemma IdentitiesDescend(f: Func, g: Func)
    requires SimplifiesIdentities(f, g)
    ensures g != f ==> Total(Pending, PendingExit, g) < Total(Pending, PendingExit, f)
  {
    hide Total;
    assert PendingBecomeCopies(f, g);
    BecomingCopiesDescends(f, g);
  }

  lemma CuttingDescends(f: Func, g: Func)
    requires CutsFallthroughs(f, g)
    ensures g != f ==> Total(Pending, PendingExit, g) < Total(Pending, PendingExit, f)
  {
    assert forall b: nat, i: nat :: At(g, b, i) ==> At(f, b, i) && InstAt(g, b, i) == InstAt(f, b, i);
    LighterTotal(Pending, PendingExit, f, g);
    if g != f {
      assert g.blocks != f.blocks;
      var b :| 0 <= b < |f.blocks| && g.blocks[b] != f.blocks[b];
      assert PendingExit(g.blocks[b].term) < PendingExit(f.blocks[b].term);
    }
  }

  // ---------------------------------------------------------------- the loop

  /** No pass changes f any more. */
  ghost predicate Stable(f: Func) {
    ShortensCopies(f, f) && ForwardsStores(f, f) && CutsFallthroughs(f, f) && SimplifiesIdentities(f, f)
  }

  /** The four passes, once each. */
  ghost predicate Sweep(f: Func, g: Func) {
    exists shortened, forwarded, cut ::
      ShortensCopies(f, shortened) && ForwardsStores(shortened, forwarded)
      && CutsFallthroughs(forwarded, cut) && SimplifiesIdentities(cut, g)
  }

  ghost predicate Sweeps(n: nat, f: Func, g: Func) {
    if n == 0 then f == g
    else exists h :: Sweeps(n - 1, f, h) && Sweep(h, g)
  }

  // The loop terminates on every function.
  method OptimizeFunction(func: MirFunction) returns (ghost sweeps: nat)
    modifies func
    ensures Stable(func.Value()) && Sweeps(sweeps, old(func.Value()), func.Value())
  {
    hide Stable, Sweep, Total, Sources;
    var changed := true;
    sweeps := 0;
    while changed
      invariant Sweeps(sweeps, old(func.Value()), func.Value())
      invariant !changed ==> Stable(func.Value())
      decreases Total(Pending, PendingExit, func.Value()), Sources(func.Value()), changed
    {
      changed := false;
      ghost var f0 := func.Value();
      var c0 := EliminateCopyChains(func);
      ghost var f1 := func.Value();
      ShorteningDescends(f0, f1);
      var c1 := EliminateRedundantLoads(func);
      ghost var f2 := func.Value();
      ForwardingDescends(f1, f2);
      var c2 := EliminateDeadBranchesToFallthrough(func);
      ghost var f3 := func.Value();
      CuttingDescends(f2, f3);
      var c3 := SimplifyIdentityOps(func);
      IdentitiesDescend(f3, func.Value());
      changed := c0 || c1 || c2 || c3;
      SweepDone(f0, f1, f2, f3, func.Value());
      sweeps := sweeps + 1;
    }
  }

  lemma SweepDone(f0: Func, f1: Func, f2: Func, f3: Func, f4: Func)
    requires ShortensCopies(f0, f1) && ForwardsStores(f1, f2) && CutsFallthroughs(f2, f3)
    requires SimplifiesIdentities(f3, f4)
    ensures Sweep(f0, f4)
    ensures f0 == f1 == f2 == f3 == f4 ==> Stable(f4)
  {
  }

  // ---------------------------------------------------------------- what the loop is worth

  /** No block ends in a branch to the next block. */
  ghost predicate NothingToCut(f: Func) {
    forall b :: 0 <= b < |f.blocks| ==> CutTerm(f, b) == f.blocks[b].term
  }

  lemma SameShapeKeepsCuts(f: Func, g: Func)
    requires NothingToCut(f) && SameShape(f, g)
    ensures NothingToCut(g)
  {
  }

  lemma CuttingNothing(f: Func, g: Func)
    requires NothingToCut(f) && CutsFallthroughs(f, g)
    ensures f == g
  {
    assert f.blocks == g.blocks;
  }

  lemma SweepImproves(m: Mode, f: Func, g: Func)
    requires m.identities && NothingToCut(f) && StoresReadBack(m, f) && Sweep(f, g)
    ensures NothingToCut(g) && StoresReadBack(m, g) && Improves(m, f, g)
  {
    hide Improves;
    var shortened, forwarded, cut :|
      ShortensCopies(f, shortened) && ForwardsStores(shortened, forwarded)
      && CutsFallthroughs(forwarded, cut) && SimplifiesIdentities(cut, g);
    hide StoresReadBack;
    ShorteningImproves(m, f, shortened);
    ShorteningCopies(f, shortened);
    CopiesKeepReadBack(m, f, shortened);
    SameShapeKeepsCuts(f, shortened);
    ForwardingImproves(m, shortened, forwarded);
    ForwardingCopies(shortened, forwarded);
    CopiesKeepReadBack(m, shortened, forwarded);
    SameShapeKeepsCuts(shortened, forwarded);
    CuttingNothing(forwarded, cut);
    IdentitiesImprove(m, forwarded, g);
    IdentityCopies(forwarded, g);
    CopiesKeepReadBack(m, forwarded, g);
    SameShapeKeepsCuts(forwarded, g);
    ImprovesTransitive(m, f, shortened, forwarded);
    ImprovesTransitive(m, f, forwarded, g);
  }

  lemma ShorteningCopies(f: Func, g: Func)
    requires ShortensCopies(f, g)
    ensures BecomeCopies(f, g)
  {
  }

  lemma ForwardingCopies(f: Func, g: Func)
    requires ForwardsStores(f, g)
    ensures BecomeCopies(f, g)
  {
    forall b: nat, i: nat | At(f, b, i)
      ensures StaysOrCopies(InstAt(f, b, i), InstAt(g, b, i))
    {
      assert ForwardStore(TableAt(LearnStore, map[], Forget, f, g, b, i), InstAt(f, b, i)) == Some(InstAt(g, b, i));
    }
  }

  lemma IdentityCopies(f: Func, g: Func)
    requires SimplifiesIdentities(f, g)
    ensures BecomeCopies(f, g)
  {
  }

  // Where there is nothing to cut and loads find what was stored, the whole loop keeps every run of a strict function.
  lemma {:induction false} SweepsImprove(m: Mode, n: nat, f: Func, g: Func)
    requires m.identities && NothingToCut(f) && StoresReadBack(m, f) && Sweeps(n, f, g)
    ensures NothingToCut(g) && StoresReadBack(m, g) && Improves(m, f, g)
  {
    hide Improves, Sweep, NothingToCut, StoresReadBack;
    if n == 0 {
      NothingImproves(m, f);
    } else {
      var h :| Sweeps(n - 1, f, h) && Sweep(h, g);
      SweepsImprove(m, n - 1, f, h);
      SweepImproves(m, h, g);
      ImprovesTransitive(m, f, h, g);
    }
  }
}
