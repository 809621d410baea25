/** What the deleting passes leave, and what they do not: instruction by instruction, and block by block. */
module Remains {
  import opened Options
  import opened Mir
  import opened Ssa
  import opened Removal
  import opened Graph
  import opened DeletingPasses
  import opened BranchPasses
  import opened Scan
  import opened RewritingPasses
  import opened Optimizer
  import Effects

  lemma {:induction false} KeptMembers(insts: seq<Inst>, keep: Inst -> bool, n: nat, x: Inst)
    requires n <= |insts|
    ensures x in Kept(insts, keep, n) <==> x in insts[..n] && keep(x)
  {
    if n > 0 {
      KeptMembers(insts, keep, n - 1, x);
      assert insts[..n] == insts[..n - 1] + [insts[n - 1]];
    }
  }

  lemma FilteredMembers(f: Func, g: Func, keep: Inst -> bool, b: nat, x: Inst)
    requires Filtered(f, g, keep) && b < |f.blocks|
    ensures x in g.blocks[b].insts <==> x in f.blocks[b].insts && keep(x)
  {
    var insts := f.blocks[b].insts;
    KeptMembers(insts, keep, |insts|, x);
    assert insts[..|insts|] == insts;
  }

  /** A name that begins with a capital letter, an at sign or a dollar sign outlives the function. */
  predicate Outlives(name: string) {
    name != "" && ('A' <= name[0] <= 'Z' || name[0] == '@' || name[0] == '$')
  }

  // A store goes exactly if its name is local to the function and loaded nowhere; nothing else goes.
  lemma DeadStoresEffect(f: Func, g: Func, b: nat, x: Inst)
    requires DeadStoresGone(f, g) && b < |f.blocks|
    ensures x in g.blocks[b].insts
            <==> x in f.blocks[b].insts
                 && (x.Store? && !Outlives(x.name) ==>
                       exists c: nat, j: nat :: At(f, c, j) && InstAt(f, c, j).Load? && InstAt(f, c, j).name == x.name)
  {
    var loaded :| LoadedNames(f, loaded) && Filtered(f, g, StoreIsLive(loaded));
    FilteredMembers(f, g, StoreIsLive(loaded), b, x);
    if x.Store? {
      assert x.name in loaded <==> IsLoaded(f, x.name);
      assert IsLoaded(f, x.name)
        <==> exists c: nat, j: nat :: At(f, c, j) && InstAt(f, c, j).Load? && InstAt(f, c, j).name == x.name by {
        if c: nat, j: nat :| At(f, c, j) && InstAt(f, c, j).Load? && InstAt(f, c, j).name == x.name {
          assert LoadsAt(f, c, j, x.name);
        }
      }
    }
  }

  /** The instruction reads the register, and dead-code elimination knows. */
  predicate ReadsKnown(inst: Inst, r: RegId) {
    match inst
    case Copy(_, s) => r == s
    case Binary(_, _, x, y) => r == x || r == y
    case Unary(_, _, s) => r == s
    case Call(_, _, args) => r in args
    case MethodCall(_, recv, _, args, _) => r == recv || r in args
    case Store(_, s) => r == s
    case _ => false
  }

  predicate EndReads(term: Terminator, r: RegId) {
    term == Return(Some(r)) || (term.CondBranch? && term.cond == r)
  }

  ghost predicate ReadSomewhere(f: Func, r: RegId) {
    || (exists c: nat, j: nat :: At(f, c, j) && ReadsKnown(InstAt(f, c, j), r))
    || (exists c: nat :: c < |f.blocks| && EndReads(f.blocks[c].term, r))
  }

  lemma CountedIsRead(f: Func, r: RegId)
    ensures IsCounted(f, r) <==> ReadSomewhere(f, r)
  {
    forall c: nat, j: nat | At(f, c, j)
      ensures CountsAt(f, c, j, r) <==> ReadsKnown(InstAt(f, c, j), r)
    {
    }
    forall c: nat | c < |f.blocks|
      ensures r in TermUses(f.blocks[c].term) <==> EndReads(f.blocks[c].term, r)
    {
    }
    hide CountsAt, ReadsKnown, TermUses, EndReads;
    if c: nat, j: nat :| At(f, c, j) && ReadsKnown(InstAt(f, c, j), r) {
      assert CountsAt(f, c, j, r);
    }
  }

  // An instruction without effect goes exactly if its result is read nowhere; nothing else goes.
  lemma DeadCodeEffect(f: Func, g: Func, b: nat, x: Inst)
    requires DeadCodeGone(f, g) && b < |f.blocks|
    ensures x in g.blocks[b].insts
            <==> x in f.blocks[b].insts
                 && (x.LoadConst? || x.Copy? || x.Binary? || x.Unary? || x.Alloc? || x.Load? ==>
                       ReadSomewhere(f, x.dest))
  {
    hide ReadSomewhere, IsCounted;
    var used :| UsedRegisters(f, used) && Filtered(f, g, ResultIsUsed(used));
    FilteredMembers(f, g, ResultIsUsed(used), b, x);
    if Deletable(x) {
      CountedIsRead(f, x.dest);
    }
  }

  lemma NopsEffect(f: Func, g: Func, b: nat, x: Inst)
    requires Filtered(f, g, IsNotNop) && b < |f.blocks|
    ensures x in g.blocks[b].insts <==> x in f.blocks[b].insts && x != Nop
  {
    FilteredMembers(f, g, IsNotNop, b, x);
  }

  // A block goes exactly if no path leads to it.
  lemma UnreachableEffect(f: Func, g: Func, b: nat)
    requires UnreachableGone(f, g) && DistinctLabels(f) && b < |f.blocks|
    ensures f.blocks[b] in g.blocks <==> Reachable(f, b)
  {
    if |f.blocks| == 1 {
      assert PathTo(f, [0], 0);
    } else {
      var labels :| SmallestClosed(f, labels) && Retains(f, g, labels);
      SmallestClosedIsReachable(f, labels, b);
      RetainedMembers(f, labels, |f.blocks|, b);
      hide SmallestClosed, Reachable;
      var src := Sources(f.blocks, labels, |f.blocks|);
      if b in src {
        var k :| 0 <= k < |src| && src[k] == b;
        assert g.blocks[k] == f.blocks[b];
      }
      if f.blocks[b] in g.blocks {
        var k :| 0 <= k < |g.blocks| && g.blocks[k] == f.blocks[b];
        RetainedMembers(f, labels, |f.blocks|, src[k]);
        assert src[k] in src;
      }
    }
  }

  lemma {:induction false} RetainedMembers(f: Func, labels: set<Label>, n: nat, b: nat)
    requires n <= |f.blocks|
    ensures b in Sources(f.blocks, labels, n) <==> b < n && f.blocks[b].lbl in labels
  {
    if n > 0 {
      RetainedMembers(f, labels, n - 1, b);
    }
  }

  // ---------------------------------------------------------------- what a whole round leaves

  lemma RoundKeepsLabels(checks: bool, f: Func, reused: Func, stores: Func, code: Func, nops: Func, decided: Func)
    requires exists folded, propagated ::
               FoldsConstants(checks, f, folded) && PropagatesConstants(folded, propagated)
               && ReusesResults(propagated, reused)
    requires DeadStoresGone(reused, stores) && DeadCodeGone(stores, code) && Filtered(code, nops, IsNotNop)
    requires FoldsBranches(nops, decided) && DistinctLabels(f)
    ensures DistinctLabels(decided)
  {
    hide LoadedNames, UsedRegisters, Kept, DecideTerm;
    assert |decided.blocks| == |f.blocks|;
    assert forall b :: 0 <= b < |f.blocks| ==> decided.blocks[b].lbl == f.blocks[b].lbl;
  }

  // Every block of what is retained of the reachable blocks is reachable.
  lemma {:induction false} RetainedIsReached(f: Func, g: Func, labels: set<Label>, p: seq<nat>, c: nat) returns (k: nat)
    requires Retains(f, g, labels) && Closed(f, labels) && PathTo(f, p, c)
    ensures var src := Sources(f.blocks, labels, |f.blocks|); k < |src| && src[k] == c && Reachable(g, k)
    decreases |p|
  {
    var src := Sources(f.blocks, labels, |f.blocks|);
    SameEntry(f, g, labels);
    if |p| == 1 {
      k := 0;
      assert PathTo(g, [0], 0);
    } else {
      var n := |p| - 2;
      PathPrefix(f, p, c, n);
      var j := RetainedIsReached(f, g, labels, p[..n + 1], p[n]);
      var q :| PathTo(g, q, j);
      assert Successor(f, p[n], p[n + 1]);
      RetainedFind(f, g, labels, f.blocks[c].lbl);
      k := Find(g.blocks, f.blocks[c].lbl).value;
      assert Successor(g, j, k);
      assert PathTo(g, q + [k], k);
    }
  }

  lemma RetainedAreReached(f: Func, g: Func)
    requires UnreachableGone(f, g) && DistinctLabels(f)
    ensures forall b: nat :: b < |g.blocks| ==> Reachable(g, b)
  {
    forall b: nat | b < |g.blocks|
      ensures Reachable(g, b)
    {
      if |f.blocks| <= 1 {
        assert PathTo(g, [0], 0);
      } else {
        var labels :| SmallestClosed(f, labels) && Retains(f, g, labels);
        var src := Sources(f.blocks, labels, |f.blocks|);
        SmallestClosedIsReachable(f, labels, src[b]);
        var p :| PathTo(f, p, src[b]);
        var k := RetainedIsReached(f, g, labels, p, src[b]);
        SourcesOrdered(f.blocks, labels, |f.blocks|);
        IncreasingIsInjective(src, k, b);
      }
    }
  }

  lemma RetainedComeFrom(f: Func, g: Func, b: nat) returns (c: nat)
    requires UnreachableGone(f, g) && b < |g.blocks|
    ensures c < |f.blocks| && f.blocks[c] == g.blocks[b]
  {
    c := b;
    if |f.blocks| > 1 {
      var labels :| SmallestClosed(f, labels) && Retains(f, g, labels);
      c := Sources(f.blocks, labels, |f.blocks|)[b];
    }
  }

  // After a round there is no no-operation, no branch on a register that a constant is loaded into, and no block
  // that cannot be reached.
  lemma RoundLeaves(checks: bool, f: Func, g: Func)
    requires Round(checks, f, g) && DistinctLabels(f)
    ensures forall b: nat, i: nat :: At(g, b, i) ==> InstAt(g, b, i) != Nop
    ensures forall b: nat, c: nat, j: nat ::
              b < |g.blocks| && g.blocks[b].term.CondBranch? && At(g, c, j) && InstAt(g, c, j).LoadConst?
              ==> InstAt(g, c, j).dest != g.blocks[b].term.cond
    ensures forall b: nat :: b < |g.blocks| ==> Reachable(g, b)
  {
    hide Scanned, LoadedNames, UsedRegisters, Reachable, UnreachableGone, DistinctLabels, FoldsBranches, Kept;
    var reused, stores :| RoundThrough(checks, f, reused, stores, g);
    var folded, propagated, code, nops, decided :|
      && FoldsConstants(checks, f, folded) && PropagatesConstants(folded, propagated)
      && ReusesResults(propagated, reused) && DeadStoresGone(reused, stores) && DeadCodeGone(stores, code)
      && Filtered(code, nops, IsNotNop) && FoldsBranches(nops, decided) && UnreachableGone(decided, g);
    RoundKeepsLabels(checks, f, reused, stores, code, nops, decided);
    RetainedAreReached(decided, g);
    forall b: nat, i: nat | At(g, b, i)
      ensures InstAt(g, b, i) != Nop
    {
      var c := RetainedComeFrom(decided, g, b);
      NoNops(code, nops, decided, c, i);
    }
    forall b: nat, c: nat, j: nat |
      b < |g.blocks| && g.blocks[b].term.CondBranch? && At(g, c, j) && InstAt(g, c, j).LoadConst?
      ensures InstAt(g, c, j).dest != g.blocks[b].term.cond
    {
      var b0 := RetainedComeFrom(decided, g, b);
      var c0 := RetainedComeFrom(decided, g, c);
      DecidedHasNoConstant(nops, decided, b0, c0, j);
    }
  }

  lemma NoNops(code: Func, nops: Func, decided: Func, b: nat, i: nat)
    requires Filtered(code, nops, IsNotNop) && FoldsBranches(nops, decided) && At(decided, b, i)
    ensures InstAt(decided, b, i) != Nop
  {
    hide Kept;
    NopsEffect(code, nops, b, InstAt(decided, b, i));
  }

  lemma DecidedHasNoConstant(f: Func, g: Func, b: nat, c: nat, j: nat)
    requires FoldsBranches(f, g) && b < |g.blocks| && g.blocks[b].term.CondBranch?
    requires At(g, c, j) && InstAt(g, c, j).LoadConst?
    ensures InstAt(g, c, j).dest != g.blocks[b].term.cond
  {
    var r := g.blocks[b].term.cond;
    Effects.BranchEffect(f, g, b);
    Effects.BranchEffect(f, g, c);
    if Effects.LoadsAt(f, r, c, j) {
      var k := Effects.SomeLastLoad(f, r, |f.blocks|, 0, c, j);
    }
  }
}
