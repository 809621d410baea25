/** What a whole round of the optimizer achieves, from before to after, and what the peephole loop ends with. */
module RoundResults {
  import opened Options
  import opened Mir
  import opened Ssa
  import opened Rewriting
  import opened Removal
  import opened Scan
  import opened Improvement
  import opened RewritingPasses
  import opened DeletingPasses
  import opened BranchPasses
  import opened Optimizer
  import opened Effects
  import opened Remains
  import opened CopyEffects
  import CopyFusion
  import PeepholeLoop

  ghost predicate Occurs(f: Func, x: Inst) {
    exists b: nat, i: nat :: At(f, b, i) && InstAt(f, b, i) == x
  }

  /** The three passes that rewrite, in order. */
  ghost predicate Rewritten(checks: bool, f: Func, folded: Func, propagated: Func, reused: Func) {
    FoldsConstants(checks, f, folded) && PropagatesConstants(folded, propagated) && ReusesResults(propagated, reused)
  }

  /** The passes that delete, and the folding of branches between them. */
  ghost predicate Cleaned(reused: Func, stores: Func, code: Func, nops: Func, decided: Func, g: Func) {
    && DeadStoresGone(reused, stores) && DeadCodeGone(stores, code) && Filtered(code, nops, IsNotNop)
    && FoldsBranches(nops, decided) && UnreachableGone(decided, g)
  }

  lemma RoundSteps(checks: bool, f: Func, g: Func)
    returns (folded: Func, propagated: Func, reused: Func, stores: Func, code: Func, nops: Func, decided: Func)
    requires Round(checks, f, g)
    ensures Rewritten(checks, f, folded, propagated, reused) && Cleaned(reused, stores, code, nops, decided, g)
  {
    hide FoldsConstants, PropagatesConstants, ReusesResults, DeadStoresGone, DeadCodeGone, Filtered, FoldsBranches,
         UnreachableGone;
    reused, stores :| RoundThrough(checks, f, reused, stores, g);
    folded, propagated, code, nops, decided :|
      && FoldsConstants(checks, f, folded) && PropagatesConstants(folded, propagated)
      && ReusesResults(propagated, reused) && DeadStoresGone(reused, stores) && DeadCodeGone(stores, code)
      && Filtered(code, nops, IsNotNop) && FoldsBranches(nops, decided) && UnreachableGone(decided, g);
  }

  // ---------------------------------------------------------------- what is there at the end was there before

  lemma InBlock(f: Func, b: nat, x: Inst)
    requires b < |f.blocks| && x in f.blocks[b].insts
    ensures Occurs(f, x)
  {
    var i :| 0 <= i < |f.blocks[b].insts| && f.blocks[b].insts[i] == x;
    assert At(f, b, i) && InstAt(f, b, i) == x;
  }

  // What is left after the cleaning was there before it: not a dead store, and no pure instruction with an unread
  // result.
  lemma LeftOver(reused: Func, stores: Func, code: Func, nops: Func, decided: Func, g: Func, x: Inst)
    requires Cleaned(reused, stores, code, nops, decided, g) && Occurs(g, x)
    ensures Occurs(reused, x)
    ensures x.Store? && !Outlives(x.name) ==> exists c: nat, j: nat ::
              At(reused, c, j) && InstAt(reused, c, j).Load? && InstAt(reused, c, j).name == x.name
    ensures x.LoadConst? || x.Copy? || x.Binary? || x.Unary? || x.Alloc? || x.Load? ==> ReadSomewhere(stores, x.dest)
  {
    hide DeadStoresGone, DeadCodeGone, Filtered, FoldsBranches, UnreachableGone, ReadSomewhere, Outlives;
    var b: nat, i: nat :| At(g, b, i) && InstAt(g, b, i) == x;
    var c := RetainedComeFrom(decided, g, b);
    SameCounts(reused, stores, code, nops, decided);
    BranchEffect(nops, decided, c);
    NopsEffect(code, nops, c, x);
    DeadCodeEffect(stores, code, c, x);
    DeadStoresEffect(reused, stores, c, x);
    InBlock(reused, c, x);
  }

  lemma SameCounts(reused: Func, stores: Func, code: Func, nops: Func, decided: Func)
    requires DeadStoresGone(reused, stores) && DeadCodeGone(stores, code) && Filtered(code, nops, IsNotNop)
    requires FoldsBranches(nops, decided)
    ensures |reused.blocks| == |stores.blocks| == |code.blocks| == |nops.blocks| == |decided.blocks|
  {
    hide Kept, DecideTerm, LoadedNames, UsedRegisters;
  }

  // ---------------------------------------------------------------- what the rewriting passes do to one place

  lemma RewrittenAt(checks: bool, f: Func, folded: Func, propagated: Func, reused: Func, b: nat, i: nat)
    requires Rewritten(checks, f, folded, propagated, reused) && At(f, b, i)
    ensures At(folded, b, i) && At(propagated, b, i) && At(reused, b, i)
    ensures Dest(InstAt(reused, b, i)) == Dest(InstAt(propagated, b, i)) == Dest(InstAt(folded, b, i))
            == Dest(InstAt(f, b, i))
    ensures InstAt(reused, b, i) == InstAt(f, b, i) || InstAt(reused, b, i).LoadConst? || InstAt(reused, b, i).Copy?
    ensures InstAt(folded, b, i) != InstAt(f, b, i) ==> InstAt(folded, b, i).LoadConst?
    ensures InstAt(propagated, b, i) != InstAt(folded, b, i) ==>
              InstAt(propagated, b, i).LoadConst? && InstAt(folded, b, i).Copy?
    ensures InstAt(reused, b, i) != InstAt(propagated, b, i) ==>
              InstAt(propagated, b, i).Binary? && InstAt(reused, b, i).Copy?
              && LastSame(reused, InstAt(propagated, b, i), b, i, InstAt(reused, b, i).src)
  {
    hide LastLoaded, LastSame, Foldable, UnaryFoldable, IsResult;
    assert FoldInst(checks, TableAt(LearnConst, map[], Unchanged, f, folded, b, i), InstAt(f, b, i))
        == Some(InstAt(folded, b, i)) by {
      assert Folder(checks)(TableAt(LearnConst, map[], Unchanged, f, folded, b, i), InstAt(f, b, i))
          == Some(InstAt(folded, b, i));
    }
    PropagationEffect(folded, propagated, b, i);
    ReuseEffect(propagated, reused, b, i);
  }

  lemma SamePlace(checks: bool, f: Func, folded: Func, propagated: Func, reused: Func, b: nat, i: nat, x: Inst)
    requires Rewritten(checks, f, folded, propagated, reused) && SingleDef(f) && At(f, b, i) && Occurs(reused, x)
    requires Dest(x).Some? && Dest(x) == Dest(InstAt(f, b, i))
    ensures At(reused, b, i) && x == InstAt(reused, b, i)
  {
    hide FoldsConstants, PropagatesConstants, ReusesResults;
    var c: nat, j: nat :| At(reused, c, j) && InstAt(reused, c, j) == x;
    assert At(f, c, j) by {
      ShapeStays(checks, f, folded, propagated, reused);
    }
    RewrittenAt(checks, f, folded, propagated, reused, c, j);
    RewrittenAt(checks, f, folded, propagated, reused, b, i);
    assert Def(f, Dest(x).value, b, i) && Def(f, Dest(x).value, c, j);
  }

  lemma ShapeStays(checks: bool, f: Func, folded: Func, propagated: Func, reused: Func)
    requires Rewritten(checks, f, folded, propagated, reused)
    ensures SameShape(f, folded) && SameShape(f, propagated) && SameShape(f, reused)
  {
  }

  // In single-definition code the one load of a constant before a place is the last.
  lemma OnlyLoadIsLast(f: Func, g: Func, r: RegId, b: nat, i: nat, k: Const)
    requires SameShape(f, g) && SingleDef(f) && LastLoaded(f, r, b, i, k)
    requires forall c: nat, j: nat :: At(f, c, j) ==> Dest(InstAt(g, c, j)) == Dest(InstAt(f, c, j))
    requires forall c: nat, j: nat :: At(f, c, j) && InstAt(f, c, j).LoadConst? ==> InstAt(g, c, j) == InstAt(f, c, j)
    ensures LastLoaded(g, r, b, i, k)
  {
    var c: nat, j: nat :| LastLoadAt(f, r, b, i, c, j) && InstAt(f, c, j).c == k;
    forall d: nat, l: nat | Effects.LoadsAt(g, r, d, l)
      ensures d == c && l == j
    {
      assert Def(f, r, c, j) && Def(f, r, d, l);
    }
    assert LastLoadAt(g, r, b, i, c, j);
  }

  // ---------------------------------------------------------------- the results

  // A foldable operation on loaded constants is a constant after one round, if it is still there ...
  lemma RoundFolds(checks: bool, f: Func, g: Func, b: nat, i: nat, lc: Const, rc: Const, x: Inst)
    requires Round(checks, f, g) && SingleDef(f) && At(f, b, i) && InstAt(f, b, i).Binary?
    requires LastLoaded(f, InstAt(f, b, i).left, b, i, lc) && LastLoaded(f, InstAt(f, b, i).right, b, i, rc)
    requires Foldable(InstAt(f, b, i).op, lc, rc) && Occurs(g, x) && Dest(x) == Some(InstAt(f, b, i).dest)
    ensures x.LoadConst? && IsResult(InstAt(f, b, i).op, lc, rc, x.c)
  {
    hide LastLoaded, Foldable, IsResult, Round, Cleaned, Rewritten;
    var folded, propagated, reused, stores, code, nops, decided := RoundSteps(checks, f, g);
    LeftOver(reused, stores, code, nops, decided, g, x);
    SamePlace(checks, f, folded, propagated, reused, b, i, x);
    RewrittenAt(checks, f, folded, propagated, reused, b, i);
    LoadsStay(checks, f, folded, propagated, reused);
    OnlyLoadIsLast(f, folded, InstAt(f, b, i).left, b, i, lc);
    OnlyLoadIsLast(f, folded, InstAt(f, b, i).right, b, i, rc);
    assert FoldsConstants(checks, f, folded) by {
      FirstStep(checks, f, folded, propagated, reused);
    }
    FoldingEffect(checks, f, folded, b, i);
  }

  lemma FirstStep(checks: bool, f: Func, folded: Func, propagated: Func, reused: Func)
    requires Rewritten(checks, f, folded, propagated, reused)
    ensures FoldsConstants(checks, f, folded) && PropagatesConstants(folded, propagated)
    ensures ReusesResults(propagated, reused)
  {
  }

  lemma LoadsStay(checks: bool, f: Func, folded: Func, propagated: Func, reused: Func)
    requires Rewritten(checks, f, folded, propagated, reused)
    ensures SameShape(f, folded)
    ensures forall c: nat, j: nat :: At(f, c, j) ==> Dest(InstAt(folded, c, j)) == Dest(InstAt(f, c, j))
    ensures forall c: nat, j: nat ::
              At(f, c, j) && InstAt(f, c, j).LoadConst? ==> InstAt(folded, c, j) == InstAt(f, c, j)
  {
    ShapeStays(checks, f, folded, propagated, reused);
    forall c: nat, j: nat | At(f, c, j)
      ensures Dest(InstAt(folded, c, j)) == Dest(InstAt(f, c, j))
      ensures InstAt(f, c, j).LoadConst? ==> InstAt(folded, c, j) == InstAt(f, c, j)
    {
      RewrittenAt(checks, f, folded, propagated, reused, c, j);
      assert Folder(checks)(TableAt(LearnConst, map[], Unchanged, f, folded, c, j), InstAt(f, c, j))
          == Some(InstAt(folded, c, j));
    }
  }

  // ... and so is a copy of a loaded constant.
  lemma RoundPropagates(checks: bool, f: Func, g: Func, b: nat, i: nat, k: Const, x: Inst)
    requires Round(checks, f, g) && SingleDef(f) && At(f, b, i) && InstAt(f, b, i).Copy?
    requires LastLoaded(f, InstAt(f, b, i).src, b, i, k) && Occurs(g, x) && Dest(x) == Some(InstAt(f, b, i).dest)
    ensures x == LoadConst(InstAt(f, b, i).dest, k)
  {
    hide LastLoaded, Round, Cleaned, Rewritten, SingleDef;
    var folded, propagated, reused, stores, code, nops, decided := RoundSteps(checks, f, g);
    LeftOver(reused, stores, code, nops, decided, g, x);
    SamePlace(checks, f, folded, propagated, reused, b, i, x);
    RewrittenAt(checks, f, folded, propagated, reused, b, i);
    CopyIsPropagated(checks, f, folded, propagated, reused, b, i, k);
  }

  lemma CopyIsPropagated(checks: bool, f: Func, folded: Func, propagated: Func, reused: Func, b: nat, i: nat, k: Const)
    requires Rewritten(checks, f, folded, propagated, reused) && SingleDef(f) && At(f, b, i) && InstAt(f, b, i).Copy?
    requires LastLoaded(f, InstAt(f, b, i).src, b, i, k)
    ensures At(propagated, b, i) && InstAt(propagated, b, i) == LoadConst(InstAt(f, b, i).dest, k)
  {
    hide LastLoaded, FoldsConstants, PropagatesConstants, ReusesResults, SingleDef;
    var s := InstAt(f, b, i).src;
    RewrittenAt(checks, f, folded, propagated, reused, b, i);
    LoadsStay(checks, f, folded, propagated, reused);
    OnlyLoadIsLast(f, folded, s, b, i, k);
    StillSingle(f, folded);
    FoldedLoadsStay(folded, propagated, s, b, i, k);
    CopiesAreNotFolded(checks, f, folded, b, i);
    PropagationEffect(folded, propagated, b, i);
  }

  lemma CopiesAreNotFolded(checks: bool, f: Func, folded: Func, b: nat, i: nat)
    requires FoldsConstants(checks, f, folded) && At(f, b, i) && InstAt(f, b, i).Copy?
    ensures InstAt(folded, b, i) == InstAt(f, b, i)
  {
    assert Folder(checks)(TableAt(LearnConst, map[], Unchanged, f, folded, b, i), InstAt(f, b, i))
        == Some(InstAt(folded, b, i));
  }

  lemma StillSingle(f: Func, g: Func)
    requires SameShape(f, g) && SingleDef(f)
    requires forall c: nat, j: nat :: At(f, c, j) ==> Dest(InstAt(g, c, j)) == Dest(InstAt(f, c, j))
    ensures SingleDef(g)
  {
    assert forall r, c: nat, j: nat :: Def(g, r, c, j) ==> Def(f, r, c, j);
  }

  lemma FoldedLoadsStay(f: Func, g: Func, r: RegId, b: nat, i: nat, k: Const)
    requires PropagatesConstants(f, g) && LastLoaded(f, r, b, i, k) && SingleDef(f)
    ensures LastLoaded(g, r, b, i, k)
  {
    hide LastLoaded;
    forall c: nat, j: nat | At(f, c, j)
      ensures Dest(InstAt(g, c, j)) == Dest(InstAt(f, c, j))
      ensures InstAt(f, c, j).LoadConst? ==> InstAt(g, c, j) == InstAt(f, c, j)
    {
      PropagationEffect(f, g, c, j);
    }
    OnlyLoadIsLast(f, g, r, b, i, k);
  }

  // No operation is computed twice.
  lemma RoundReuses(checks: bool, f: Func, g: Func, x: Inst, y: Inst)
    requires Round(checks, f, g) && Occurs(g, x) && Occurs(g, y) && SameOperation(x, y)
    ensures x.dest == y.dest
  {
    hide Round, Cleaned;
    var folded, propagated, reused, stores, code, nops, decided := RoundSteps(checks, f, g);
    LeftOver(reused, stores, code, nops, decided, g, x);
    LeftOver(reused, stores, code, nops, decided, g, y);
    var b: nat, i: nat :| At(reused, b, i) && InstAt(reused, b, i) == x;
    var c: nat, j: nat :| At(reused, c, j) && InstAt(reused, c, j) == y;
    if Before(b, i, c, j) {
      NotRepeated(propagated, reused, b, i, c, j);
    } else if Before(c, j, b, i) {
      NotRepeated(propagated, reused, c, j, b, i);
    }
  }

  lemma NotRepeated(f: Func, g: Func, b: nat, i: nat, c: nat, j: nat)
    requires ReusesResults(f, g) && At(g, b, i) && At(g, c, j) && Before(b, i, c, j)
    ensures !SameOperation(InstAt(g, b, i), InstAt(g, c, j))
  {
    var y := InstAt(g, c, j);
    if SameOperation(InstAt(g, b, i), y) {
      ReuseEffect(f, g, c, j);
      var r := SomeLastSame(g, y, c, j, b, i);
    }
  }

  lemma {:induction false} SomeLastSame(g: Func, p: Inst, b: nat, i: nat, c: nat, j: nat) returns (r: RegId)
    requires At(g, c, j) && Before(c, j, b, i) && SameOperation(p, InstAt(g, c, j)) && b <= |g.blocks|
    ensures LastSame(g, p, b, i, r)
    decreases b - c, if c < |g.blocks| then |g.blocks[c].insts| - j else 0
  {
    if d: nat, l: nat :|
      At(g, d, l) && SameOperation(p, InstAt(g, d, l)) && Before(d, l, b, i) && Before(c, j, d, l)
    {
      r := SomeLastSame(g, p, b, i, d, l);
    } else {
      r := InstAt(g, c, j).dest;
      assert LastSameAt(g, p, b, i, c, j);
    }
  }

  // A name that is local and loaded nowhere is not stored any more.
  lemma RoundForgets(checks: bool, f: Func, g: Func, x: Inst)
    requires Round(checks, f, g) && Occurs(g, x) && x.Store? && !Outlives(x.name)
    ensures exists c: nat, j: nat :: At(f, c, j) && InstAt(f, c, j).Load? && InstAt(f, c, j).name == x.name
  {
    hide Round, Cleaned, Rewritten, Outlives;
    var folded, propagated, reused, stores, code, nops, decided := RoundSteps(checks, f, g);
    LeftOver(reused, stores, code, nops, decided, g, x);
    var c: nat, j: nat :| At(reused, c, j) && InstAt(reused, c, j).Load? && InstAt(reused, c, j).name == x.name;
    ShapeStays(checks, f, folded, propagated, reused);
    RewrittenAt(checks, f, folded, propagated, reused, c, j);
    assert At(f, c, j) && InstAt(f, c, j).Load? && InstAt(f, c, j).name == x.name;
  }

  // An instruction without effect, operations aside, is gone if its result is read nowhere.
  lemma RoundDiscards(checks: bool, f: Func, g: Func, b: nat, i: nat, x: Inst)
    requires Round(checks, f, g) && SingleDef(f) && At(f, b, i) && Occurs(g, x)
    requires var was := InstAt(f, b, i); was.LoadConst? || was.Copy? || was.Unary? || was.Alloc? || was.Load?
    requires !ReadSomewhere(f, InstAt(f, b, i).dest)
    ensures Dest(x) != Some(InstAt(f, b, i).dest)
  {
    hide Round, Cleaned, Rewritten, ReadSomewhere, SingleDef;
    var r := InstAt(f, b, i).dest;
    if Dest(x) == Some(r) {
      var folded, propagated, reused, stores, code, nops, decided := RoundSteps(checks, f, g);
      LeftOver(reused, stores, code, nops, decided, g, x);
      SamePlace(checks, f, folded, propagated, reused, b, i, x);
      RewrittenAt(checks, f, folded, propagated, reused, b, i);
      ReadsStay(checks, f, folded, propagated, reused, b, i);
      StoresReadLess(reused, stores, code, nops, decided, g, r);
    }
  }

  lemma StoresReadLess(reused: Func, stores: Func, code: Func, nops: Func, decided: Func, g: Func, r: RegId)
    requires Cleaned(reused, stores, code, nops, decided, g) && ReadSomewhere(stores, r)
    ensures ReadSomewhere(reused, r)
  {
    var loaded :| LoadedNames(reused, loaded) && Filtered(reused, stores, StoreIsLive(loaded));
    if c: nat, j: nat :| At(stores, c, j) && ReadsKnown(InstAt(stores, c, j), r) {
      var x := InstAt(stores, c, j);
      FilteredMembers(reused, stores, StoreIsLive(loaded), c, x);
      var k :| 0 <= k < |reused.blocks[c].insts| && reused.blocks[c].insts[k] == x;
      assert At(reused, c, k) && InstAt(reused, c, k) == x;
    }
  }

  // The rewriting passes read nothing new but results of operations.
  lemma ReadsStay(checks: bool, f: Func, folded: Func, propagated: Func, reused: Func, b: nat, i: nat)
    requires Rewritten(checks, f, folded, propagated, reused) && SingleDef(f) && At(f, b, i)
    requires var was := InstAt(f, b, i); was.LoadConst? || was.Copy? || was.Unary? || was.Alloc? || was.Load?
    requires !ReadSomewhere(f, InstAt(f, b, i).dest)
    ensures !ReadSomewhere(reused, InstAt(f, b, i).dest)
  {
    hide Rewritten;
    var r := InstAt(f, b, i).dest;
    ShapeStays(checks, f, folded, propagated, reused);
    forall c: nat, j: nat | At(reused, c, j)
      ensures !ReadsKnown(InstAt(reused, c, j), r)
    {
      RewrittenAt(checks, f, folded, propagated, reused, c, j);
      var now := InstAt(reused, c, j);
      if now != InstAt(propagated, c, j) {
        var d: nat, l: nat :|
          LastSameAt(reused, InstAt(propagated, c, j), c, j, d, l) && InstAt(reused, d, l).dest == now.src;
        RewrittenAt(checks, f, folded, propagated, reused, d, l);
        assert Def(f, now.src, d, l);
        assert Def(f, r, b, i);
      }
    }
  }

  // ---------------------------------------------------------------- the peephole loop

  // Where the loop ends, no load finds what its block has stored, no operation has a neutral constant on its right,
  // no branch leads to the next block, and every copy reads what fusion would have it read.
  lemma StableIsClean(f: Func, fused: Func, b: nat, i: nat)
    requires PeepholeLoop.Stable(f) && CopyFusion.FusesCopies(f, fused) && b < |f.blocks|
    ensures b + 1 < |f.blocks| ==> f.blocks[b].term != Branch(f.blocks[b + 1].lbl)
    ensures At(f, b, i) ==>
              var inst := InstAt(f, b, i);
              && (inst.Load? ==> forall s :: !StoredLast(f.blocks[b].insts, i, inst.name, s))
              && (inst.Binary? ==> forall c :: LastLoaded(f, inst.right, b, i, c) ==> !IsNeutral(inst.op, c))
              && (inst.Copy? ==> forall t :: LastCopied(fused, inst.src, |f.blocks|, 0, t) ==> inst.src == t)
  {
    hide StoredLast, LastLoaded, LastCopied, IsNeutral;
    CuttingEffect(f, f, b);
    if At(f, b, i) {
      ShorteningEffect(f, f, fused, b, i);
      ForwardingEffect(f, f, b, i);
      IdentityEffect(f, f, b, i);
    }
  }
}
