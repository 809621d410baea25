/** Folding of conditional branches on constants, and removal of unreachable blocks. */
module BranchPasses {
  import opened Mir
  import opened Ssa
  import opened Facts
  import opened Graph
  import opened Scan
  import opened Improvement
  import opened RewritingPasses

  // ---------------------------------------------------------------- constant branches

  /** The constants of the whole function, later loads of a register overriding earlier ones. */
  ghost function AllConstants(f: Func): Constants {
    Entering(LearnConst, map[], Unchanged, f, f, |f.blocks|)
  }

  function DecideTerm(known: Constants, term: Terminator): Terminator {
    match term
    case CondBranch(r, t, e) =>
      if r in known then Branch(if ValueOf(known[r]).IsTruthy() then t else e) else term
    case _ => term
  }

  ghost predicate FoldsBranches(f: Func, g: Func) {
    && f.params == g.params && |f.blocks| == |g.blocks|
    && forall b :: 0 <= b < |f.blocks| ==>
         g.blocks[b] == f.blocks[b].(term := DecideTerm(AllConstants(f), f.blocks[b].term))
  }

  lemma {:induction false} ConstantsTrue(m: Mode, f: Func, live: iset<RegId>, b: nat, i: nat)
    requires Strict(f, live) && b < |f.blocks| && i <= |f.blocks[b].insts|
    ensures TrueConstants(m, f, live, TableAt(LearnConst, map[], Unchanged, f, f, b, i))
    decreases b, i
  {
    if i > 0 {
      ConstantsTrue(m, f, live, b, i - 1);
      assert At(f, b, i - 1);
      if InstAt(f, b, i - 1).LoadConst? && InstAt(f, b, i - 1).dest in live {
        LoadedConstKnown(m, f, live, b, i - 1);
      }
    } else if b > 0 {
      ConstantsTrue(m, f, live, b - 1, |f.blocks[b - 1].insts|);
    }
  }

  lemma BranchFoldingImproves(m: Mode, f: Func, g: Func)
    requires FoldsBranches(f, g)
    ensures Improves(m, f, g)
  {
    forall live: iset<RegId> | Strict(f, live)
      ensures Strict(g, live) && RefinesFunc(m, f, g)
    {
      if f.blocks != [] {
        ConstantsTrue(m, f, live, |f.blocks| - 1, |f.blocks[|f.blocks| - 1].insts|);
      }
      forall b | 0 <= b < |f.blocks| && g.blocks[b].term != f.blocks[b].term
        ensures Decides(m, f, live, f.blocks[b].term, g.blocks[b].term)
      {
        assert GoodUse(f, live, f.blocks[b].term.cond, b, |f.blocks[b].insts|);
      }
      DecidingIsSound(m, f, g, live);
    }
  }

  lemma BranchFoldingKeepsForm(f: Func, g: Func)
    requires FoldsBranches(f, g)
    ensures KeepsForm(f, g)
  {
    assert forall b: nat, i: nat :: At(g, b, i) ==> At(f, b, i) && InstAt(f, b, i) == InstAt(g, b, i);
    FewerEdgesAvailable(f, g);
    if RepeatsDominated(f) {
      forall b: nat, i: nat, c: nat, j: nat |
        At(g, b, i) && At(g, c, j) && Before(b, i, c, j) && SameOperation(InstAt(g, b, i), InstAt(g, c, j))
        ensures Available(g, InstAt(g, b, i).dest, c, j)
      {
        assert At(f, b, i) && At(f, c, j);
        assert Available(f, InstAt(g, b, i).dest, c, j);
      }
    }
  }

  lemma FoldsBranchesIsUnique(f: Func, g: Func, g': Func)
    requires FoldsBranches(f, g) && FoldsBranches(f, g')
    ensures g == g'
  {
    assert g.blocks == g'.blocks;
  }

  method ConstantBranchFolding(func: MirFunction)
    modifies func
    ensures FoldsBranches(old(func.Value()), func.Value())
  {
    ghost var f := func.Value();
    var known: Constants := map[];
    for b := 0 to |func.blocks|
      invariant known == Entering(LearnConst, map[], Unchanged, f, f, b)
    {
      for i := 0 to |func.blocks[b].insts|
        invariant known == TableAt(LearnConst, map[], Unchanged, f, f, b, i)
      {
        known := LearnConst(known, func.blocks[b].insts[i], func.blocks[b].insts[i]);
      }
    }
    for b := 0 to |func.blocks|
      invariant |func.blocks| == |f.blocks|
      invariant forall c :: 0 <= c < b ==> func.blocks[c] == f.blocks[c].(term := DecideTerm(known, f.blocks[c].term))
      invariant forall c :: b <= c < |f.blocks| ==> func.blocks[c] == f.blocks[c]
    {
      func.blocks := func.blocks[b := func.blocks[b].(term := DecideTerm(known, func.blocks[b].term))];
    }
  }

  // ---------------------------------------------------------------- unreachable blocks

  /** Nothing to do with at most one block; otherwise the blocks of the smallest closed label set stay. */
  ghost predicate UnreachableGone(f: Func, g: Func) {
    if |f.blocks| <= 1 then g == f
    else exists labels :: SmallestClosed(f, labels) && Retains(f, g, labels)
  }

  // Whatever the function: blocks that cannot be reached take no part in a run.
  lemma UnreachableRemovalIsSound(m: Mode, f: Func, g: Func)
    requires UnreachableGone(f, g)
    ensures RefinesFunc(m, f, g)
  {
    if |f.blocks| > 1 {
      var labels :| SmallestClosed(f, labels) && Retains(f, g, labels);
      RetainingIsSound(m, f, g, labels);
    }
  }

  lemma UnreachableRemovalImproves(m: Mode, f: Func, g: Func)
    requires UnreachableGone(f, g)
    ensures Improves(m, f, g)
  {
    UnreachableRemovalIsSound(m, f, g);
    if |f.blocks| > 1 {
      var labels :| SmallestClosed(f, labels) && Retains(f, g, labels);
      forall live: iset<RegId> | Strict(f, live)
        ensures Strict(g, live)
      {
        RetainingKeepsStrict(f, g, labels, live);
      }
    }
  }

  lemma UnreachableRemovalKeepsForm(f: Func, g: Func)
    requires UnreachableGone(f, g)
    ensures KeepsForm(f, g)
  {
    if |f.blocks| > 1 {
      var labels :| SmallestClosed(f, labels) && Retains(f, g, labels);
      RetainingKeepsForm(f, g, labels);
    }
  }

  lemma RetainingKeepsForm(f: Func, g: Func, labels: set<Label>)
    requires Retains(f, g, labels) && Closed(f, labels)
    ensures KeepsForm(f, g)
  {
    var src := Sources(f.blocks, labels, |f.blocks|);
    SourcesOrdered(f.blocks, labels, |f.blocks|);
    assert forall b: nat, i: nat :: At(g, b, i) ==> At(f, src[b], i) && InstAt(f, src[b], i) == InstAt(g, b, i);
    if RepeatsDominated(f) {
      forall b: nat, i: nat, c: nat, j: nat |
        At(g, b, i) && At(g, c, j) && Before(b, i, c, j) && SameOperation(InstAt(g, b, i), InstAt(g, c, j))
        ensures Available(g, InstAt(g, b, i).dest, c, j)
      {
        assert At(f, src[b], i) && At(f, src[c], j);
        RetainedAvailable(f, g, labels, InstAt(g, b, i).dest, c, j);
      }
    }
  }

  lemma UnreachableGoneIsUnique(f: Func, g: Func, g': Func)
    requires UnreachableGone(f, g) && UnreachableGone(f, g')
    ensures g == g'
  {
    if |f.blocks| > 1 {
      var labels :| SmallestClosed(f, labels) && Retains(f, g, labels);
      var labels' :| SmallestClosed(f, labels') && Retains(f, g', labels');
      assert labels <= labels' && labels' <= labels;
      assert labels == labels';
      assert g.blocks == g'.blocks;
    }
  }

  ghost function AllLabels(f: Func): set<Label> {
    {EntryLabel(f.blocks)} + set b, l | 0 <= b < |f.blocks| && l in Targets(f.blocks[b].term) :: l
  }

  /** The labels found so far are all needed. */
  ghost predicate Needed(f: Func, labels: set<Label>) {
    && EntryLabel(f.blocks) in labels && labels <= AllLabels(f)
    && forall other :: Closed(f, other) ==> labels <= other
  }

  ghost predicate ClosedUpTo(f: Func, labels: set<Label>, b: nat) {
    forall c :: 0 <= c < b && c < |f.blocks| && f.blocks[c].lbl in labels ==> Targets(f.blocks[c].term) <= labels
  }

  lemma TargetsNeeded(f: Func, labels: set<Label>, b: nat)
    requires Needed(f, labels) && b < |f.blocks| && f.blocks[b].lbl in labels
    ensures Needed(f, labels + Targets(f.blocks[b].term))
  {
  }

  method ReachableLabels(func: MirFunction) returns (reachable: set<Label>)
    requires func.blocks != []
    ensures SmallestClosed(func.Value(), reachable)
  {
    ghost var f := func.Value();
    reachable := {func.blocks[0].lbl};
    var changed := true;
    while changed
      invariant Needed(f, reachable)
      invariant !changed ==> ClosedUpTo(f, reachable, |f.blocks|)
      decreases AllLabels(f) - reachable, changed
    {
      changed := false;
      ghost var before := reachable;
      for b := 0 to |func.blocks|
        invariant Needed(f, reachable) && before <= reachable
        invariant changed <==> reachable != before
        invariant !changed ==> ClosedUpTo(f, reachable, b)
      {
        if func.blocks[b].lbl in reachable {
          var targets := Targets(func.blocks[b].term);
          TargetsNeeded(f, reachable, b);
          if !(targets <= reachable) {
            reachable, changed := reachable + targets, true;
          }
        }
      }
    }
  }

  method RemoveUnreachableBlocks(func: MirFunction)
    modifies func
    ensures UnreachableGone(old(func.Value()), func.Value())
  {
    if |func.blocks| <= 1 {
      return;
    }
    ghost var f := func.Value();
    var reachable := ReachableLabels(func);
    var kept := [];
    for b := 0 to |func.blocks|
      invariant var src := Sources(f.blocks, reachable, b);
                |kept| == |src| && forall k :: 0 <= k < |src| ==> kept[k] == f.blocks[src[k]]
    {
      if func.blocks[b].lbl in reachable {
        kept := kept + [func.blocks[b]];
      }
    }
    func.blocks := kept;
  }
}
