/** Changing the control-flow graph: conditional branches that are decided, blocks that are never reached. */
module Graph {
  import opened Options
  import opened Mir
  import opened Ssa
  import opened Facts

  // ---------------------------------------------------------------- fewer edges

  /** The same blocks with fewer edges between them. */
  ghost predicate FewerEdges(f: Func, f': Func) {
    && f.params == f'.params
    && |f.blocks| == |f'.blocks|
    && (forall b :: 0 <= b < |f.blocks| ==> f.blocks[b].lbl == f'.blocks[b].lbl)
    && (forall b :: 0 <= b < |f.blocks| ==> f.blocks[b].insts == f'.blocks[b].insts)
    && (forall b :: 0 <= b < |f.blocks| ==> Targets(f'.blocks[b].term) <= Targets(f.blocks[b].term))
    && (forall b :: 0 <= b < |f.blocks| ==> TermUses(f'.blocks[b].term) <= TermUses(f.blocks[b].term))
  }

  lemma FewerEdgesFind(f: Func, f': Func)
    requires FewerEdges(f, f')
    ensures forall lbl :: Find(f.blocks, lbl) == Find(f'.blocks, lbl)
  {
    forall lbl
      ensures Find(f.blocks, lbl) == Find(f'.blocks, lbl)
    {
      SameLabelsFindFrom(f.blocks, f'.blocks, lbl, 0);
    }
  }

  lemma FewerPaths(f: Func, f': Func)
    requires FewerEdges(f, f')
    ensures forall p, b :: PathTo(f', p, b) ==> PathTo(f, p, b)
  {
    FewerEdgesFind(f, f');
    assert forall b, c :: Successor(f', b, c) ==> Successor(f, b, c);
  }

  // What was available on all paths is so on fewer.
  lemma FewerEdgesAvailable(f: Func, f': Func)
    requires FewerEdges(f, f')
    ensures forall r, b: nat, i: nat :: Available(f, r, b, i) ==> Available(f', r, b, i)
  {
    FewerPaths(f, f');
    assert forall r, c: nat, j: nat :: Def(f, r, c, j) <==> Def(f', r, c, j);
    assert forall c: nat, r :: BlockDefines(f, c, r) <==> BlockDefines(f', c, r);
    assert forall r, p :: DefinedBefore(f, r, p) <==> DefinedBefore(f', r, p);
  }

  lemma FewerEdgesKeepStrict(f: Func, f': Func, live: iset<RegId>)
    requires Strict(f, live) && FewerEdges(f, f')
    ensures Strict(f', live)
  {
    FewerEdgesAvailable(f, f');
    assert forall r, c: nat, j: nat :: Def(f', r, c, j) ==> Def(f, r, c, j);
    forall b: nat, i: nat, r | At(f', b, i) && Matters(live, InstAt(f', b, i)) && r in Uses(InstAt(f', b, i))
      ensures GoodUse(f', live, r, b, i)
    {
      assert At(f, b, i) && GoodUse(f, live, r, b, i);
    }
    forall b: nat, i: nat | At(f', b, i) && Evaluates(InstAt(f', b, i))
      ensures InstAt(f', b, i).dest in live
    {
      assert At(f, b, i);
    }
    forall b: nat, r | b < |f'.blocks| && r in TermUses(f'.blocks[b].term)
      ensures GoodUse(f', live, r, b, |f'.blocks[b].insts|)
    {
      assert GoodUse(f, live, r, b, |f.blocks[b].insts|);
    }
  }

  // ---------------------------------------------------------------- decided branches

  /** A branch on a known value goes where the interpreter would go. */
  ghost predicate Decides(m: Mode, f: Func, live: iset<RegId>, term: Terminator, term': Terminator) {
    && term.CondBranch?
    && exists c :: KnownConst(m, f, live, term.cond, c)
                   && term' == Branch(if ValueOf(c).IsTruthy() then term.thenLabel else term.elseLabel)
  }

  ghost predicate DecidesBranches(m: Mode, f: Func, f': Func, live: iset<RegId>) {
    && f.params == f'.params
    && |f.blocks| == |f'.blocks|
    && (forall b :: 0 <= b < |f.blocks| ==> f.blocks[b].lbl == f'.blocks[b].lbl)
    && (forall b :: 0 <= b < |f.blocks| ==> f.blocks[b].insts == f'.blocks[b].insts)
    && (forall b :: 0 <= b < |f.blocks| ==>
          || f'.blocks[b].term == f.blocks[b].term
          || Decides(m, f, live, f.blocks[b].term, f'.blocks[b].term))
  }

  lemma {:induction false} RunDecided(m: Mode, world: World, f: Func, f': Func, live: iset<RegId>,
                                      lbl: Label, st: State, gas: nat)
    requires Strict(f, live) && DecidesBranches(m, f, f', live) && EntryReady(m, f, live, lbl, st)
    ensures Run(m, world, f.blocks, lbl, st, gas) == Run(m, world, f'.blocks, lbl, st, gas)
    decreases gas
  {
    FewerEdgesFind(f, f');
    if gas > 0 && Find(f.blocks, lbl).Some? {
      var b := Find(f.blocks, lbl).value;
      BlockKeepsInv(m, world, f, live, b, 0, st);
      var e := ExecFrom(m, world, f.blocks[b].insts, 0, st);
      if e.Next? {
        match f.blocks[b].term
        case Branch(l) =>
          TargetReady(m, f, live, b, l, e.st);
          RunDecided(m, world, f, f', live, l, e.st, gas - 1);
        case CondBranch(r, t, el) =>
          assert GoodUse(f, live, r, b, |f.blocks[b].insts|);
          var l := if Get(e.st.regs, r).IsTruthy() then t else el;
          TargetReady(m, f, live, b, l, e.st);
          RunDecided(m, world, f, f', live, l, e.st, gas - 1);
        case _ =>
      }
    }
  }

  // Deciding branches on known values changes no run.
  lemma DecidingIsSound(m: Mode, f: Func, f': Func, live: iset<RegId>)
    requires Strict(f, live) && DecidesBranches(m, f, f', live)
    ensures RefinesFunc(m, f, f') && Strict(f', live)
  {
    FewerEdgesKeepStrict(f, f', live);
    forall world: World, args, globals, trace, gas: nat
      ensures Refines(RunFunc(m, world, f, args, globals, trace, gas),
                      RunFunc(m, world, f', args, globals, trace, gas))
    {
      var st := Enter(f, args, globals, trace);
      StartReady(m, f, live, st);
      RunDecided(m, world, f, f', live, EntryLabel(f.blocks), st, gas);
    }
  }

  // ---------------------------------------------------------------- unreached blocks

  /** A set of labels that a run starting at the entry never leaves. */
  ghost predicate Closed(f: Func, labels: set<Label>) {
    && EntryLabel(f.blocks) in labels
    && forall b :: 0 <= b < |f.blocks| && f.blocks[b].lbl in labels ==> Targets(f.blocks[b].term) <= labels
  }

  /** The positions of the first n blocks whose labels are in the set, in order. */
  function Sources(bs: seq<BasicBlock>, labels: set<Label>, n: nat): (src: seq<nat>)
    requires n <= |bs|
    ensures forall k :: 0 <= k < |src| ==> src[k] < n && bs[src[k]].lbl in labels
  {
    if n == 0 then []
    else Sources(bs, labels, n - 1) + if bs[n - 1].lbl in labels then [n - 1] else []
  }

  ghost predicate Retains(f: Func, f': Func, labels: set<Label>) {
    var src := Sources(f.blocks, labels, |f.blocks|);
    && f.params == f'.params
    && |f'.blocks| == |src|
    && forall k :: 0 <= k < |src| ==> f'.blocks[k] == f.blocks[src[k]]
  }

  ghost predicate Increasing(s: seq<nat>) {
    forall j, k :: 0 <= j < k < |s| ==> s[j] < s[k]
  }

  lemma {:induction false} SourcesOrdered(bs: seq<BasicBlock>, labels: set<Label>, n: nat)
    requires n <= |bs|
    ensures Increasing(Sources(bs, labels, n))
  {
    if n > 0 {
      SourcesOrdered(bs, labels, n - 1);
      AppendKeepsIncreasing(Sources(bs, labels, n - 1), n - 1);
    }
  }

  lemma IncreasingIsInjective(s: seq<nat>, j: nat, k: nat)
    requires Increasing(s) && j < |s| && k < |s| && s[j] == s[k]
    ensures j == k
  {
  }

  lemma AppendKeepsIncreasing(s: seq<nat>, n: nat)
    requires Increasing(s) && forall k :: 0 <= k < |s| ==> s[k] < n
    ensures Increasing(s + [n])
  {
  }

  lemma {:induction false} SourceOf(bs: seq<BasicBlock>, labels: set<Label>, n: nat, i: nat) returns (k: nat)
    requires i < n <= |bs| && bs[i].lbl in labels
    ensures k < |Sources(bs, labels, n)| && Sources(bs, labels, n)[k] == i
  {
    if i == n - 1 {
      k := |Sources(bs, labels, n - 1)|;
    } else {
      k := SourceOf(bs, labels, n - 1, i);
    }
  }

  // Among the retained blocks a retained label names the same block.
  lemma RetainedFind(f: Func, f': Func, labels: set<Label>, lbl: Label)
    requires Retains(f, f', labels) && lbl in labels
    ensures var src := Sources(f.blocks, labels, |f.blocks|);
            match Find(f.blocks, lbl)
            case None => Find(f'.blocks, lbl).None?
            case Some(i) => var k := Find(f'.blocks, lbl); k.Some? && src[k.value] == i
  {
    var src := Sources(f.blocks, labels, |f.blocks|);
    SourcesOrdered(f.blocks, labels, |f.blocks|);
    var found := Find(f.blocks, lbl);
    if found.Some? {
      var k := SourceOf(f.blocks, labels, |f.blocks|, found.value);
      assert f'.blocks[k].lbl == lbl;
      var k' := Find(f'.blocks, lbl).value;
      assert f.blocks[src[k']].lbl == lbl;
    } else {
      assert forall k :: 0 <= k < |src| ==> f'.blocks[k].lbl == f.blocks[src[k]].lbl;
    }
  }

  lemma {:induction false} RunRetained(m: Mode, world: World, f: Func, f': Func, labels: set<Label>,
                                       lbl: Label, st: State, gas: nat)
    requires Retains(f, f', labels) && Closed(f, labels) && lbl in labels
    ensures Run(m, world, f.blocks, lbl, st, gas) == Run(m, world, f'.blocks, lbl, st, gas)
    decreases gas
  {
    RetainedFind(f, f', labels, lbl);
    if gas > 0 && Find(f.blocks, lbl).Some? {
      var block := f.blocks[Find(f.blocks, lbl).value];
      var e := ExecFrom(m, world, block.insts, 0, st);
      if e.Next? {
        match block.term
        case Branch(l) => RunRetained(m, world, f, f', labels, l, e.st, gas - 1);
        case CondBranch(r, t, el) =>
          RunRetained(m, world, f, f', labels, if Get(e.st.regs, r).IsTruthy() then t else el, e.st, gas - 1);
        case _ =>
      }
    }
  }

  lemma SameEntry(f: Func, f': Func, labels: set<Label>)
    requires Retains(f, f', labels) && Closed(f, labels)
    ensures f.blocks != [] ==> f'.blocks != [] && Sources(f.blocks, labels, |f.blocks|)[0] == 0
    ensures EntryLabel(f.blocks) == EntryLabel(f'.blocks)
  {
    if f.blocks != [] {
      SourcesOrdered(f.blocks, labels, |f.blocks|);
      var k := SourceOf(f.blocks, labels, |f.blocks|, 0);
      var src := Sources(f.blocks, labels, |f.blocks|);
      assert forall j :: 0 < j < |src| ==> src[0] < src[j];
    }
  }

  // Retaining a closed set of labels changes no run. It needs no single-definition form.
  lemma RetainingIsSound(m: Mode, f: Func, f': Func, labels: set<Label>)
    requires Retains(f, f', labels) && Closed(f, labels)
    ensures RefinesFunc(m, f, f')
  {
    SameEntry(f, f', labels);
    forall world: World, args, globals, trace, gas: nat
      ensures Refines(RunFunc(m, world, f, args, globals, trace, gas),
                      RunFunc(m, world, f', args, globals, trace, gas))
    {
      RunRetained(m, world, f, f', labels, EntryLabel(f.blocks), Enter(f, args, globals, trace), gas);
    }
  }

  function Mapped(src: seq<nat>, p: seq<nat>): seq<nat>
    requires forall k :: 0 <= k < |p| ==> p[k] < |src|
  {
    seq(|p|, k requires 0 <= k < |p| => src[p[k]])
  }

  lemma RetainedPath(f: Func, f': Func, labels: set<Label>, p: seq<nat>, b: nat)
    requires Retains(f, f', labels) && Closed(f, labels) && PathTo(f', p, b)
    ensures var src := Sources(f.blocks, labels, |f.blocks|);
            PathTo(f, Mapped(src, p), src[b])
  {
    var src := Sources(f.blocks, labels, |f.blocks|);
    SameEntry(f, f', labels);
    var q := Mapped(src, p);
    forall k | 0 < k < |q|
      ensures Successor(f, q[k - 1], q[k])
    {
      assert Successor(f', p[k - 1], p[k]);
      RetainedFind(f, f', labels, f'.blocks[p[k]].lbl);
    }
  }

  lemma RetainedAvailable(f: Func, f': Func, labels: set<Label>, r: RegId, b: nat, i: nat)
    requires Retains(f, f', labels) && Closed(f, labels) && b < |f'.blocks|
    requires Available(f, r, Sources(f.blocks, labels, |f.blocks|)[b], i)
    ensures Available(f', r, b, i)
  {
    var src := Sources(f.blocks, labels, |f.blocks|);
    if j: nat :| j < i && Def(f, r, src[b], j) {
      assert Def(f', r, b, j);
    } else if r !in f.params {
      forall p | PathTo(f', p, b)
        ensures DefinedBefore(f', r, p)
      {
        RetainedPath(f, f', labels, p, b);
        var q := Mapped(src, p);
        var k :| 0 <= k < |q| - 1 && BlockDefines(f, q[k], r);
        var j :| Def(f, r, q[k], j);
        assert Def(f', r, p[k], j);
      }
    }
  }

  lemma RetainingKeepsStrict(f: Func, f': Func, labels: set<Label>, live: iset<RegId>)
    requires Strict(f, live) && Retains(f, f', labels) && Closed(f, labels)
    ensures Strict(f', live)
  {
    var src := Sources(f.blocks, labels, |f.blocks|);
    SourcesOrdered(f.blocks, labels, |f.blocks|);
    assert forall r, b: nat, i: nat :: Def(f', r, b, i) ==> b < |src| && Def(f, r, src[b], i);
    forall r, b: nat, i: nat, c: nat, j: nat | Def(f', r, b, i) && Def(f', r, c, j)
      ensures b == c && i == j
    {
      assert Def(f, r, src[b], i) && Def(f, r, src[c], j);
      IncreasingIsInjective(src, b, c);
    }
    assert forall b: nat, i: nat :: At(f', b, i) ==> At(f, src[b], i) && InstAt(f, src[b], i) == InstAt(f', b, i);
    forall b: nat, i: nat, r | At(f', b, i) && Matters(live, InstAt(f', b, i)) && r in Uses(InstAt(f', b, i))
      ensures GoodUse(f', live, r, b, i)
    {
      assert GoodUse(f, live, r, src[b], i);
      RetainedAvailable(f, f', labels, r, b, i);
    }
    forall b: nat, r | b < |f'.blocks| && r in TermUses(f'.blocks[b].term)
      ensures GoodUse(f', live, r, b, |f'.blocks[b].insts|)
    {
      assert GoodUse(f, live, r, src[b], |f'.blocks[b].insts|);
      RetainedAvailable(f, f', labels, r, b, |f'.blocks[b].insts|);
    }
  }

  // ---------------------------------------------------------------- which blocks are retained

  ghost predicate DistinctLabels(f: Func) {
    forall b, c :: 0 <= b < |f.blocks| && 0 <= c < |f.blocks| && f.blocks[b].lbl == f.blocks[c].lbl ==> b == c
  }

  /** The smallest closed set of labels. */
  ghost predicate SmallestClosed(f: Func, labels: set<Label>) {
    Closed(f, labels) && forall other :: Closed(f, other) ==> labels <= other
  }

  lemma {:induction false} PathStaysInside(f: Func, labels: set<Label>, p: seq<nat>, b: nat)
    requires Closed(f, labels) && PathTo(f, p, b)
    ensures f.blocks[b].lbl in labels
    decreases |p|
  {
    if |p| > 1 {
      var k := |p| - 2;
      PathPrefix(f, p, b, k);
      PathStaysInside(f, labels, p[..k + 1], p[k]);
      assert Successor(f, p[k], p[k + 1]);
    }
  }

  // With distinct labels, the blocks with a label in the smallest closed set are the reachable ones.
  lemma SmallestClosedIsReachable(f: Func, labels: set<Label>, b: nat)
    requires DistinctLabels(f) && SmallestClosed(f, labels) && b < |f.blocks|
    ensures f.blocks[b].lbl in labels <==> Reachable(f, b)
  {
    if p :| PathTo(f, p, b) {
      PathStaysInside(f, labels, p, b);
    }
    var reached := set l | l in labels && forall c: nat :: c < |f.blocks| && f.blocks[c].lbl == l ==> Reachable(f, c);
    assert Closed(f, reached) by {
      assert PathTo(f, [0], 0);
      forall c, l | 0 <= c < |f.blocks| && f.blocks[c].lbl in reached && l in Targets(f.blocks[c].term)
        ensures l in reached
      {
        var p :| PathTo(f, p, c);
        forall d: nat | d < |f.blocks| && f.blocks[d].lbl == l
          ensures Reachable(f, d)
        {
          assert Find(f.blocks, l) == Some(d);
          assert PathTo(f, p + [d], d);
        }
      }
    }
  }
}
