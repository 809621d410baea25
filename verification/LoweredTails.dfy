/** Bodies that are straight-line code but for conditionals at their end: what their lowered code looks like. */
module LoweredTails {
  import opened Options
  import opened Mir
  import opened Ssa
  import opened Hir
  import opened Lower
  import opened LowerForm
  import opened LowerLabels
  import opened LowerRegs
  import opened LowerMeaning
  import opened LowerCorrect
  import opened LoweredCode
  import opened LostValues
  import opened DeletingPasses
  import opened FallThrough
  import opened SteadyGraph

  /** Expressions, and at the end perhaps a conditional on a name or a call, whose arms are of this kind, too. */
  predicate TailBody(ns: seq<Node>) {
    || ns == []
    || (|ns| == 1 && TailNode(ns[0]))
    || (|ns| > 1 && IsExpr(ns[0]) && TailBody(ns[1..]))
  }

  predicate TailNode(n: Node) {
    || IsExpr(n)
    || (n.If? && (n.cond.VarRef? || n.cond.CallNode?) && IsExpr(n.cond) && TailBody(n.thenBody) && TailBody(n.elseBody))
  }

  // ---------------------------------------------------------------- expressions stay in their block

  lemma {:induction false} ExprStays(n: Node, b: Builder)
    requires IsExpr(n)
    ensures var (b', r) := LowerNode(n, b);
            && b'.blocks == b.blocks && b'.pending == b.pending && b'.nextBlock == b.nextBlock
            && ((n.VarRef? || n.CallNode?) ==>
                  && b'.insts != []
                  && (var last := b'.insts[|b'.insts| - 1]; Dest(last) == Some(r) && (last.Load? || last.Call?)))
    decreases n, 1
  {
    match n
    case BinaryOp(_, left, right) =>
      ExprStays(left, b);
      ExprStays(right, LowerNode(left, b).0);
    case UnaryOp(_, x) => ExprStays(x, b);
    case CallNode(_, args) => AllExprsStay(args, b);
    case Assign(_, v) => ExprStays(v, b);
    case _ =>
  }

  lemma {:induction false} AllExprsStay(ns: seq<Node>, b: Builder)
    requires forall a | a in ns :: IsExpr(a)
    ensures var b' := LowerAll(ns, b).0; b'.blocks == b.blocks && b'.pending == b.pending && b'.nextBlock == b.nextBlock
    decreases ns, 0
  {
    if ns != [] {
      ExprStays(ns[0], b);
      AllExprsStay(ns[1..], LowerNode(ns[0], b).0);
    }
  }

  // ---------------------------------------------------------------- stretches of blocks

  /** From the block of this label on, at most n blocks do nothing but lead to block e. */
  predicate QuietTo(bs: seq<BasicBlock>, lbl: Label, e: nat, n: nat)
    decreases n
  {
    match Find(bs, lbl)
    case None => false
    case Some(j) =>
      j == e || (n > 0 && (forall inst | inst in bs[j].insts :: Pure(inst))
                 && bs[j].term.Branch? && QuietTo(bs, bs[j].term.target, e, n - 1))
  }

  ghost predicate LeadsTo(bs: seq<BasicBlock>, lbl: Label, e: nat) {
    exists n: nat :: QuietTo(bs, lbl, e, n)
  }

  predicate Falls(bs: seq<BasicBlock>, k: nat) {
    k + 1 < |bs| && bs[k].term == Branch(bs[k + 1].lbl)
  }

  /** A branch, or a branch on what the block has loaded or been returned. */
  ghost predicate OpenBranch(block: BasicBlock) {
    || block.term.Branch?
    || (block.term.CondBranch?
        && exists j: nat :: j < |block.insts| && Dest(block.insts[j]) == Some(block.term.cond)
                            && (block.insts[j].Load? || block.insts[j].Call?))
  }

  predicate Edge(bs: seq<BasicBlock>, j: nat, k: nat) {
    j < |bs| && k < |bs| && bs[k].lbl in Targets(bs[j].term)
  }

  /** Some block from lo on leads to block k behind it. */
  ghost predicate Entered(bs: seq<BasicBlock>, lo: nat, k: nat) {
    exists j: nat :: lo <= j < k && Edge(bs, j, k)
  }

  /** Blocks lo to hi: entered at lo, left at hi, and what falls through does nothing more on its way to hi. */
  ghost predicate Tame(bs: seq<BasicBlock>, lo: nat, hi: nat) {
    && lo <= hi < |bs|
    && (forall k: nat :: lo <= k < hi ==> OpenBranch(bs[k]))
    && (forall k: nat :: lo <= k < hi && Falls(bs, k) ==> LeadsTo(bs, bs[k].term.target, hi))
    && (forall k: nat :: lo < k <= hi ==> Entered(bs, lo, k))
  }

  lemma {:induction false} FoundThere(bs: seq<BasicBlock>, k: nat, i: nat)
    requires UniqueLabels(bs) && i <= k < |bs|
    ensures FindFrom(bs, bs[k].lbl, i) == Some(k)
    decreases k - i
  {
    if i < k {
      FoundThere(bs, k, i + 1);
    }
  }

  lemma {:induction false} QuietFurther(bs: seq<BasicBlock>, lbl: Label, e: nat, n: nat, hi: nat)
    requires QuietTo(bs, lbl, e, n) && e < |bs| && bs[e].term.Branch? && Find(bs, bs[e].term.target) == Some(hi)
    requires forall inst | inst in bs[e].insts :: Pure(inst)
    ensures QuietTo(bs, lbl, hi, n + 1)
    decreases n
  {
    var j := Find(bs, lbl).value;
    if j == e {
      assert QuietTo(bs, bs[e].term.target, hi, n);
    } else {
      QuietFurther(bs, bs[j].term.target, e, n - 1, hi);
    }
  }

  // An arm that goes on to a block hi behind it.
  lemma ArmLeadsOn(bs: seq<BasicBlock>, lo: nat, e: nat, hi: nat)
    requires UniqueLabels(bs) && Tame(bs, lo, e) && e < hi < |bs| && bs[e].term == Branch(bs[hi].lbl)
    requires lo < e ==> forall inst | inst in bs[e].insts :: Pure(inst)
    ensures forall k: nat :: lo <= k < e && Falls(bs, k) ==> LeadsTo(bs, bs[k].term.target, hi)
  {
    FoundThere(bs, hi, 0);
    forall k: nat | lo <= k < e && Falls(bs, k)
      ensures LeadsTo(bs, bs[k].term.target, hi)
    {
      assert LeadsTo(bs, bs[k].term.target, e);
      var n: nat :| QuietTo(bs, bs[k].term.target, e, n);
      QuietFurther(bs, bs[k].term.target, e, n, hi);
    }
  }

  /** A conditional in block b, with arms from b + 1 to t and from t + 1 to e, and the merge block e + 1. */
  ghost predicate Diamond(bs: seq<BasicBlock>, b: nat, t: nat, e: nat) {
    && b < t < e && e + 1 < |bs|
    && OpenBranch(bs[b]) && bs[b].term.CondBranch?
    && bs[b].term.thenLabel == bs[b + 1].lbl && bs[b].term.elseLabel == bs[t + 1].lbl
    && bs[t].term == Branch(bs[e + 1].lbl) && bs[e].term == Branch(bs[e + 1].lbl)
    && Tame(bs, b + 1, t) && Tame(bs, t + 1, e)
    && (b + 1 < t ==> forall inst | inst in bs[t].insts :: Pure(inst))
    && (t + 1 < e ==> forall inst | inst in bs[e].insts :: Pure(inst))
  }

  lemma DiamondIsEntered(bs: seq<BasicBlock>, b: nat, t: nat, e: nat, k: nat)
    requires Diamond(bs, b, t, e) && b < k <= e + 1
    ensures Entered(bs, b, k)
  {
    if k == b + 1 || k == t + 1 {
      assert Edge(bs, b, k);
    } else if k == e + 1 {
      assert Edge(bs, e, k);
    } else if k <= t {
      assert Entered(bs, b + 1, k);
    } else {
      assert Entered(bs, t + 1, k);
    }
  }

  // The end of the first arm goes past the second.
  lemma FirstArmDoesNotFall(bs: seq<BasicBlock>, b: nat, t: nat, e: nat)
    requires UniqueLabels(bs) && Diamond(bs, b, t, e)
    ensures !Falls(bs, b) && !Falls(bs, t)
  {
    hide Tame, OpenBranch;
    assert bs[t + 1].lbl != bs[e + 1].lbl;
  }

  lemma DiamondLeadsOn(bs: seq<BasicBlock>, b: nat, t: nat, e: nat, k: nat)
    requires UniqueLabels(bs) && Diamond(bs, b, t, e) && b <= k <= e && Falls(bs, k)
    ensures LeadsTo(bs, bs[k].term.target, e + 1)
  {
    hide OpenBranch, LeadsTo, UniqueLabels, Tame;
    FirstArmDoesNotFall(bs, b, t, e);
    if k == e {
      FoundThere(bs, e + 1, 0);
      QuietHere(bs, bs[e].term.target, e + 1);
    } else if k < t {
      ArmLeadsOn(bs, b + 1, t, e + 1);
    } else {
      ArmLeadsOn(bs, t + 1, e, e + 1);
    }
  }

  lemma QuietHere(bs: seq<BasicBlock>, lbl: Label, e: nat)
    requires Find(bs, lbl) == Some(e)
    ensures LeadsTo(bs, lbl, e)
  {
    assert QuietTo(bs, lbl, e, 0);
  }

  lemma DiamondIsTame(bs: seq<BasicBlock>, b: nat, t: nat, e: nat)
    requires UniqueLabels(bs) && Diamond(bs, b, t, e)
    ensures Tame(bs, b, e + 1)
  {
    hide LeadsTo, Entered;
    forall k: nat | b < k <= e + 1
      ensures Entered(bs, b, k)
    {
      DiamondIsEntered(bs, b, t, e, k);
    }
    forall k: nat | b <= k < e + 1 && Falls(bs, k)
      ensures LeadsTo(bs, bs[k].term.target, e + 1)
    {
      DiamondLeadsOn(bs, b, t, e, k);
    }
  }

  // ---------------------------------------------------------------- lowered code

  /**
    What lowering has added to b lies tame in the finished code, and ends in the copy of a result if it has blocks of
    its own.
   */
  ghost predicate TailCode(bs: seq<BasicBlock>, b: Builder, b2: Builder, r: RegId) {
    && Tame(bs, |b.blocks|, |b2.blocks|)
    && (|b2.blocks| > |b.blocks| ==> exists s: RegId :: b2.insts == [Copy(r, s)])
  }

  lemma {:induction false} TailBodyIsTame(p: Place, ns: seq<Node>, b: Builder, last: RegId)
    requires UniqueLabels(p.bs) && TailBody(ns) && Fits(p, LowerBody(ns, b, last).0)
    ensures TailCode(p.bs, b, LowerBody(ns, b, last).0, LowerBody(ns, b, last).1)
    decreases ns, 0
  {
    if ns != [] {
      var (b1, r) := LowerNode(ns[0], b);
      if |ns| == 1 {
        assert ns[1..] == [] && LowerBody(ns, b, last) == (b1, r);
        TailNodeIsTame(p, ns[0], b);
      } else {
        ExprStays(ns[0], b);
        TailBodyIsTame(p, ns[1..], b1, r);
      }
    }
  }

  lemma {:induction false} TailNodeIsTame(p: Place, n: Node, b: Builder)
    requires UniqueLabels(p.bs) && TailNode(n) && Fits(p, LowerNode(n, b).0)
    ensures TailCode(p.bs, b, LowerNode(n, b).0, LowerNode(n, b).1)
    decreases n, 1
  {
    hide LowerNode, Fits, Diamond;
    if IsExpr(n) {
      ExprIsTame(p, n, b);
    } else {
      var w := PathOfIf(n, b);
      IfIsDiamond(p, n, b);
      DiamondIsTame(p.bs, |b.blocks|, |w.b3.blocks|, |w.b5.blocks|);
      MergeBlock(p, n, b);
    }
  }

  lemma ExprIsTame(p: Place, n: Node, b: Builder)
    requires IsExpr(n) && Fits(p, LowerNode(n, b).0)
    ensures TailCode(p.bs, b, LowerNode(n, b).0, LowerNode(n, b).1)
  {
    hide LowerNode, IsExpr;
    ExprStays(n, b);
  }

  lemma MergeBlock(p: Place, n: Node, b: Builder)
    requires n.If? && Fits(p, LowerNode(n, b).0)
    ensures var w := PathOfIf(n, b);
            var (b2, r) := LowerNode(n, b);
            |b2.blocks| == |w.b5.blocks| + 1 && b2.insts == [Copy(r, w.r)]
  {
    hide LowerNode, LowerBody, Fits;
    IfPathFits(p, n, b);
  }

  lemma {:induction false} IfIsDiamond(p: Place, n: Node, b: Builder)
    requires UniqueLabels(p.bs) && TailNode(n) && !IsExpr(n) && Fits(p, LowerNode(n, b).0)
    ensures var w := PathOfIf(n, b); Diamond(p.bs, |b.blocks|, |w.b3.blocks|, |w.b5.blocks|)
    decreases n, 0
  {
    hide LowerNode, LowerBody, Fits, Tame;
    var w := PathOfIf(n, b);
    IfPathFits(p, n, b);
    ExprStays(n.cond, b);
    var start := EmitNew(w.b2, LoadConst(w.b2.nextReg, ConstNil));
    var start' := EmitNew(w.b4, LoadConst(w.b4.nextReg, ConstNil));
    TailBodyIsTame(p, n.thenBody, start, w.b2.nextReg);
    TailBodyIsTame(p, n.elseBody, start', w.b4.nextReg);
    TurnGrows(TakeLabels(w.b1, 3), CondBranch(w.c, w.t, w.e), w.t);
    TurnGrows(w.b3, Branch(w.m), w.e);
    TurnGrows(w.b5, Branch(w.m), w.m);
    StartsAt(p, w.b2);
    StartsAt(p, w.b4);
    StartsAt(p, w.b6);
    assert w.b1.insts[|w.b1.insts| - 1] == p.bs[|b.blocks|].insts[|w.b1.insts| - 1];
    TameIsOrdered(p.bs, |w.b2.blocks|, |w.b3.blocks|);
    TameIsOrdered(p.bs, |w.b4.blocks|, |w.b5.blocks|);
  }

  lemma TameIsOrdered(bs: seq<BasicBlock>, lo: nat, hi: nat)
    requires Tame(bs, lo, hi)
    ensures lo <= hi < |bs|
  {
  }

  lemma StartsAt(p: Place, b: Builder)
    requires Fits(p, b) && b.pending.Some?
    ensures |b.blocks| < |p.bs| && p.bs[|b.blocks|].lbl == b.pending.value
  {
  }

  // ---------------------------------------------------------------- the function

  lemma {:induction false} TameIsReached(f: Func, hi: nat, k: nat)
    requires UniqueLabels(f.blocks) && Tame(f.blocks, 0, hi) && k <= hi
    ensures Reachable(f, k)
  {
    hide OpenBranch, LeadsTo;
    if k == 0 {
      assert PathTo(f, [0], 0);
    } else {
      assert Entered(f.blocks, 0, k);
      var j: nat :| j < k && Edge(f.blocks, j, k);
      TameIsReached(f, hi, j);
      ReachedNext(f, j, k);
    }
  }

  lemma ReachedNext(f: Func, j: nat, k: nat)
    requires UniqueLabels(f.blocks) && Edge(f.blocks, j, k) && Reachable(f, j)
    ensures Reachable(f, k)
  {
    FoundThere(f.blocks, k, 0);
    var p :| PathTo(f, p, j);
    assert PathTo(f, p + [k], k);
  }

  lemma {:induction false} QuietToEnd(f: Func, bs: seq<BasicBlock>, lbl: Label, e: nat, n: nat)
    requires QuietTo(bs, lbl, e, n) && |bs| == |f.blocks| && e < |bs|
    requires forall k :: 0 <= k < |bs| ==> f.blocks[k].lbl == bs[k].lbl && f.blocks[k].insts == bs[k].insts
    requires forall k :: 0 <= k < |bs| && bs[k].term.Branch? ==> f.blocks[k].term == bs[k].term
    requires f.blocks[e].term == Return(None) && forall inst | inst in bs[e].insts :: Pure(inst)
    ensures Quiet(f, lbl, n)
    decreases n
  {
    SameLabelsFindFrom(f.blocks, bs, lbl, 0);
    var j := Find(bs, lbl).value;
    if j != e {
      QuietToEnd(f, bs, bs[j].term.target, e, n - 1);
    }
  }

  /** The code of the body before its end is finished. */
  function BodyCode(params: seq<string>, body: seq<Node>): (Builder, RegId) {
    LowerBody(body, LowerParams(params, |params|), 0)
  }

  lemma {:induction false} ParamsHaveNoBlocks(params: seq<string>, i: nat)
    requires i <= |params|
    ensures LowerParams(params, i).blocks == [] && LowerParams(params, i).pending == None
  {
    if i > 0 {
      ParamsHaveNoBlocks(params, i - 1);
    }
  }

  lemma LoweredTailCode(params: seq<string>, body: seq<Node>)
    requires TailBody(body)
    ensures var f := LowerFunction(params, body);
            var (b, last) := BodyCode(params, body);
            && UniqueLabels(f.blocks) && |f.blocks| == |b.blocks| + 1 && f.blocks[..|b.blocks|] == b.blocks
            && f.blocks[|b.blocks|]
               == BasicBlock(OpenLabel(b), b.insts, Return(if body == [] then None else Some(last)))
            && Tame(f.blocks, 0, |b.blocks|)
            && (|b.blocks| > 0 ==> exists s: RegId :: b.insts == [Copy(last, s)])
  {
    hide LowerBody, TailBody, Tame;
    var f := LowerFunction(params, body);
    var (b, last) := BodyCode(params, body);
    var p := Place(Mode(false, false, false, false), trace => Answer(Nil, Globals(map[], map[])), f.blocks);
    ParamsHaveNoBlocks(params, |params|);
    LoweredIsClosedGraph(params, body);
    assert Fits(p, b);
    TailBodyIsTame(p, body, LowerParams(params, |params|), 0);
  }

  // The branches of such a body depend on nothing that could become a constant, and every block is reached.
  lemma TailsAreSteady(params: seq<string>, body: seq<Node>)
    requires TailBody(body)
    ensures Undecided(LowerFunction(params, body)) && EveryBlockReached(LowerFunction(params, body))
  {
    hide TailBody, LowerFunction, BodyCode;
    var f, b := LowerFunction(params, body), BodyCode(params, body).0;
    LoweredTailCode(params, body);
    LoweredDefinesOnce(params, body);
    forall k | 0 <= k < |f.blocks|
      ensures Reachable(f, k)
    {
      TameIsReached(f, |b.blocks|, k);
    }
    forall k: nat, c: nat, j: nat |
      k < |f.blocks| && f.blocks[k].term.CondBranch? && Def(f, f.blocks[k].term.cond, c, j)
      ensures InstAt(f, c, j).Load? || InstAt(f, c, j).Call?
    {
      assert OpenBranch(f.blocks[k]);
      var i: nat :| i < |f.blocks[k].insts| && Dest(f.blocks[k].insts[i]) == Some(f.blocks[k].term.cond)
                    && (f.blocks[k].insts[i].Load? || f.blocks[k].insts[i].Call?);
      assert Def(f, f.blocks[k].term.cond, k, i);
    }
  }

  // With the value of the conditional at the end masked, every branch to the next block only leads to the end.
  lemma TailsAreHarmless(params: seq<string>, body: seq<Node>)
    requires TailBody(body)
    ensures var f := LowerFunction(params, body); HarmlessCuts(Mask(f, NotCopied(f)))
  {
    hide TailBody, LowerFunction, BodyCode;
    var f := LowerFunction(params, body);
    var (b, last) := BodyCode(params, body);
    var masked := Mask(f, NotCopied(f));
    LoweredTailCode(params, body);
    forall k: nat | IsCut(masked, k)
      ensures QuietSometime(masked, masked.blocks[k].term.target)
    {
      assert Falls(f.blocks, k) && LeadsTo(f.blocks, f.blocks[k].term.target, |b.blocks|);
      var n: nat :| QuietTo(f.blocks, f.blocks[k].term.target, |b.blocks|, n);
      assert b.insts[0].Copy? && Def(f, last, |b.blocks|, 0) && InstAt(f, |b.blocks|, 0).Copy?;
      QuietToEnd(masked, f.blocks, f.blocks[k].term.target, |b.blocks|, n);
    }
  }

  // Without a conditional there is one block, and nothing to cut.
  lemma StraightLineIsHarmless(params: seq<string>, body: seq<Node>)
    requires forall n | n in body :: IsExpr(n)
    ensures |LowerFunction(params, body).blocks| == 1 && HarmlessCuts(LowerFunction(params, body))
  {
    ParamsHaveNoBlocks(params, |params|);
    BodyStays(body, LowerParams(params, |params|), 0);
  }

  lemma {:induction false} BodyStays(ns: seq<Node>, b: Builder, last: RegId)
    requires forall n | n in ns :: IsExpr(n)
    ensures LowerBody(ns, b, last).0.blocks == b.blocks
    decreases ns
  {
    if ns != [] {
      ExprStays(ns[0], b);
      BodyStays(ns[1..], LowerNode(ns[0], b).0, LowerNode(ns[0], b).1);
    }
  }

  lemma {:induction false} StraightLineIsTail(ns: seq<Node>)
    requires forall n | n in ns :: IsExpr(n)
    ensures TailBody(ns)
    decreases ns
  {
    if |ns| > 1 {
      StraightLineIsTail(ns[1..]);
    }
  }
}
