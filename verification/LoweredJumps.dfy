/** Every lowered conditional and every loop has a branch to the next block. */
module LoweredJumps {
  import opened Options
  import opened Mir
  import opened Hir
  import opened Lower
  import opened LowerLabels
  import opened LowerMeaning
  import opened LowerCorrect
  import opened FallThrough

  /** There is a conditional or a loop in the tree, the bodies of blocks aside, which become other functions. */
  predicate Branches(n: Node) {
    match n
    case If(_, _, _) => true
    case Loop(_, _) => true
    case BinaryOp(_, l, r) => Branches(l) || Branches(r)
    case UnaryOp(_, x) => Branches(x)
    case CallNode(_, args) => exists a | a in args :: Branches(a)
    case BlockCall(_, args, _, _, _, _) => exists a | a in args :: Branches(a)
    case Assign(_, v) => Branches(v)
    case ReturnNode(Some(v)) => Branches(v)
    case Sequence(ns) => exists a | a in ns :: Branches(a)
    case _ => false
  }

  ghost predicate FallsThrough(bs: seq<BasicBlock>) {
    exists k: nat :: FallsThroughAt(bs, k)
  }

  predicate FallsThroughAt(bs: seq<BasicBlock>, k: nat) {
    k + 1 < |bs| && bs[k].term == Branch(bs[k + 1].lbl)
  }

  // A block that was finished with a branch to the block opened next.
  lemma TurnFallsThrough(p: Place, b: Builder, lbl: Label)
    requires Fits(p, Turn(b, Branch(lbl), lbl))
    ensures FallsThrough(p.bs)
  {
    TurnGrows(b, Branch(lbl), lbl);
    assert FallsThroughAt(p.bs, |b.blocks|);
  }

  lemma {:induction false} NodeFallsThrough(p: Place, n: Node, b: Builder)
    requires Branches(n) && Fits(p, LowerNode(n, b).0)
    ensures FallsThrough(p.bs)
    decreases n, 1
  {
    hide Fits, Grows, FallsThrough, IfCode, LoopCode, LowerBlockArg, SendToSelf;
    match n
    case If(_, _, _) =>
      IfPathFits(p, n, b);
      TurnFallsThrough(p, PathOfIf(n, b).b5, PathOfIf(n, b).m);
    case Loop(_, _) =>
      LoopPathFits(p, n, b);
      TurnFallsThrough(p, TakeLabels(b, 3), PathOfLoop(n, b).t);
    case BinaryOp(op, l, r) =>
      var (b1, x) := LowerNode(l, b);
      var (b2, y) := LowerNode(r, b1);
      NodeGrows(r, b1);
      EmitGrows(b2, Binary(b2.nextReg, op, x, y), LowerNode(n, b).0);
      FitsEarlier(p, b2, LowerNode(n, b).0);
      FitsEarlier(p, b1, b2);
      if Branches(l) {
        NodeFallsThrough(p, l, b);
      } else {
        NodeFallsThrough(p, r, b1);
      }
    case UnaryOp(op, x) =>
      var (b1, r) := LowerNode(x, b);
      EmitGrows(b1, Unary(b1.nextReg, op, r), LowerNode(n, b).0);
      FitsEarlier(p, b1, LowerNode(n, b).0);
      NodeFallsThrough(p, x, b);
    case CallNode(name, args) =>
      var (b1, rs) := LowerAll(args, b);
      EmitGrows(b1, Call(b1.nextReg, name, rs), LowerNode(n, b).0);
      FitsEarlier(p, b1, LowerNode(n, b).0);
      AllFallThrough(p, args, b);
    case BlockCall(_, args, _, _, _, _) =>
      ArgsFit(p, n, b);
      AllFallThrough(p, args, b);
    case Assign(name, v) =>
      var (b1, r) := LowerNode(v, b);
      EmitGrows(b1, Store(name, r), LowerNode(n, b).0);
      FitsEarlier(p, b1, LowerNode(n, b).0);
      NodeFallsThrough(p, v, b);
    case ReturnNode(Some(v)) =>
      var (b1, r) := LowerNode(v, b);
      AfterReturnGrows(b1, Return(Some(r)));
      FitsEarlier(p, b1, LowerNode(n, b).0);
      NodeFallsThrough(p, v, b);
    case Sequence(ns) => BodyFallsThrough(p, ns, EmitNew(b, LoadConst(b.nextReg, ConstNil)), b.nextReg);
  }

  lemma ArgsFit(p: Place, n: Node, b: Builder)
    requires n.BlockCall? && Fits(p, LowerNode(n, b).0)
    ensures Fits(p, LowerAll(n.args, b).0)
  {
    hide Fits, Grows, LowerBlockArg, SendToSelf;
    var (b1, rs) := LowerAll(n.args, b);
    if n.body == [] {
      EmitGrows(b1, Call(b1.nextReg, n.name, rs), LowerNode(n, b).0);
      FitsEarlier(p, b1, LowerNode(n, b).0);
    } else {
      var (b2, block) := LowerBlockArg(n, b1);
      BlockArgGrows(n, b1);
      SendGrows(b2, n.name, rs, block);
      FitsEarlier(p, b2, LowerNode(n, b).0);
      FitsEarlier(p, b1, b2);
    }
  }

  lemma {:induction false} BodyFallsThrough(p: Place, ns: seq<Node>, b: Builder, last: RegId)
    requires (exists a | a in ns :: Branches(a)) && Fits(p, LowerBody(ns, b, last).0)
    ensures FallsThrough(p.bs)
    decreases ns, 0
  {
    hide Fits, Grows, FallsThrough;
    var (b1, r) := LowerNode(ns[0], b);
    BodyGrows(ns[1..], b1, r);
    FitsEarlier(p, b1, LowerBody(ns, b, last).0);
    if Branches(ns[0]) {
      NodeFallsThrough(p, ns[0], b);
    } else {
      BodyFallsThrough(p, ns[1..], b1, r);
    }
  }

  lemma {:induction false} AllFallThrough(p: Place, ns: seq<Node>, b: Builder)
    requires (exists a | a in ns :: Branches(a)) && Fits(p, LowerAll(ns, b).0)
    ensures FallsThrough(p.bs)
    decreases ns, 0
  {
    hide Fits, Grows, FallsThrough;
    var b1 := LowerNode(ns[0], b).0;
    AllGrow(ns[1..], b1);
    FitsEarlier(p, b1, LowerAll(ns, b).0);
    if Branches(ns[0]) {
      NodeFallsThrough(p, ns[0], b);
    } else {
      AllFallThrough(p, ns[1..], b1);
    }
  }

  // So lowered code has a branch that is cut as soon as there is a conditional or a loop in the tree.
  lemma LoweredHasCut(params: seq<string>, body: seq<Node>)
    requires exists n | n in body :: Branches(n)
    ensures exists k: nat :: IsCut(LowerFunction(params, body), k)
  {
    hide LowerBody, LowerParams, Branches;
    var f := LowerFunction(params, body);
    var p := Place(Mode(false, false, false, false), trace => Answer(Nil, Globals(map[], map[])), f.blocks);
    LoweredIsClosedGraph(params, body);
    assert Fits(p, LowerBody(body, LowerParams(params, |params|), 0).0);
    BodyFallsThrough(p, body, LowerParams(params, |params|), 0);
    var k: nat :| FallsThroughAt(f.blocks, k);
    assert IsCut(f, k);
  }
}
