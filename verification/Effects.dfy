/**
  What the rewriting passes change and what they leave, instruction by instruction: in terms of the
  instructions that stand before, not of the tables the passes keep.
 */
module Effects {
  import opened Ints
  import opened Options
  import opened Mir
  import opened Ssa
  import opened Rewriting
  import opened Scan
  import opened Folding
  import opened Improvement
  import opened RewritingPasses
  import opened BranchPasses
  import opened Fusion
  import opened Peephole

  // ---------------------------------------------------------------- the constant last loaded

  predicate LoadsAt(f: Func, r: RegId, b: nat, i: nat) {
    At(f, b, i) && InstAt(f, b, i).LoadConst? && InstAt(f, b, i).dest == r
  }

  /** (c, j) is the last place before (b, i) where a constant is loaded into r. */
  ghost predicate LastLoadAt(f: Func, r: RegId, b: nat, i: nat, c: nat, j: nat) {
    && LoadsAt(f, r, c, j) && Before(c, j, b, i)
    && forall d: nat, k: nat :: LoadsAt(f, r, d, k) && Before(d, k, b, i) ==> !Before(c, j, d, k)
  }

  /** The constant last loaded into r before (b, i) is k. */
  ghost predicate LastLoaded(f: Func, r: RegId, b: nat, i: nat, k: Const) {
    exists c: nat, j: nat :: LastLoadAt(f, r, b, i, c, j) && InstAt(f, c, j).c == k
  }

  // Where a constant has been loaded, one was loaded last.
  lemma {:induction false} SomeLastLoad(f: Func, r: RegId, b: nat, i: nat, c: nat, j: nat) returns (k: Const)
    requires LoadsAt(f, r, c, j) && Before(c, j, b, i) && b <= |f.blocks|
    ensures LastLoaded(f, r, b, i, k)
    decreases b - c, if c < |f.blocks| then |f.blocks[c].insts| - j else 0
  {
    if d: nat, l: nat :| LoadsAt(f, r, d, l) && Before(d, l, b, i) && Before(c, j, d, l) {
      k := SomeLastLoad(f, r, b, i, d, l);
    } else {
      k := InstAt(f, c, j).c;
      assert LastLoadAt(f, r, b, i, c, j);
    }
  }

  ghost predicate TableSays(known: Constants, f: Func, b: nat, i: nat) {
    forall r, k :: (r in known && known[r] == k) <==> LastLoaded(f, r, b, i, k)
  }

  // After an instruction: its constant if it loads one into r, and otherwise what it was before.
  lemma LoadedAfter(f: Func, b: nat, i: nat, r: RegId, k: Const)
    requires At(f, b, i)
    ensures LastLoaded(f, r, b, i + 1, k)
            <==> if LoadsAt(f, r, b, i) then InstAt(f, b, i).c == k else LastLoaded(f, r, b, i, k)
  {
    forall c: nat, j: nat
      ensures Before(c, j, b, i + 1) <==> Before(c, j, b, i) || (c == b && j == i)
    {
    }
    if LoadsAt(f, r, b, i) {
      assert LastLoadAt(f, r, b, i + 1, b, i);
    } else {
      assert forall c: nat, j: nat :: LastLoadAt(f, r, b, i + 1, c, j) <==> LastLoadAt(f, r, b, i, c, j);
    }
  }

  lemma LoadedOnEntry(f: Func, b: nat, r: RegId, k: Const)
    requires b < |f.blocks|
    ensures LastLoaded(f, r, b + 1, 0, k) <==> LastLoaded(f, r, b, |f.blocks[b].insts|, k)
  {
    var n := |f.blocks[b].insts|;
    assert forall c: nat, j: nat :: At(f, c, j) ==> (Before(c, j, b + 1, 0) <==> Before(c, j, b, n));
    assert forall c: nat, j: nat :: LastLoadAt(f, r, b + 1, 0, c, j) <==> LastLoadAt(f, r, b, n, c, j);
  }

  // The table of constants that a scan keeps knows exactly the constants last loaded.
  lemma {:induction false} TableIsLastLoaded(f: Func, g: Func, b: nat, i: nat)
    requires SameShape(f, g) && b < |f.blocks| && i <= |f.blocks[b].insts|
    ensures TableSays(TableAt(LearnConst, map[], Unchanged, f, g, b, i), g, b, i)
    decreases b, i
  {
    var known := TableAt(LearnConst, map[], Unchanged, f, g, b, i);
    if i > 0 {
      TableIsLastLoaded(f, g, b, i - 1);
      assert At(g, b, i - 1);
      forall r, k
        ensures (r in known && known[r] == k) <==> LastLoaded(g, r, b, i, k)
      {
        LoadedAfter(g, b, i - 1, r, k);
      }
    } else if b > 0 {
      TableIsLastLoaded(f, g, b - 1, |f.blocks[b - 1].insts|);
      forall r, k
        ensures (r in known && known[r] == k) <==> LastLoaded(g, r, b, 0, k)
      {
        LoadedOnEntry(g, b - 1, r, k);
      }
    }
  }

  // Where constants are learned from what was there, they are those last loaded there.
  lemma {:induction false} LoadedTable(f: Func, g: Func, b: nat, i: nat)
    requires SameShape(f, g) && b < |f.blocks| && i <= |f.blocks[b].insts|
    ensures TableSays(TableAt(LearnLoaded, map[], Unchanged, f, g, b, i), f, b, i)
    decreases b, i
  {
    var known := TableAt(LearnLoaded, map[], Unchanged, f, g, b, i);
    if i > 0 {
      LoadedTable(f, g, b, i - 1);
      assert At(f, b, i - 1);
      forall r, k
        ensures (r in known && known[r] == k) <==> LastLoaded(f, r, b, i, k)
      {
        LoadedAfter(f, b, i - 1, r, k);
      }
    } else if b > 0 {
      LoadedTable(f, g, b - 1, |f.blocks[b - 1].insts|);
      forall r, k
        ensures (r in known && known[r] == k) <==> LastLoaded(f, r, b, 0, k)
      {
        LoadedOnEntry(f, b - 1, r, k);
      }
    }
  }

  // ---------------------------------------------------------------- constant folding

  /** The operations on constants that are evaluated at compile time. */
  predicate Foldable(op: BinOp, l: Const, r: Const) {
    || (l.ConstInteger? && r.ConstInteger? && op != Cmp && op != And && op != Or
        && !((op == Div || op == Mod) && r.i == 0))
    || (l.ConstBool? && r.ConstBool? && (op == And || op == Or || op == Eq || op == NotEq))
    || (l.ConstString? && r.ConstString? && (op == Add || op == Eq || op == NotEq))
  }

  /** The constant is the value of the operation, but two equal booleans are found equal. */
  predicate IsResult(op: BinOp, l: Const, r: Const, c: Const) {
    ValueOf(c) == if BooleanEquality(op, ValueOf(l), ValueOf(r)) then Bool(op == Eq)
                  else EvalBinary(op, ValueOf(l), ValueOf(r))
  }

  lemma FoldsExactly(op: BinOp, l: Const, r: Const)
    ensures !FoldBinop(op, l, r).Unfolded? <==> Foldable(op, l, r)
    ensures FoldBinop(op, l, r).Folded? ==> IsResult(op, l, r, FoldBinop(op, l, r).c)
  {
    FoldableExactly(op, l, r);
    if FoldBinop(op, l, r).Folded? {
      var c := FoldBinop(op, l, r).c;
      FoldAgreesExactly(op, l, r, c);
      if BooleanEquality(op, ValueOf(l), ValueOf(r)) {
        hide EvalIntegers, FoldIntegers;
        assert c == ConstBool(op == Eq);
      }
    }
    hide EvalBinary, FoldBinop, Foldable;
  }

  lemma FoldableExactly(op: BinOp, l: Const, r: Const)
    ensures !FoldBinop(op, l, r).Unfolded? <==> Foldable(op, l, r)
  {
    if l.ConstInteger? && r.ConstInteger? {
      IntegersFoldable(op, l.i, r.i);
    }
    hide FoldIntegers;
  }

  lemma IntegersFoldable(op: BinOp, a: Int64, b: Int64)
    ensures !FoldIntegers(op, a, b).Unfolded? <==> Foldable(op, ConstInteger(a), ConstInteger(b))
  {
    hide Wrap, Quotient, Remainder, Power, ShiftLeft, ShiftRight, Combine;
  }

  predicate UnaryFoldable(op: UnOp, v: Const) {
    match op
    case Neg => v.ConstInteger?
    case Not => v.ConstBool? || v.ConstNil?
    case BitNot => v.ConstInteger?
  }

  // A foldable operation on constants last loaded becomes its result, and nothing else changes.
  lemma FoldingEffect(checks: bool, f: Func, g: Func, b: nat, i: nat)
    requires FoldsConstants(checks, f, g) && At(f, b, i)
    ensures var was, now := InstAt(f, b, i), InstAt(g, b, i);
            match was
            case Binary(d, op, l, r) =>
              && (forall lc, rc :: LastLoaded(g, l, b, i, lc) && LastLoaded(g, r, b, i, rc) && Foldable(op, lc, rc)
                    ==> now.LoadConst? && now.dest == d && IsResult(op, lc, rc, now.c))
              && (now == was || exists lc, rc ::
                    LastLoaded(g, l, b, i, lc) && LastLoaded(g, r, b, i, rc) && Foldable(op, lc, rc))
            case Unary(d, op, s) =>
              && (forall c :: LastLoaded(g, s, b, i, c) && UnaryFoldable(op, c)
                    ==> now.LoadConst? && now.dest == d && ValueOf(now.c) == EvalUnary(op, ValueOf(c)))
              && (now == was || exists c :: LastLoaded(g, s, b, i, c) && UnaryFoldable(op, c))
            case _ => now == was
  {
    hide LastLoaded, FoldInst, Foldable, IsResult, UnaryFoldable, ValueOf, EvalUnary;
    var known := TableAt(LearnConst, map[], Unchanged, f, g, b, i);
    TableIsLastLoaded(f, g, b, i);
    assert FoldInst(checks, known, InstAt(f, b, i)) == Some(InstAt(g, b, i)) by {
      assert Folder(checks)(known, InstAt(f, b, i)) == Some(InstAt(g, b, i));
    }
    FoldsAsKnown(checks, known, InstAt(f, b, i), InstAt(g, b, i));
    match InstAt(f, b, i)
    case Binary(_, op, l, r) =>
      assert l in known ==> LastLoaded(g, l, b, i, known[l]);
      assert r in known ==> LastLoaded(g, r, b, i, known[r]);
    case Unary(_, op, s) => assert s in known ==> LastLoaded(g, s, b, i, known[s]);
    case _ =>
  }

  lemma FoldsAsKnown(checks: bool, known: Constants, was: Inst, now: Inst)
    requires FoldInst(checks, known, was) == Some(now)
    ensures match was
            case Binary(d, op, l, r) =>
              if l in known && r in known && Foldable(op, known[l], known[r])
              then now.LoadConst? && now.dest == d && IsResult(op, known[l], known[r], now.c) else now == was
            case Unary(d, op, s) =>
              if s in known && UnaryFoldable(op, known[s])
              then now.LoadConst? && now.dest == d && ValueOf(now.c) == EvalUnary(op, ValueOf(known[s])) else now == was
            case _ => now == was
  {
    match was
    case Binary(_, op, l, r) =>
      hide FoldBinop, Foldable, IsResult;
      if l in known && r in known {
        FoldsExactly(op, known[l], known[r]);
      }
    case _ =>
  }

  // ---------------------------------------------------------------- constant propagation

  // A copy of a constant last loaded loads that constant, and nothing else changes.
  lemma PropagationEffect(f: Func, g: Func, b: nat, i: nat)
    requires PropagatesConstants(f, g) && At(f, b, i)
    ensures var was, now := InstAt(f, b, i), InstAt(g, b, i);
            && (forall c :: was.Copy? && LastLoaded(g, was.src, b, i, c) ==> now == LoadConst(was.dest, c))
            && (now == was || (was.Copy? && exists c :: LastLoaded(g, was.src, b, i, c)))
  {
    hide LastLoaded;
    TableIsLastLoaded(f, g, b, i);
    var known := TableAt(LearnConst, map[], Unchanged, f, g, b, i);
    assert PropagateInst(known, InstAt(f, b, i)) == Some(InstAt(g, b, i));
    if InstAt(f, b, i).Copy? && InstAt(f, b, i).src in known {
      assert LastLoaded(g, InstAt(f, b, i).src, b, i, known[InstAt(f, b, i).src]);
    }
  }

  // ---------------------------------------------------------------- common subexpressions

  /** (c, j) is the last place before (b, i) that computes what p computes. */
  ghost predicate LastSameAt(g: Func, p: Inst, b: nat, i: nat, c: nat, j: nat) {
    && At(g, c, j) && Before(c, j, b, i) && SameOperation(p, InstAt(g, c, j))
    && forall d: nat, k: nat :: At(g, d, k) && Before(d, k, b, i) && SameOperation(p, InstAt(g, d, k))
         ==> !Before(c, j, d, k)
  }

  ghost predicate LastSame(g: Func, p: Inst, b: nat, i: nat, r: RegId) {
    exists c: nat, j: nat :: LastSameAt(g, p, b, i, c, j) && InstAt(g, c, j).dest == r
  }

  lemma KeysAreOperations(p: Inst, q: Inst)
    requires p.Binary? && q.Binary?
    ensures Key(p) == Key(q) <==> SameOperation(p, q)
  {
  }

  lemma {:induction false} SeenIsLastSame(f: Func, g: Func, b: nat, i: nat, p: Inst, r: RegId)
    requires SameShape(f, g) && b < |f.blocks| && i <= |f.blocks[b].insts| && p.Binary?
    ensures var seen := TableAt(LearnBinary, map[], Unchanged, f, g, b, i);
            (Key(p) in seen && seen[Key(p)] == r) <==> LastSame(g, p, b, i, r)
    decreases b, i
  {
    hide Key;
    if i > 0 {
      SeenIsLastSame(f, g, b, i - 1, p, r);
      assert At(g, b, i - 1);
      assert forall c: nat, j: nat :: Before(c, j, b, i) <==> Before(c, j, b, i - 1) || (c == b && j == i - 1);
      var now := InstAt(g, b, i - 1);
      if now.Binary? {
        KeysAreOperations(p, now);
      }
      if SameOperation(p, now) {
        assert LastSameAt(g, p, b, i, b, i - 1);
      } else {
        assert forall c: nat, j: nat :: LastSameAt(g, p, b, i, c, j) <==> LastSameAt(g, p, b, i - 1, c, j);
      }
    } else if b > 0 {
      var n := |f.blocks[b - 1].insts|;
      SeenIsLastSame(f, g, b - 1, n, p, r);
      assert forall c: nat, j: nat :: At(g, c, j) ==> (Before(c, j, b, 0) <==> Before(c, j, b - 1, n));
      assert forall c: nat, j: nat :: LastSameAt(g, p, b, 0, c, j) <==> LastSameAt(g, p, b - 1, n, c, j);
    }
  }

  // An operation that stands before, whatever block it is in, is not computed again; nothing else changes.
  lemma ReuseEffect(f: Func, g: Func, b: nat, i: nat)
    requires ReusesResults(f, g) && At(f, b, i)
    ensures var was, now := InstAt(f, b, i), InstAt(g, b, i);
            && (forall r :: was.Binary? && LastSame(g, was, b, i, r) ==> now == Copy(was.dest, r))
            && (now == was || (was.Binary? && exists r :: LastSame(g, was, b, i, r)))
  {
    hide LastSame, Key;
    var was := InstAt(f, b, i);
    var seen := TableAt(LearnBinary, map[], Unchanged, f, g, b, i);
    assert ReuseInst(seen, was) == Some(InstAt(g, b, i));
    if was.Binary? {
      forall r
        ensures (Key(was) in seen && seen[Key(was)] == r) <==> LastSame(g, was, b, i, r)
      {
        SeenIsLastSame(f, g, b, i, was, r);
      }
      if Key(was) in seen {
        assert LastSame(g, was, b, i, seen[Key(was)]);
      }
    }
  }

  // ---------------------------------------------------------------- branches

  // A branch on a constant, the last loaded in the whole function, goes where it leads; nothing else changes.
  lemma BranchEffect(f: Func, g: Func, b: nat)
    requires FoldsBranches(f, g) && b < |f.blocks|
    ensures var n, was, now := |f.blocks|, f.blocks[b].term, g.blocks[b].term;
            && g.blocks[b].lbl == f.blocks[b].lbl && g.blocks[b].insts == f.blocks[b].insts
            && (forall c :: was.CondBranch? && LastLoaded(f, was.cond, n, 0, c) ==>
                  now == Branch(if c == ConstBool(false) || c == ConstNil then was.elseLabel else was.thenLabel))
            && (now == was || (was.CondBranch? && exists c :: LastLoaded(f, was.cond, n, 0, c)))
  {
    hide LastLoaded;
    var n: nat, was, known := |f.blocks|, f.blocks[b].term, AllConstants(f);
    TableIsLastLoaded(f, f, n - 1, |f.blocks[n - 1].insts|);
    forall r: RegId, k
      ensures (r in known && known[r] == k) <==> LastLoaded(f, r, n, 0, k)
    {
      LoadedOnEntry(f, n - 1, r, k);
    }
    if was.CondBranch? && was.cond in known {
      assert LastLoaded(f, was.cond, n, 0, known[was.cond]);
    }
  }

  // ---------------------------------------------------------------- fusion of strings, and identities

  // A concatenation of two string constants last loaded loads the whole string; nothing else changes.
  lemma StringFusionEffect(f: Func, g: Func, b: nat, i: nat)
    requires FusesStrings(f, g) && At(f, b, i)
    ensures var was, now := InstAt(f, b, i), InstAt(g, b, i);
            && (forall s, t :: was.Binary? && was.op == Add && LastLoaded(f, was.left, b, i, ConstString(s))
                               && LastLoaded(f, was.right, b, i, ConstString(t))
                  ==> now == LoadConst(was.dest, ConstString(s + t)))
            && (now == was || (was.Binary? && was.op == Add && exists s, t ::
                  LastLoaded(f, was.left, b, i, ConstString(s)) && LastLoaded(f, was.right, b, i, ConstString(t))))
  {
    hide LastLoaded;
    LoadedTable(f, g, b, i);
    var known, was := TableAt(LearnLoaded, map[], Unchanged, f, g, b, i), InstAt(f, b, i);
    assert FuseStrings(known, was) == Some(InstAt(g, b, i));
    if InstAt(g, b, i) != was {
      assert LastLoaded(f, was.left, b, i, ConstString(known[was.left].s));
      assert LastLoaded(f, was.right, b, i, ConstString(known[was.right].s));
    }
  }

  /** 0 on the right of + and -, and 1 on the right of * and /. */
  predicate IsNeutral(op: BinOp, c: Const) {
    (c == ConstInteger(0) && (op == Add || op == Sub)) || (c == ConstInteger(1) && (op == Mul || op == Div))
  }

  // An operation with a neutral constant on the right becomes a copy of what is on the left.
  lemma IdentityEffect(f: Func, g: Func, b: nat, i: nat)
    requires SimplifiesIdentities(f, g) && At(f, b, i)
    ensures var was, now := InstAt(f, b, i), InstAt(g, b, i);
            && (forall c :: was.Binary? && LastLoaded(f, was.right, b, i, c) && IsNeutral(was.op, c)
                  ==> now == Copy(was.dest, was.left))
            && (now == was || (was.Binary? && exists c :: LastLoaded(f, was.right, b, i, c) && IsNeutral(was.op, c)))
  {
    hide LastLoaded;
    LoadedTable(f, g, b, i);
    var known, was := TableAt(LearnLoaded, map[], Unchanged, f, g, b, i), InstAt(f, b, i);
    assert SimplifyIdentity(known, was) == Some(InstAt(g, b, i));
    if InstAt(g, b, i) != was {
      assert LastLoaded(f, was.right, b, i, known[was.right]);
    }
  }

  // ---------------------------------------------------------------- fusion of integers

  /** The operations that fusion evaluates: those on integers, but shifts. */
  predicate Fusible(op: BinOp, b: Int64) {
    op != And && op != Or && op != Shl && op != Shr && !((op == Div || op == Mod) && b == 0)
  }

  /** The integer last loaded into r in this block. */
  ghost predicate LoadedHere(f: Func, r: RegId, b: nat, i: nat, v: Int64) {
    exists j: nat ::
      && j < i && LoadsAt(f, r, b, j) && InstAt(f, b, j).c == ConstInteger(v)
      && forall k: nat :: j < k < i ==> !LoadsAt(f, r, b, k)
  }

  lemma {:induction false} IntegersHere(f: Func, g: Func, b: nat, i: nat, r: RegId, v: Int64)
    requires SameShape(f, g) && b < |f.blocks| && i <= |f.blocks[b].insts| && LoadedHere(f, r, b, i, v)
    ensures var t := TableAt(LearnInteger, NO_INTEGERS, RecordPlaceholders, f, g, b, i);
            r in t.known && t.known[r] == ConstInteger(v)
    decreases i
  {
    assert At(f, b, i - 1);
    if !LoadsAt(f, r, b, i - 1) {
      IntegersHere(f, g, b, i - 1, r, v);
    }
  }

  lemma FusesOpsExactly(op: BinOp, a: Int64, b: Int64)
    ensures !FoldIntegerOp(op, a, b).Unfolded? <==> Fusible(op, b)
    ensures var fold := FoldIntegerOp(op, a, b);
            fold.Folded? ==> ValueOf(fold.c) == EvalBinary(op, Integer(a), Integer(b))
  {
    if FoldIntegerOp(op, a, b).Folded? {
      FoldIntegerOpAgrees(op, a, b, FoldIntegerOp(op, a, b).c);
    }
    hide EvalIntegers;
  }

  // A fusible operation on integers loaded in the same block becomes its result, and only such become constants.
  lemma IntegerFusionEffect(f: Func, g: Func, b: nat, i: nat)
    requires FusesIntegers(f, g) && At(f, b, i)
    ensures var was, now := InstAt(f, b, i), InstAt(g, b, i);
            && (forall x, y ::
                  was.Binary? && LoadedHere(f, was.left, b, i, x) && LoadedHere(f, was.right, b, i, y)
                  && Fusible(was.op, y)
                  ==> now.LoadConst? && now.dest == was.dest
                      && ValueOf(now.c) == EvalBinary(was.op, Integer(x), Integer(y)))
            && (now == was || (was.Binary? && now.LoadConst? && now.dest == was.dest
                  && exists x, y :: Fusible(was.op, y) && ValueOf(now.c) == EvalBinary(was.op, Integer(x), Integer(y))))
  {
    hide LoadedHere, EvalBinary, FoldIntegerOp, Fusible;
    var t, was := TableAt(LearnInteger, NO_INTEGERS, RecordPlaceholders, f, g, b, i), InstAt(f, b, i);
    assert FuseIntegers(t, was) == Some(InstAt(g, b, i));
    if was.Binary? {
      forall x, y | LoadedHere(f, was.left, b, i, x) && LoadedHere(f, was.right, b, i, y)
        ensures was.left in t.known && was.right in t.known
        ensures t.known[was.left] == ConstInteger(x) && t.known[was.right] == ConstInteger(y)
      {
        IntegersHere(f, g, b, i, was.left, x);
        IntegersHere(f, g, b, i, was.right, y);
      }
      if was.left in t.known && t.known[was.left].ConstInteger? && was.right in t.known
         && t.known[was.right].ConstInteger? {
        FusesOpsExactly(was.op, t.known[was.left].i, t.known[was.right].i);
      }
    }
  }
}
