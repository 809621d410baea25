/** Lowered functions are in strict form and satisfy what fusion, optimizer and peephole loop rely on. */
module LoweredCode {
  import opened Options
  import opened Mir
  import opened Ssa
  import opened Scan
  import opened Improvement
  import opened LostValues
  import opened Fusion
  import opened Hir
  import opened Lower
  import opened LowerForm

  /** The result registers of conditionals are the only ones defined by copies. */
  ghost function NotCopied(f: Func): iset<RegId> {
    iset r | !DefinedByCopy(f, r)
  }

  ghost predicate DefinedByCopy(f: Func, r: RegId) {
    exists b: nat, i: nat :: Def(f, r, b, i) && InstAt(f, b, i).Copy?
  }

  /** Everything but the copies at the end of conditionals takes its operands from its own block. */
  ghost predicate BlockLocal(f: Func) {
    && (forall b: nat, i: nat :: At(f, b, i) ==> LocalInst(|f.params|, f.blocks[b].insts, i))
    && (forall b: nat, r :: b < |f.blocks| && r in TermUses(f.blocks[b].term)
          ==> DefinedLocally(f.blocks[b].insts, |f.blocks[b].insts|, r))
    && (forall b: nat, i: nat, r: RegId :: Def(f, r, b, i) ==> |f.params| <= r)
    && (forall r: RegId :: r in f.params <==> r < |f.params|)
    && SingleDef(f)
  }

  lemma {:induction false} ParamsShape(params: seq<string>, i: nat)
    requires i <= |params|
    ensures var b := LowerParams(params, i);
            && b.nextReg == i && b.blocks == [] && |b.insts| == i && b.nextBlock == 0 && b.pending == None
            && forall k :: 0 <= k < i ==> b.insts[k] == Store(params[k], k)
  {
    if i > 0 {
      ParamsShape(params, i - 1);
    }
  }

  lemma ParamsWellBuilt(params: seq<string>, i: nat)
    requires i <= |params|
    ensures LowerParams(params, i).nextReg == i && WellBuilt(i, LowerParams(params, i))
  {
    hide DefinedLocally, OpenLabel;
    ParamsShape(params, i);
    var b := LowerParams(params, i);
    assert forall c: nat, k: nat :: At(CodeOf(b), c, k) ==> c == 0 && k < i && InstAt(CodeOf(b), c, k) == b.insts[k];
    assert forall c: nat, k: nat, r :: At(CodeOf(b), c, k) && Mentions(InstAt(CodeOf(b), c, k), r) ==> r == k;
    hide CodeOf, LowerParams;
  }

  // Finished code is block-local.
  lemma WellBuiltIsBlockLocal(arity: nat, b: Builder)
    requires WellBuilt(arity, b)
    ensures BlockLocal(Func(ParamRegs(arity), b.blocks))
  {
    var f, code := Func(ParamRegs(arity), b.blocks), CodeOf(b);
    assert forall c: nat, i: nat :: At(f, c, i) ==> At(code, c, i) && InstAt(code, c, i) == InstAt(f, c, i);
    assert forall r, c: nat, i: nat :: Def(f, r, c, i) ==> Def(code, r, c, i);
    forall r: RegId, c: nat, i: nat, d: nat, j: nat | Def(f, r, c, i) && Def(f, r, d, j)
      ensures c == d && i == j
    {
      assert Def(code, r, c, i) && Def(code, r, d, j);
      assert Mentions(InstAt(code, c, i), r) && Mentions(InstAt(code, d, j), r);
    }
    forall c: nat, i: nat | At(f, c, i)
      ensures LocalInst(|f.params|, f.blocks[c].insts, i)
    {
      assert LocalBlock(arity, b.blocks[c]);
    }
    forall c: nat, r | c < |f.blocks| && r in TermUses(f.blocks[c].term)
      ensures DefinedLocally(f.blocks[c].insts, |f.blocks[c].insts|, r)
    {
      assert LocalBlock(arity, b.blocks[c]);
    }
    forall r: RegId
      ensures r in f.params <==> r < |f.params|
    {
      if r < |f.params| {
        assert f.params[r] == r;
      }
    }
  }

  /** The terminator of a lowered body, if it returns nothing where it would return the value of a conditional. */
  function LastTerm(body: seq<Node>, last: RegId): Terminator {
    Return(if body == [] || !BodyHasValue(body) then None else Some(last))
  }

  lemma FinishedWellBuilt(params: seq<string>, body: seq<Node>)
    requires AllStmts(body)
    ensures var (b, last) := LowerBody(body, LowerParams(params, |params|), 0);
            && WellBuilt(|params|, FinishBlock(b, LastTerm(body, last)))
            && (!BodyHasValue(body) ==> CopiedHere(b, last))
  {
    hide WellBuilt, LowerParams, LowerBody, CopiedHere, DefinedLocally, IsStmt;
    var b := LowerParams(params, |params|);
    ParamsWellBuilt(params, |params|);
    BodyWellBuilt(|params|, body, b, 0);
    var (b', last) := LowerBody(body, b, 0);
    FinishWellBuilt(|params|, b', LastTerm(body, last));
  }

  // With the returns of conditionals masked, lowered code is block-local; where there are none, as it is.
  lemma LoweredIsBlockLocal(params: seq<string>, body: seq<Node>)
    requires AllStmts(body)
    ensures var f := LowerFunction(params, body);
            BlockLocal(Mask(f, NotCopied(f))) && (BodyHasValue(body) ==> Mask(f, NotCopied(f)) == f)
  {
    hide LowerBody, LowerParams, BlockLocal, BodyHasValue;
    FinishedWellBuilt(params, body);
    var (b, last) := LowerBody(body, LowerParams(params, |params|), 0);
    var finished := FinishBlock(b, LastTerm(body, last));
    WellBuiltIsBlockLocal(|params|, finished);
    MaskedIsFinished(params, body, b, last, LowerFunction(params, body), Func(ParamRegs(|params|), finished.blocks));
  }

  lemma MaskedIsFinished(params: seq<string>, body: seq<Node>, b: Builder, last: RegId, f: Func, g: Func)
    requires f == Func(ParamRegs(|params|), FinishBlock(b, Return(if body == [] then None else Some(last))).blocks)
    requires g == Func(ParamRegs(|params|), FinishBlock(b, LastTerm(body, last)).blocks)
    requires BlockLocal(g) && (!BodyHasValue(body) ==> CopiedHere(b, last))
    ensures Mask(f, NotCopied(f)) == g && (BodyHasValue(body) ==> f == g)
  {
    var live := NotCopied(f);
    assert forall c: nat, i: nat :: At(f, c, i) <==> At(g, c, i);
    assert forall c: nat, i: nat :: At(f, c, i) ==> InstAt(f, c, i) == InstAt(g, c, i);
    assert forall r, c: nat, i: nat :: Def(f, r, c, i) <==> Def(g, r, c, i);
    forall c | 0 <= c < |f.blocks|
      ensures g.blocks[c] == f.blocks[c].(term := MaskTerm(live, f.blocks[c].term))
    {
      if c == |b.blocks| && !BodyHasValue(body) {
        var j: nat :| j < |b.insts| && b.insts[j].Copy? && b.insts[j].dest == last;
        assert Def(f, last, c, j) && InstAt(f, c, j).Copy?;
      } else if r :| f.blocks[c].term == Return(Some(r)) {
        assert g.blocks[c] == f.blocks[c] && r in TermUses(g.blocks[c].term);
        LocalUseIsGood(g, c, |g.blocks[c].insts|, r);
      }
    }
    assert Mask(f, live).blocks == g.blocks;
  }

  lemma LocalDef(f: Func, b: nat, i: nat, r: RegId) returns (j: nat)
    requires b < |f.blocks| && DefinedLocally(f.blocks[b].insts, i, r)
    ensures j < i && Def(f, r, b, j) && !InstAt(f, b, j).Copy?
  {
    j :| j < i && j < |f.blocks[b].insts| && Dest(f.blocks[b].insts[j]) == Some(r) && !f.blocks[b].insts[j].Copy?;
  }

  lemma LocalUseIsGood(f: Func, b: nat, i: nat, r: RegId)
    requires BlockLocal(f) && b < |f.blocks| && DefinedLocally(f.blocks[b].insts, i, r)
    ensures GoodUse(f, NotCopied(f), r, b, i)
  {
    var j := LocalDef(f, b, i, r);
  }

  // Block-local code is strict, with every register live but the results of conditionals.
  lemma BlockLocalIsStrict(f: Func)
    requires BlockLocal(f)
    ensures Strict(f, NotCopied(f))
  {
    var live := NotCopied(f);
    forall b: nat, i: nat | At(f, b, i) && Evaluates(InstAt(f, b, i))
      ensures InstAt(f, b, i).dest in live
    {
      assert Def(f, InstAt(f, b, i).dest, b, i);
    }
    forall b: nat, i: nat, r | At(f, b, i) && Matters(live, InstAt(f, b, i)) && r in Uses(InstAt(f, b, i))
      ensures GoodUse(f, live, r, b, i)
    {
      var inst := InstAt(f, b, i);
      if inst.Copy? {
        assert Def(f, inst.dest, b, i);
        assert false;
      }
      assert LocalInst(|f.params|, f.blocks[b].insts, i);
      if DefinedLocally(f.blocks[b].insts, i, r) {
        LocalUseIsGood(f, b, i, r);
      } else {
        assert r in f.params && !DefinedByCopy(f, r);
      }
    }
    forall b: nat, r | b < |f.blocks| && r in TermUses(f.blocks[b].term)
      ensures GoodUse(f, live, r, b, |f.blocks[b].insts|)
    {
      LocalUseIsGood(f, b, |f.blocks[b].insts|, r);
    }
  }

  lemma OperandInItsBlock(f: Func, b: nat, i: nat, r: RegId, c: nat, j: nat)
    requires BlockLocal(f) && At(f, b, i) && InstAt(f, b, i).Binary? && r in Uses(InstAt(f, b, i)) && Def(f, r, c, j)
    ensures b == c && !InstAt(f, c, j).Copy?
  {
    assert LocalInst(|f.params|, f.blocks[b].insts, i);
    var k := LocalDef(f, b, i, r);
  }

  lemma BlockLocalIsOptimizable(f: Func)
    requires BlockLocal(f)
    ensures Optimizable(f, NotCopied(f)) && OperandsLocal(f)
  {
    BlockLocalIsStrict(f);
    assert forall b: nat, i: nat :: At(f, b, i) ==> LocalInst(|f.params|, f.blocks[b].insts, i);
    forall b: nat, i: nat, c: nat, j: nat |
      At(f, b, i) && At(f, c, j) && Before(b, i, c, j) && SameOperation(InstAt(f, b, i), InstAt(f, c, j))
      ensures Available(f, InstAt(f, b, i).dest, c, j)
    {
      var l := InstAt(f, b, i).left;
      assert l in Uses(InstAt(f, b, i)) && l in Uses(InstAt(f, c, j));
      assert LocalInst(|f.params|, f.blocks[b].insts, i);
      var k := LocalDef(f, b, i, l);
      OperandInItsBlock(f, c, j, l, b, k);
      assert Def(f, InstAt(f, b, i).dest, b, i);
    }
    forall b: nat, i: nat, c: nat, j: nat, r |
      At(f, b, i) && InstAt(f, b, i).Binary? && r in Uses(InstAt(f, b, i)) && Def(f, r, c, j)
      ensures c == b
    {
      OperandInItsBlock(f, b, i, r, c, j);
    }
  }
}
