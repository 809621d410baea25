/** What the definitions of a strict function say about the values its registers hold. */
module Facts {
  import opened Mir
  import opened Ssa

  /** Wherever r is available it holds c. */
  ghost predicate KnownConst(m: Mode, f: Func, live: iset<RegId>, r: RegId, c: Const) {
    forall b: nat, i: nat, st :: Inv(m, f, live, b, i, st) && Available(f, r, b, i) ==> Get(st.regs, r) == ValueOf(c)
  }

  /** Wherever r is available so is s, and they hold the same value. */
  ghost predicate KnownCopy(m: Mode, f: Func, live: iset<RegId>, r: RegId, s: RegId) {
    && s in live
    && (forall b: nat, i: nat :: Available(f, r, b, i) ==> Available(f, s, b, i))
    && (forall b: nat, i: nat, st :: Inv(m, f, live, b, i, st) && Available(f, r, b, i)
          ==> Get(st.regs, r) == Get(st.regs, s))
  }

  lemma LoadedConstKnown(m: Mode, f: Func, live: iset<RegId>, b: nat, i: nat)
    requires Strict(f, live) && At(f, b, i) && InstAt(f, b, i).LoadConst? && InstAt(f, b, i).dest in live
    ensures KnownConst(m, f, live, InstAt(f, b, i).dest, InstAt(f, b, i).c)
  {
    assert Def(f, InstAt(f, b, i).dest, b, i);
  }

  lemma CopyKnown(m: Mode, f: Func, live: iset<RegId>, b: nat, i: nat)
    requires Strict(f, live) && At(f, b, i) && InstAt(f, b, i).Copy? && InstAt(f, b, i).dest in live
    ensures KnownCopy(m, f, live, InstAt(f, b, i).dest, InstAt(f, b, i).src)
  {
    var Copy(d, s) := InstAt(f, b, i);
    assert Def(f, d, b, i) && s in Uses(InstAt(f, b, i));
    assert GoodUse(f, live, s, b, i);
    forall c: nat, j: nat | Available(f, d, c, j)
      ensures Available(f, s, c, j)
    {
      OperandAvailable(f, live, d, b, i, s, c, j);
    }
  }

  lemma KnownCopyTransitive(m: Mode, f: Func, live: iset<RegId>, r: RegId, s: RegId, t: RegId)
    requires KnownCopy(m, f, live, r, s) && KnownCopy(m, f, live, s, t)
    ensures KnownCopy(m, f, live, r, t)
  {
  }

  // A register computed from known operands is known.
  lemma BinaryKnown(m: Mode, f: Func, live: iset<RegId>, b: nat, i: nat, lc: Const, rc: Const, c: Const)
    requires Strict(f, live) && At(f, b, i) && InstAt(f, b, i).Binary?
    requires var inst := InstAt(f, b, i);
             && KnownConst(m, f, live, inst.left, lc) && KnownConst(m, f, live, inst.right, rc)
             && (Faults(m, inst.op, ValueOf(lc), ValueOf(rc))
                 || EvalBinary(inst.op, ValueOf(lc), ValueOf(rc)) == ValueOf(c))
    ensures KnownConst(m, f, live, InstAt(f, b, i).dest, c)
  {
    var inst := InstAt(f, b, i);
    assert Def(f, inst.dest, b, i) && inst.left in Uses(inst) && inst.right in Uses(inst);
    forall k: nat, j: nat, st | Inv(m, f, live, k, j, st) && Available(f, inst.dest, k, j)
      ensures Get(st.regs, inst.dest) == ValueOf(c)
    {
      OperandAvailable(f, live, inst.dest, b, i, inst.left, k, j);
      OperandAvailable(f, live, inst.dest, b, i, inst.right, k, j);
      assert Equation(m, inst, st.regs);
    }
  }

  lemma UnaryKnown(m: Mode, f: Func, live: iset<RegId>, b: nat, i: nat, sc: Const, c: Const)
    requires Strict(f, live) && At(f, b, i) && InstAt(f, b, i).Unary?
    requires KnownConst(m, f, live, InstAt(f, b, i).src, sc)
    requires FaultsUnary(m, InstAt(f, b, i).uop, ValueOf(sc))
             || EvalUnary(InstAt(f, b, i).uop, ValueOf(sc)) == ValueOf(c)
    ensures KnownConst(m, f, live, InstAt(f, b, i).dest, c)
  {
    var inst := InstAt(f, b, i);
    assert Def(f, inst.dest, b, i) && inst.src in Uses(inst);
    forall k: nat, j: nat, st | Inv(m, f, live, k, j, st) && Available(f, inst.dest, k, j)
      ensures Get(st.regs, inst.dest) == ValueOf(c)
    {
      OperandAvailable(f, live, inst.dest, b, i, inst.src, k, j);
      assert Equation(m, inst, st.regs);
    }
  }

  lemma CopyOfKnown(m: Mode, f: Func, live: iset<RegId>, r: RegId, s: RegId, c: Const)
    requires KnownCopy(m, f, live, r, s) && KnownConst(m, f, live, s, c)
    ensures KnownConst(m, f, live, r, c)
  {
  }
}
