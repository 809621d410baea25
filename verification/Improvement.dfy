/** What a pass relies on and what it promises, so that passes compose. */
module Improvement {
  import opened Mir
  import opened Ssa
  import opened Rewriting
  import opened Removal
  import opened Scan

  /** Of two equal operations in layout order, the first is available at the second. */
  ghost predicate RepeatsDominated(f: Func) {
    forall b: nat, i: nat, c: nat, j: nat ::
      At(f, b, i) && At(f, c, j) && Before(b, i, c, j) && SameOperation(InstAt(f, b, i), InstAt(f, c, j))
      ==> Available(f, InstAt(f, b, i).dest, c, j)
  }

  predicate SameOperation(p: Inst, q: Inst) {
    p.Binary? && q.Binary? && p.op == q.op && p.left == q.left && p.right == q.right
  }

  ghost predicate StoresSelf(f: Func) {
    exists b: nat, i: nat :: At(f, b, i) && InstAt(f, b, i).Store? && InstAt(f, b, i).name == SELF
  }

  /** If self is set and consulted without being named, it is still set in g. */
  ghost predicate SelfKept(f: Func, g: Func) {
    StoresSelf(f) && AnyConsultsSelf(f) ==> StoresSelf(g)
  }

  /** Instructions that set or consult self are not added. */
  ghost predicate AddsNoSelf(f: Func, g: Func) {
    (StoresSelf(g) ==> StoresSelf(f)) && (AnyConsultsSelf(g) ==> AnyConsultsSelf(f))
  }

  /** No call passes a block: dead-code elimination does not know the instructions for that. */
  ghost predicate BlockFree(f: Func) {
    forall b: nat, i: nat :: At(f, b, i) ==> !PassesBlock(InstAt(f, b, i))
  }

  ghost predicate LoadsNoIvar(f: Func) {
    forall b: nat, i: nat :: At(f, b, i) && InstAt(f, b, i).Load? ==> !IsIvarName(InstAt(f, b, i).name)
  }

  /** No block sets self after an instance variable. */
  ghost predicate SelfFirst(f: Func) {
    forall b: nat, i: nat, j: nat ::
      At(f, b, j) && i < j && InstAt(f, b, i).Store? && IsIvarName(InstAt(f, b, i).name) && InstAt(f, b, j).Store?
      ==> InstAt(f, b, j).name != SELF
  }

  /** What a pass promises for every strict function: the form, and the same runs. */
  ghost predicate Improves(m: Mode, f: Func, g: Func) {
    forall live: iset<RegId> :: Strict(f, live) ==> Strict(g, live) && RefinesFunc(m, f, g)
  }

  lemma NothingImproves(m: Mode, f: Func)
    ensures Improves(m, f, f)
  {
  }

  lemma ImprovesTransitive(m: Mode, f: Func, g: Func, h: Func)
    requires Improves(m, f, g) && Improves(m, g, h)
    ensures Improves(m, f, h)
  {
    forall live: iset<RegId> | Strict(f, live)
      ensures Strict(h, live) && RefinesFunc(m, f, h)
    {
      RefinesTransitive(m, f, g, h);
    }
  }

  // ---------------------------------------------------------------- what two of the passes need besides

  /** Strict, and fit for common-subexpression elimination and dead-code elimination. */
  ghost predicate Optimizable(f: Func, live: iset<RegId>) {
    Strict(f, live) && RepeatsDominated(f) && BlockFree(f)
  }

  /** What is not passed, set, consulted or loaded in f is not in g either. */
  ghost predicate KeepsNames(f: Func, g: Func) {
    && AddsNoSelf(f, g) && (BlockFree(f) ==> BlockFree(g))
    && (LoadsNoIvar(f) ==> LoadsNoIvar(g)) && (SelfFirst(f) ==> SelfFirst(g))
  }

  lemma KeepsNamesTransitive(f: Func, g: Func, h: Func)
    requires KeepsNames(f, g) && KeepsNames(g, h)
    ensures KeepsNames(f, h)
  {
    hide StoresSelf, AnyConsultsSelf, BlockFree, LoadsNoIvar, SelfFirst;
  }

  ghost predicate KeepsForm(f: Func, g: Func) {
    KeepsNames(f, g) && (SingleDef(f) && RepeatsDominated(f) ==> RepeatsDominated(g))
  }

  /** What a pass promises for one optimizable function: the same runs only if self is kept. */
  ghost predicate ImprovesKeepingSelf(m: Mode, f: Func, g: Func, live: iset<RegId>) {
    Optimizable(f, live) ==> Optimizable(g, live) && AddsNoSelf(f, g) && (SelfKept(f, g) ==> RefinesFunc(m, f, g))
  }

  lemma ImprovesInForm(m: Mode, f: Func, g: Func, live: iset<RegId>)
    requires Improves(m, f, g) && KeepsForm(f, g)
    ensures ImprovesKeepingSelf(m, f, g, live)
  {
  }

  // What is there at the end was there in between.
  lemma KeepingSelfTransitive(m: Mode, f: Func, g: Func, h: Func, live: iset<RegId>)
    requires ImprovesKeepingSelf(m, f, g, live) && ImprovesKeepingSelf(m, g, h, live)
    ensures ImprovesKeepingSelf(m, f, h, live)
  {
    hide Optimizable, AnyConsultsSelf, StoresSelf, RefinesFunc;
    if Optimizable(f, live) && SelfKept(f, h) {
      RefinesTransitive(m, f, g, h);
    }
  }

  lemma RefinesTransitive(m: Mode, f: Func, g: Func, h: Func)
    requires RefinesFunc(m, f, g) && RefinesFunc(m, g, h)
    ensures RefinesFunc(m, f, h)
  {
    forall world: World, args, globals, trace, gas: nat
      ensures Refines(RunFunc(m, world, f, args, globals, trace, gas),
                      RunFunc(m, world, h, args, globals, trace, gas))
    {
      assert Refines(RunFunc(m, world, f, args, globals, trace, gas),
                     RunFunc(m, world, g, args, globals, trace, gas));
    }
  }

  /** Instructions only ever become constants or copies. */
  ghost predicate Simplifies(f: Func, g: Func) {
    && SameShape(f, g)
    && forall b: nat, i: nat :: At(f, b, i) ==>
         || InstAt(g, b, i) == InstAt(f, b, i)
         || ((InstAt(g, b, i).LoadConst? || InstAt(g, b, i).Copy?) && Dest(InstAt(f, b, i)) == Dest(InstAt(g, b, i)))
  }

  lemma SimplifyingKeepsForm(f: Func, g: Func)
    requires Simplifies(f, g)
    ensures KeepsForm(f, g)
  {
    assert forall b: nat, i: nat :: At(g, b, i) ==> At(f, b, i);
    if RepeatsDominated(f) {
      forall b: nat, i: nat, c: nat, j: nat |
        At(g, b, i) && At(g, c, j) && Before(b, i, c, j) && SameOperation(InstAt(g, b, i), InstAt(g, c, j))
        ensures Available(g, InstAt(g, b, i).dest, c, j)
      {
        assert At(f, b, i) && At(f, c, j);
        SameAvailable(f, g, InstAt(g, b, i).dest, c, j);
      }
    }
  }
}
