/** Dead-store removal, dead-code elimination and removal of no-operations. */
module DeletingPasses {
  import opened Mir
  import opened Ssa
  import opened Rewriting
  import opened Removal
  import opened Scan
  import opened Improvement

  lemma FilteredKeepsNames(f: Func, g: Func, keep: Inst -> bool)
    requires Filtered(f, g, keep)
    ensures KeepsNames(f, g)
  {
    forall b: nat, i: nat | At(g, b, i)
      ensures exists i0: nat :: At(f, b, i0) && InstAt(f, b, i0) == InstAt(g, b, i)
    {
      var i0 := KeptSource(f.blocks[b].insts, keep, |f.blocks[b].insts|, i);
      assert InstAt(f, b, i0) == InstAt(g, b, i);
    }
    if SelfFirst(f) {
      FilteredKeepsSelfFirst(f, g, keep);
    }
    hide Filtered, SelfFirst;
  }

  lemma FilteredKeepsSelfFirst(f: Func, g: Func, keep: Inst -> bool)
    requires Filtered(f, g, keep) && SelfFirst(f)
    ensures SelfFirst(g)
  {
    forall b: nat, i: nat, j: nat |
      At(g, b, j) && i < j && InstAt(g, b, i).Store? && IsIvarName(InstAt(g, b, i).name) && InstAt(g, b, j).Store?
      ensures InstAt(g, b, j).name != SELF
    {
      var insts := f.blocks[b].insts;
      var i0 := KeptSource(insts, keep, |insts|, i);
      var j0 := KeptSource(insts, keep, |insts|, j);
      if j0 <= i0 {
        KeptPrefix(insts, keep, j0, i0);
      }
      assert At(f, b, j0) && InstAt(f, b, j0) == InstAt(g, b, j) && InstAt(f, b, i0) == InstAt(g, b, i);
    }
  }

  lemma DeletingKeepsForm(f: Func, g: Func, keep: Inst -> bool)
    requires Drops(f, g, keep)
    ensures KeepsForm(f, g)
  {
    hide KeepsNames;
    FilteredKeepsNames(f, g, keep);
    if SingleDef(f) && RepeatsDominated(f) {
      DeletingKeepsRepeats(f, g, keep);
    }
  }

  lemma DeletingKeepsRepeats(f: Func, g: Func, keep: Inst -> bool)
    requires Drops(f, g, keep) && SingleDef(f) && RepeatsDominated(f)
    ensures RepeatsDominated(g)
  {
    forall b: nat, i: nat, c: nat, j: nat |
      At(g, b, i) && At(g, c, j) && Before(b, i, c, j) && SameOperation(InstAt(g, b, i), InstAt(g, c, j))
      ensures Available(g, InstAt(g, b, i).dest, c, j)
    {
      var i0 := RemovedDef(f, g, keep, b, i);
      var j0 := RemovedDef(f, g, keep, c, j);
      assert Def(f, InstAt(f, b, i0).dest, b, i0);
      if b == c && j0 <= i0 {
        KeptPrefix(f.blocks[b].insts, keep, j0, i0);
      }
      RemovalKeepsAvailable(f, g, keep, InstAt(g, b, i).dest, c, j0);
    }
  }

  lemma RemovalImproves(m: Mode, f: Func, g: Func, keep: Inst -> bool)
    requires Removes(f, g, keep)
    ensures Improves(m, f, g) && KeepsForm(f, g)
  {
    RemovalDrops(f, g, keep);
    RemovalIsSound(m, f, g, keep);
    DeletingKeepsForm(f, g, keep);
    forall live: iset<RegId> | Strict(f, live)
      ensures Strict(g, live)
    {
      RemovalKeepsStrict(f, g, keep, live);
    }
  }

  /** Keep the instructions that satisfy keep, block by block. */
  method Retain(keep: Inst -> bool, func: MirFunction)
    modifies func
    ensures Filtered(old(func.Value()), func.Value(), keep)
  {
    ghost var f := func.Value();
    var b := 0;
    while b < |func.blocks|
      invariant b <= |f.blocks| && SameGraph(f, func.Value())
      invariant forall c :: 0 <= c < b ==>
                  func.blocks[c].insts == Kept(f.blocks[c].insts, keep, |f.blocks[c].insts|)
      invariant forall c :: b <= c < |f.blocks| ==> func.blocks[c] == f.blocks[c]
    {
      var insts := func.blocks[b].insts;
      var kept := [];
      for i := 0 to |insts|
        invariant kept == Kept(insts, keep, i)
      {
        if keep(insts[i]) {
          kept := kept + [insts[i]];
        }
      }
      func.blocks := func.blocks[b := func.blocks[b].(insts := kept)];
      b := b + 1;
    }
  }

  // ---------------------------------------------------------------- dead stores

  /** Constants, instance variables and globals outlive the function. */
  function StoreIsLive(loaded: set<string>): Inst -> bool {
    (inst: Inst) =>
      inst.Store? ==> IsConstantName(inst.name) || IsIvarName(inst.name) || IsGlobalName(inst.name)
                      || inst.name in loaded
  }

  ghost predicate LoadedBefore(f: Func, name: string, b: nat, i: nat) {
    exists c: nat, j: nat :: Before(c, j, b, i) && LoadsAt(f, c, j, name)
  }

  ghost predicate LoadedNames(f: Func, loaded: set<string>) {
    forall name :: name in loaded <==> IsLoaded(f, name)
  }

  method CollectLoaded(func: MirFunction) returns (loaded: set<string>)
    ensures LoadedNames(func.Value(), loaded)
  {
    ghost var f := func.Value();
    loaded := {};
    for b := 0 to |func.blocks|
      invariant forall name :: name in loaded <==> LoadedBefore(f, name, b, 0)
    {
      for i := 0 to |func.blocks[b].insts|
        invariant forall name :: name in loaded <==> LoadedBefore(f, name, b, i)
      {
        var inst := func.blocks[b].insts[i];
        assert inst.Load? ==> LoadsAt(f, b, i, inst.name);
        if inst.Load? {
          loaded := loaded + {inst.name};
        }
      }
    }
    assert forall name, c: nat, j: nat :: LoadsAt(f, c, j, name) ==> Before(c, j, |f.blocks|, 0);
  }

  ghost predicate DeadStoresGone(f: Func, g: Func) {
    exists loaded :: LoadedNames(f, loaded) && Filtered(f, g, StoreIsLive(loaded))
  }

  // A store to self goes with all others to self; only that can change what is consulted without being named.
  lemma DeadStoresAreSound(m: Mode, f: Func, g: Func)
    requires DeadStoresGone(f, g) && SelfKept(f, g)
    ensures RefinesFunc(m, f, g)
  {
    var loaded :| LoadedNames(f, loaded) && Filtered(f, g, StoreIsLive(loaded));
    var keep := StoreIsLive(loaded);
    forall b: nat, i: nat | At(f, b, i) && !keep(InstAt(f, b, i))
      ensures Removable(f, InstAt(f, b, i))
    {
      if InstAt(f, b, i).name == SELF && StoresSelf(g) {
        var c: nat, k: nat :| At(g, c, k) && InstAt(g, c, k).Store? && InstAt(g, c, k).name == SELF;
        var j := KeptSource(f.blocks[c].insts, keep, |f.blocks[c].insts|, k);
      }
    }
    RemovalIsSound(m, f, g, keep);
  }

  // The form stays in any case.
  lemma DeadStoresKeepForm(f: Func, g: Func, live: iset<RegId>)
    requires DeadStoresGone(f, g)
    ensures KeepsForm(f, g) && (Strict(f, live) ==> Strict(g, live))
  {
    var loaded :| LoadedNames(f, loaded) && Filtered(f, g, StoreIsLive(loaded));
    DeletingKeepsForm(f, g, StoreIsLive(loaded));
    if Strict(f, live) {
      RemovalKeepsStrict(f, g, StoreIsLive(loaded), live);
    }
  }

  lemma DeadStoresGoneIsUnique(f: Func, g: Func, g': Func)
    requires DeadStoresGone(f, g) && DeadStoresGone(f, g')
    ensures g == g'
  {
    var loaded :| LoadedNames(f, loaded) && Filtered(f, g, StoreIsLive(loaded));
    var loaded' :| LoadedNames(f, loaded') && Filtered(f, g', StoreIsLive(loaded'));
    assert loaded == loaded';
    FilteredIsUnique(f, g, g', StoreIsLive(loaded));
  }

  method RemoveDeadStores(func: MirFunction)
    modifies func
    ensures DeadStoresGone(old(func.Value()), func.Value())
  {
    var loaded := CollectLoaded(func);
    Retain(StoreIsLive(loaded), func);
  }

  // ---------------------------------------------------------------- dead code

  /** Instructions that go if their result is not used. */
  predicate Deletable(inst: Inst) {
    inst.LoadConst? || inst.Copy? || inst.Binary? || inst.Unary? || inst.Alloc? || inst.Load?
  }

  function ResultIsUsed(used: set<RegId>): Inst -> bool {
    (inst: Inst) => Deletable(inst) ==> inst.dest in used
  }

  /** The operands that are counted as uses: not those of the instructions for blocks. */
  function CountedUses(inst: Inst): set<RegId> {
    if PassesBlock(inst) then {} else Uses(inst)
  }

  predicate CountsAt(f: Func, b: nat, i: nat, r: RegId) {
    At(f, b, i) && r in CountedUses(InstAt(f, b, i))
  }

  ghost predicate IsCounted(f: Func, r: RegId) {
    || (exists b: nat, i: nat :: CountsAt(f, b, i, r))
    || (exists b :: 0 <= b < |f.blocks| && r in TermUses(f.blocks[b].term))
  }

  ghost predicate CountedBefore(f: Func, r: RegId, b: nat, i: nat) {
    || (exists c: nat, j: nat :: Before(c, j, b, i) && CountsAt(f, c, j, r))
    || (exists c :: 0 <= c < b && c < |f.blocks| && r in TermUses(f.blocks[c].term))
  }

  ghost predicate UsedRegisters(f: Func, used: set<RegId>) {
    forall r :: r in used <==> IsCounted(f, r)
  }

  method CollectUsed(func: MirFunction) returns (used: set<RegId>)
    ensures UsedRegisters(func.Value(), used)
  {
    ghost var f := func.Value();
    used := {};
    for b := 0 to |func.blocks|
      invariant forall r :: r in used <==> CountedBefore(f, r, b, 0)
    {
      for i := 0 to |func.blocks[b].insts|
        invariant forall r :: r in used <==> CountedBefore(f, r, b, i)
      {
        assert forall r :: r in CountedUses(f.blocks[b].insts[i]) <==> CountsAt(f, b, i, r);
        used := used + CountedUses(func.blocks[b].insts[i]);
      }
      used := used + TermUses(func.blocks[b].term);
    }
    assert forall r, c: nat, j: nat :: CountsAt(f, c, j, r) ==> Before(c, j, |f.blocks|, 0);
  }

  ghost predicate DeadCodeGone(f: Func, g: Func) {
    exists used :: UsedRegisters(f, used) && Filtered(f, g, ResultIsUsed(used))
  }

  /** What an instruction for blocks reads is also read elsewhere, or is the result of an instruction that stays. */
  ghost predicate OperandsSpared(f: Func) {
    forall b: nat, i: nat, c: nat, j: nat ::
      At(f, b, i) && PassesBlock(InstAt(f, b, i)) && At(f, c, j) && Deletable(InstAt(f, c, j))
      ==> InstAt(f, c, j).dest in Uses(InstAt(f, b, i)) ==> IsCounted(f, InstAt(f, c, j).dest)
  }

  lemma SparedIsRemoval(f: Func, g: Func, used: set<RegId>)
    requires UsedRegisters(f, used) && Filtered(f, g, ResultIsUsed(used)) && OperandsSpared(f)
    ensures Removes(f, g, ResultIsUsed(used))
  {
    forall c: nat, j: nat | At(f, c, j) && !ResultIsUsed(used)(InstAt(f, c, j))
      ensures Removable(f, InstAt(f, c, j))
    {
      var r := InstAt(f, c, j).dest;
      if b: nat, i: nat :| UsesAt(f, b, i, r) {
        assert CountsAt(f, b, i, r);
      }
    }
  }

  lemma BlockFreeIsSpared(f: Func)
    requires BlockFree(f)
    ensures OperandsSpared(f)
  {
  }

  // Whatever the function: as long as the operands of instructions for blocks are spared, every run stays ...
  lemma DeadCodeIsSound(m: Mode, f: Func, g: Func)
    requires DeadCodeGone(f, g) && OperandsSpared(f)
    ensures RefinesFunc(m, f, g) && Improves(m, f, g) && KeepsForm(f, g)
  {
    var used :| UsedRegisters(f, used) && Filtered(f, g, ResultIsUsed(used));
    SparedIsRemoval(f, g, used);
    RemovalIsSound(m, f, g, ResultIsUsed(used));
    RemovalImproves(m, f, g, ResultIsUsed(used));
  }

  ghost predicate EveryBlockReached(f: Func) {
    forall b :: 0 <= b < |f.blocks| ==> Reachable(f, b)
  }

  // ... and exactly then every operand still has a definition before its use.
  lemma DeadCodeKeepsStrictExactly(f: Func, g: Func, live: iset<RegId>)
    requires Strict(f, live) && (forall r :: r in live) && EveryBlockReached(f) && DeadCodeGone(f, g)
    ensures Strict(g, live) <==> OperandsSpared(f)
  {
    var used :| UsedRegisters(f, used) && Filtered(f, g, ResultIsUsed(used));
    if OperandsSpared(f) {
      SparedIsRemoval(f, g, used);
      RemovalKeepsStrict(f, g, ResultIsUsed(used), live);
    } else {
      var b: nat, i: nat, c: nat, j: nat :|
        At(f, b, i) && PassesBlock(InstAt(f, b, i)) && At(f, c, j) && Deletable(InstAt(f, c, j))
        && InstAt(f, c, j).dest in Uses(InstAt(f, b, i)) && !IsCounted(f, InstAt(f, c, j).dest);
      OperandLost(f, g, live, used, b, i, c, j);
    }
  }

  lemma OperandLost(f: Func, g: Func, live: iset<RegId>, used: set<RegId>, b: nat, i: nat, c: nat, j: nat)
    requires Strict(f, live) && (forall r :: r in live) && EveryBlockReached(f)
    requires UsedRegisters(f, used) && Filtered(f, g, ResultIsUsed(used))
    requires At(f, b, i) && PassesBlock(InstAt(f, b, i)) && At(f, c, j) && Deletable(InstAt(f, c, j))
    requires InstAt(f, c, j).dest in Uses(InstAt(f, b, i)) && !IsCounted(f, InstAt(f, c, j).dest)
    ensures !Strict(g, live)
  {
    var r, keep := InstAt(f, c, j).dest, ResultIsUsed(used);
    assert Def(f, r, c, j);
    KeptAt(f.blocks[b].insts, keep, i);
    var k := |Kept(f.blocks[b].insts, keep, i)|;
    assert At(g, b, k) && InstAt(g, b, k) == InstAt(f, b, i);
    if Strict(g, live) {
      assert GoodUse(g, live, r, b, k);
      assert Reachable(f, b);
      var p :| PathTo(f, p, b);
      SamePaths(f, g);
      assert r !in g.params;
      assert Available(g, r, b, k);
      var d: nat, e: nat :| Def(g, r, d, e);
      var e0 := KeptSource(f.blocks[d].insts, keep, |f.blocks[d].insts|, e);
      assert Def(f, r, d, e0);
      assert false;
    }
  }

  lemma DeadCodeGoneIsUnique(f: Func, g: Func, g': Func)
    requires DeadCodeGone(f, g) && DeadCodeGone(f, g')
    ensures g == g'
  {
    var used :| UsedRegisters(f, used) && Filtered(f, g, ResultIsUsed(used));
    var used' :| UsedRegisters(f, used') && Filtered(f, g', ResultIsUsed(used'));
    assert used == used';
    FilteredIsUnique(f, g, g', ResultIsUsed(used));
  }

  method DeadCodeElimination(func: MirFunction)
    modifies func
    ensures DeadCodeGone(old(func.Value()), func.Value())
  {
    var used := CollectUsed(func);
    Retain(ResultIsUsed(used), func);
  }

  // ---------------------------------------------------------------- no-operations

  predicate IsNotNop(inst: Inst) {
    !inst.Nop?
  }

  lemma NopsGoneIsSound(m: Mode, f: Func, g: Func)
    requires Filtered(f, g, IsNotNop)
    ensures RefinesFunc(m, f, g) && Improves(m, f, g) && KeepsForm(f, g)
  {
    RemovalIsSound(m, f, g, IsNotNop);
    RemovalImproves(m, f, g, IsNotNop);
  }

  method RemoveNops(func: MirFunction)
    modifies func
    ensures Filtered(old(func.Value()), func.Value(), IsNotNop)
  {
    Retain(IsNotNop, func);
  }
}
