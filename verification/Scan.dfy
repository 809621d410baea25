/**
  The forward scan shared by the rewriting passes: visit the instructions in layout order, replace
  each one by consulting a table, and update the table from what was there and what was written.
 */
module Scan {
  import opened Options
  import opened Mir
  import opened Ssa
  import opened Rewriting

  /** A function under optimization. */
  class MirFunction {
    const params: seq<RegId>
    var blocks: seq<BasicBlock>

    constructor (params: seq<RegId>, blocks: seq<BasicBlock>)
      ensures this.params == params && this.blocks == blocks
    {
      this.params, this.blocks := params, blocks;
    }

    function Value(): Func
      reads this
    {
      Func(params, blocks)
    }

    /** Overwrite one instruction. */
    method SetInst(b: nat, i: nat, inst: Inst)
      requires At(Value(), b, i)
      modifies this
      ensures SameShape(old(Value()), Value()) && InstAt(Value(), b, i) == inst
      ensures forall c: nat, j: nat :: At(Value(), c, j) && !(c == b && j == i)
                ==> InstAt(Value(), c, j) == InstAt(old(Value()), c, j)
    {
      blocks := blocks[b := blocks[b].(insts := blocks[b].insts[i := inst])];
    }
  }

  /** The table after the first i instructions of a block that it entered as m. */
  ghost function After<M>(step: (M, Inst, Inst) -> M, was: seq<Inst>, now: seq<Inst>, i: nat, m: M): M
    requires i <= |was| && i <= |now|
  {
    if i == 0 then m
    else step(After(step, was, now, i - 1, m), was[i - 1], now[i - 1])
  }

  /** For tables that pass from block to block as they are. */
  function Unchanged<M>(m: M): M {
    m
  }

  /** The table on entry to block b: the one the previous block left. */
  ghost function Entering<M>(step: (M, Inst, Inst) -> M, init: M, leave: M -> M, f: Func, g: Func, b: nat): M
    requires SameShape(f, g) && b <= |f.blocks|
  {
    if b == 0 then init
    else leave(After(step, f.blocks[b - 1].insts, g.blocks[b - 1].insts, |f.blocks[b - 1].insts|,
                     Entering(step, init, leave, f, g, b - 1)))
  }

  /** The table just before instruction i of block b, when f is being turned into g. */
  ghost function TableAt<M>(step: (M, Inst, Inst) -> M, init: M, leave: M -> M, f: Func, g: Func, b: nat, i: nat): M
    requires SameShape(f, g) && b < |f.blocks| && i <= |f.blocks[b].insts|
  {
    After(step, f.blocks[b].insts, g.blocks[b].insts, i, Entering(step, init, leave, f, g, b))
  }

  predicate Before(c: nat, j: nat, b: nat, i: nat) {
    c < b || (c == b && j < i)
  }

  /** Every instruction before this place is what the table then prescribed. */
  ghost predicate ScannedBefore<M>(step: (M, Inst, Inst) -> M, init: M, leave: M -> M,
                                   rewrite: (M, Inst) -> Option<Inst>, f: Func, g: Func, b: nat, i: nat)
  {
    && SameShape(f, g)
    && forall c: nat, j: nat :: At(f, c, j) && Before(c, j, b, i)
         ==> rewrite(TableAt(step, init, leave, f, g, c, j), InstAt(f, c, j)) == Some(InstAt(g, c, j))
  }

  /** g is f with every instruction replaced as the table prescribes at that place. */
  ghost predicate Scanned<M>(step: (M, Inst, Inst) -> M, init: M, leave: M -> M, rewrite: (M, Inst) -> Option<Inst>,
                             f: Func, g: Func)
  {
    && SameShape(f, g)
    && forall c: nat, j: nat :: At(f, c, j)
         ==> rewrite(TableAt(step, init, leave, f, g, c, j), InstAt(f, c, j)) == Some(InstAt(g, c, j))
  }

  /** The scan of f comes to an instruction whose replacement cannot be computed. */
  ghost predicate GetsStuck<M>(step: (M, Inst, Inst) -> M, init: M, leave: M -> M, rewrite: (M, Inst) -> Option<Inst>,
                               f: Func) {
    exists g: Func, b: nat, i: nat ::
      && ScannedBefore(step, init, leave, rewrite, f, g, b, i) && At(f, b, i)
      && rewrite(TableAt(step, init, leave, f, g, b, i), InstAt(f, b, i)).None?
  }

  lemma {:induction false} AfterDependsOnPrefix<M>(step: (M, Inst, Inst) -> M, was: seq<Inst>, now: seq<Inst>,
                                                   now': seq<Inst>, i: nat, m: M)
    requires i <= |was| && i <= |now| && i <= |now'| && now[..i] == now'[..i]
    ensures After(step, was, now, i, m) == After(step, was, now', i, m)
  {
    if i > 0 {
      assert now[..i][..i - 1] == now[..i - 1] && now'[..i][..i - 1] == now'[..i - 1];
      assert now[..i][i - 1] == now'[..i][i - 1];
      AfterDependsOnPrefix(step, was, now, now', i - 1, m);
    }
  }

  lemma SamePrefix(f: Func, g: Func, g': Func, b: nat, n: nat)
    requires SameShape(f, g) && SameShape(f, g') && b < |f.blocks| && n <= |f.blocks[b].insts|
    requires forall j: nat :: At(f, b, j) && j < n ==> InstAt(g, b, j) == InstAt(g', b, j)
    ensures g.blocks[b].insts[..n] == g'.blocks[b].insts[..n]
  {
    forall j: nat | j < n
      ensures g.blocks[b].insts[j] == g'.blocks[b].insts[j]
    {
      assert At(f, b, j) && InstAt(g, b, j) == InstAt(g', b, j);
    }
  }

  lemma {:induction false} EnteringDependsOnPrefix<M>(step: (M, Inst, Inst) -> M, init: M, leave: M -> M, f: Func,
                                                      g: Func, g': Func, b: nat)
    requires SameShape(f, g) && SameShape(f, g') && b <= |f.blocks|
    requires forall c: nat, j: nat :: At(f, c, j) && c < b ==> InstAt(g, c, j) == InstAt(g', c, j)
    ensures Entering(step, init, leave, f, g, b) == Entering(step, init, leave, f, g', b)
  {
    if b > 0 {
      EnteringDependsOnPrefix(step, init, leave, f, g, g', b - 1);
      SamePrefix(f, g, g', b - 1, |f.blocks[b - 1].insts|);
      AfterDependsOnPrefix(step, f.blocks[b - 1].insts, g.blocks[b - 1].insts, g'.blocks[b - 1].insts,
                           |f.blocks[b - 1].insts|, Entering(step, init, leave, f, g, b - 1));
    }
  }

  lemma TableDependsOnPrefix<M>(step: (M, Inst, Inst) -> M, init: M, leave: M -> M, f: Func, g: Func, g': Func, b: nat,
                                i: nat)
    requires SameShape(f, g) && SameShape(f, g') && b < |f.blocks| && i <= |f.blocks[b].insts|
    requires forall c: nat, j: nat :: At(f, c, j) && Before(c, j, b, i) ==> InstAt(g, c, j) == InstAt(g', c, j)
    ensures TableAt(step, init, leave, f, g, b, i) == TableAt(step, init, leave, f, g', b, i)
  {
    EnteringDependsOnPrefix(step, init, leave, f, g, g', b);
    SamePrefix(f, g, g', b, i);
    AfterDependsOnPrefix(step, f.blocks[b].insts, g.blocks[b].insts, g'.blocks[b].insts, i,
                         Entering(step, init, leave, f, g, b));
  }

  // Changing a later instruction leaves the scanned part scanned.
  lemma ScannedPartStays<M>(step: (M, Inst, Inst) -> M, init: M, leave: M -> M, rewrite: (M, Inst) -> Option<Inst>,
                            f: Func, g: Func, g': Func, b: nat, i: nat)
    requires ScannedBefore(step, init, leave, rewrite, f, g, b, i) && SameShape(f, g')
    requires forall c: nat, j: nat :: At(f, c, j) && Before(c, j, b, i) ==> InstAt(g, c, j) == InstAt(g', c, j)
    ensures ScannedBefore(step, init, leave, rewrite, f, g', b, i)
  {
    forall c: nat, j: nat | At(f, c, j) && Before(c, j, b, i)
      ensures rewrite(TableAt(step, init, leave, f, g', c, j), InstAt(f, c, j)) == Some(InstAt(g', c, j))
    {
      TableDependsOnPrefix(step, init, leave, f, g, g', c, j);
    }
  }

  // A scan has no choice: as far as two of them have come, they agree.
  lemma {:induction false} ScansAgree<M>(step: (M, Inst, Inst) -> M, init: M, leave: M -> M,
                                         rewrite: (M, Inst) -> Option<Inst>,
                                         f: Func, g: Func, g': Func, b: nat, i: nat, c: nat, j: nat)
    requires Scanned(step, init, leave, rewrite, f, g) && ScannedBefore(step, init, leave, rewrite, f, g', b, i)
    requires At(f, c, j) && Before(c, j, b, i)
    ensures InstAt(g, c, j) == InstAt(g', c, j)
    decreases c, j
  {
    forall c0: nat, j0: nat | At(f, c0, j0) && Before(c0, j0, c, j)
      ensures InstAt(g, c0, j0) == InstAt(g', c0, j0)
    {
      ScansAgree(step, init, leave, rewrite, f, g, g', b, i, c0, j0);
    }
    TableDependsOnPrefix(step, init, leave, f, g, g', c, j);
  }

  // What a scan has come through does not get stuck ...
  lemma ScannedIsNotStuck<M>(step: (M, Inst, Inst) -> M, init: M, leave: M -> M, rewrite: (M, Inst) -> Option<Inst>,
                             f: Func, g: Func)
    requires Scanned(step, init, leave, rewrite, f, g)
    ensures !GetsStuck(step, init, leave, rewrite, f)
  {
    if g': Func, b: nat, i: nat :|
      ScannedBefore(step, init, leave, rewrite, f, g', b, i) && At(f, b, i)
      && rewrite(TableAt(step, init, leave, f, g', b, i), InstAt(f, b, i)).None?
    {
      forall c: nat, j: nat | At(f, c, j) && Before(c, j, b, i)
        ensures InstAt(g, c, j) == InstAt(g', c, j)
      {
        ScansAgree(step, init, leave, rewrite, f, g, g', b, i, c, j);
      }
      TableDependsOnPrefix(step, init, leave, f, g, g', b, i);
    }
  }

  // ... and has one result.
  lemma ScannedIsUnique<M>(step: (M, Inst, Inst) -> M, init: M, leave: M -> M, rewrite: (M, Inst) -> Option<Inst>,
                           f: Func, g: Func, g': Func)
    requires Scanned(step, init, leave, rewrite, f, g) && Scanned(step, init, leave, rewrite, f, g')
    ensures g == g'
  {
    forall c: nat, j: nat | At(g, c, j)
      ensures InstAt(g, c, j) == InstAt(g', c, j)
    {
      assert At(f, c, j) && Before(c, j, |f.blocks|, 0);
      ScansAgree(step, init, leave, rewrite, f, g, g', |f.blocks|, 0, c, j);
    }
    SameEverywhere(g, g');
  }

  lemma SameEverywhere(f: Func, g: Func)
    requires SameShape(f, g) && forall b: nat, i: nat :: At(f, b, i) ==> InstAt(f, b, i) == InstAt(g, b, i)
    ensures f == g
  {
    forall b: nat | b < |f.blocks|
      ensures f.blocks[b] == g.blocks[b]
    {
      forall i: nat | i < |f.blocks[b].insts|
        ensures f.blocks[b].insts[i] == g.blocks[b].insts[i]
      {
        assert At(f, b, i) && InstAt(f, b, i) == InstAt(g, b, i);
      }
      assert f.blocks[b].insts == g.blocks[b].insts;
    }
    assert f.blocks == g.blocks;
  }

  /** Some instruction before this place has been changed. */
  ghost predicate DiffersBefore(f: Func, g: Func, b: nat, i: nat)
    requires SameShape(f, g)
  {
    exists c: nat, j: nat :: At(f, c, j) && Before(c, j, b, i) && InstAt(g, c, j) != InstAt(f, c, j)
  }

  lemma SameIfNowhereDifferent(f: Func, g: Func)
    requires SameShape(f, g)
    ensures DiffersBefore(f, g, |f.blocks|, 0) <==> g != f
  {
    if !DiffersBefore(f, g, |f.blocks|, 0) {
      forall b: nat, i: nat | At(f, b, i)
        ensures InstAt(f, b, i) == InstAt(g, b, i)
      {
        assert Before(b, i, |f.blocks|, 0);
      }
      SameEverywhere(f, g);
    }
  }

  /** How far the scan has come: everything before (b, i) is rewritten, everything else as it was. */
  ghost predicate Progress<M>(step: (M, Inst, Inst) -> M, init: M, leave: M -> M,
                              rewrite: (M, Inst) -> Option<Inst>, f: Func, g: Func, b: nat, i: nat, changed: bool)
  {
    && ScannedBefore(step, init, leave, rewrite, f, g, b, i)
    && (changed <==> DiffersBefore(f, g, b, i))
    && forall c: nat, j: nat :: At(f, c, j) && !Before(c, j, b, i) ==> InstAt(g, c, j) == InstAt(f, c, j)
  }

  lemma TableOnEntry<M>(step: (M, Inst, Inst) -> M, init: M, leave: M -> M, f: Func, g: Func, b: nat)
    requires SameShape(f, g) && b < |f.blocks|
    ensures TableAt(step, init, leave, f, g, b, 0) == Entering(step, init, leave, f, g, b)
  {
  }

  lemma ProgressStarts<M>(step: (M, Inst, Inst) -> M, init: M, leave: M -> M,
                          rewrite: (M, Inst) -> Option<Inst>, f: Func)
    ensures Progress(step, init, leave, rewrite, f, f, 0, 0, false)
    ensures Entering(step, init, leave, f, f, 0) == init
  {
  }

  lemma ProgressHere<M>(step: (M, Inst, Inst) -> M, init: M, leave: M -> M, rewrite: (M, Inst) -> Option<Inst>,
                        f: Func, g: Func, b: nat, i: nat, changed: bool)
    requires Progress(step, init, leave, rewrite, f, g, b, i, changed) && At(f, b, i)
    ensures InstAt(g, b, i) == InstAt(f, b, i)
    ensures rewrite(TableAt(step, init, leave, f, g, b, i), InstAt(f, b, i)).None?
            ==> GetsStuck(step, init, leave, rewrite, f)
  {
  }

  lemma ProgressEnds<M>(step: (M, Inst, Inst) -> M, init: M, leave: M -> M, rewrite: (M, Inst) -> Option<Inst>,
                        f: Func, g: Func, changed: bool)
    requires Progress(step, init, leave, rewrite, f, g, |f.blocks|, 0, changed)
    ensures Scanned(step, init, leave, rewrite, f, g) && (changed <==> g != f)
  {
    SameIfNowhereDifferent(f, g);
    assert forall c: nat, j: nat :: At(f, c, j) ==> Before(c, j, |f.blocks|, 0);
  }

  lemma ScanStep<M>(step: (M, Inst, Inst) -> M, init: M, leave: M -> M, rewrite: (M, Inst) -> Option<Inst>,
                    f: Func, g: Func, g': Func, b: nat, i: nat, changed: bool)
    requires Progress(step, init, leave, rewrite, f, g, b, i, changed) && At(f, b, i) && SameShape(g, g')
    requires rewrite(TableAt(step, init, leave, f, g, b, i), InstAt(f, b, i)) == Some(InstAt(g', b, i))
    requires forall c: nat, j: nat :: At(f, c, j) && !(c == b && j == i) ==> InstAt(g', c, j) == InstAt(g, c, j)
    ensures Progress(step, init, leave, rewrite, f, g', b, i + 1, changed || InstAt(g', b, i) != InstAt(f, b, i))
    ensures TableAt(step, init, leave, f, g', b, i + 1)
            == step(TableAt(step, init, leave, f, g, b, i), InstAt(f, b, i), InstAt(g', b, i))
  {
    ScannedPartStays(step, init, leave, rewrite, f, g, g', b, i);
    TableDependsOnPrefix(step, init, leave, f, g, g', b, i);
    assert forall c: nat, j: nat :: Before(c, j, b, i + 1) <==> Before(c, j, b, i) || (c == b && j == i);
  }

  lemma NextBlock<M>(step: (M, Inst, Inst) -> M, init: M, leave: M -> M, rewrite: (M, Inst) -> Option<Inst>,
                     f: Func, g: Func, b: nat, changed: bool)
    requires b < |f.blocks| && Progress(step, init, leave, rewrite, f, g, b, |f.blocks[b].insts|, changed)
    ensures Progress(step, init, leave, rewrite, f, g, b + 1, 0, changed)
    ensures Entering(step, init, leave, f, g, b + 1) == leave(TableAt(step, init, leave, f, g, b, |f.blocks[b].insts|))
  {
    assert forall c: nat, j: nat :: At(f, c, j) ==> (Before(c, j, b + 1, 0) <==> Before(c, j, b, |f.blocks[b].insts|));
  }

  method ScanInstructions<M>(step: (M, Inst, Inst) -> M, init: M, leave: M -> M, rewrite: (M, Inst) -> Option<Inst>,
                             func: MirFunction) returns (changed: bool, stuck: bool)
    modifies func
    ensures !stuck ==> (changed <==> func.Value() != old(func.Value()))
    ensures stuck <==> GetsStuck(step, init, leave, rewrite, old(func.Value()))
    ensures !stuck ==> Scanned(step, init, leave, rewrite, old(func.Value()), func.Value())
  {
    hide Progress, Entering, TableAt, Before;
    ghost var f := func.Value();
    ProgressStarts(step, init, leave, rewrite, f);
    var table := init;
    changed := false;
    var b := 0;
    while b < |func.blocks|
      invariant SameShape(f, func.Value()) && b <= |f.blocks|
      invariant Progress(step, init, leave, rewrite, f, func.Value(), b, 0, changed)
      invariant table == Entering(step, init, leave, f, func.Value(), b)
    {
      TableOnEntry(step, init, leave, f, func.Value(), b);
      var i := 0;
      while i < |func.blocks[b].insts|
        invariant SameShape(f, func.Value()) && b < |f.blocks| && i <= |f.blocks[b].insts|
        invariant Progress(step, init, leave, rewrite, f, func.Value(), b, i, changed)
        invariant table == TableAt(step, init, leave, f, func.Value(), b, i)
      {
        ghost var g := func.Value();
        var was := func.blocks[b].insts[i];
        var now := rewrite(table, was);
        ProgressHere(step, init, leave, rewrite, f, g, b, i, changed);
        if now.None? {
          return changed, true;
        }
        func.SetInst(b, i, now.value);
        ScanStep(step, init, leave, rewrite, f, g, func.Value(), b, i, changed);
        changed := changed || now.value != was;
        table := step(table, was, now.value);
        i := i + 1;
      }
      NextBlock(step, init, leave, rewrite, f, func.Value(), b, changed);
      table := leave(table);
      b := b + 1;
    }
    ProgressEnds(step, init, leave, rewrite, f, func.Value(), changed);
    ScannedIsNotStuck(step, init, leave, rewrite, f, func.Value());
    return changed, false;
  }
}
