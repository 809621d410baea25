/** What the passes that follow copies and stores change: in terms of the copies and stores that stand before. */
module CopyEffects {
  import opened Options
  import opened Mir
  import opened Ssa
  import opened Rewriting
  import opened Scan
  import opened Chains
  import opened CopyFusion
  import opened Peephole

  // ---------------------------------------------------------------- the copy last made

  predicate CopiesAt(f: Func, r: RegId, b: nat, i: nat) {
    At(f, b, i) && InstAt(f, b, i).Copy? && InstAt(f, b, i).dest == r
  }

  /** (c, j) is the last place before (b, i) where something is copied into r. */
  ghost predicate LastCopyAt(f: Func, r: RegId, b: nat, i: nat, c: nat, j: nat) {
    && CopiesAt(f, r, c, j) && Before(c, j, b, i)
    && forall d: nat, k: nat :: CopiesAt(f, r, d, k) && Before(d, k, b, i) ==> !Before(c, j, d, k)
  }

  /** The last copy into r before (b, i) is one of s. */
  ghost predicate LastCopied(f: Func, r: RegId, b: nat, i: nat, s: RegId) {
    exists c: nat, j: nat :: LastCopyAt(f, r, b, i, c, j) && InstAt(f, c, j).src == s
  }

  lemma CopiedAfter(f: Func, b: nat, i: nat, r: RegId, s: RegId)
    requires At(f, b, i)
    ensures LastCopied(f, r, b, i + 1, s)
            <==> if CopiesAt(f, r, b, i) then InstAt(f, b, i).src == s else LastCopied(f, r, b, i, s)
  {
    forall c: nat, j: nat
      ensures Before(c, j, b, i + 1) <==> Before(c, j, b, i) || (c == b && j == i)
    {
    }
    if CopiesAt(f, r, b, i) {
      assert LastCopyAt(f, r, b, i + 1, b, i);
    } else {
      assert forall c: nat, j: nat :: LastCopyAt(f, r, b, i + 1, c, j) <==> LastCopyAt(f, r, b, i, c, j);
    }
  }

  lemma CopiedOnEntry(f: Func, b: nat, r: RegId, s: RegId)
    requires b < |f.blocks|
    ensures LastCopied(f, r, b + 1, 0, s) <==> LastCopied(f, r, b, |f.blocks[b].insts|, s)
  {
    var n := |f.blocks[b].insts|;
    assert forall c: nat, j: nat :: At(f, c, j) ==> (Before(c, j, b + 1, 0) <==> Before(c, j, b, n));
    assert forall c: nat, j: nat :: LastCopyAt(f, r, b + 1, 0, c, j) <==> LastCopyAt(f, r, b, n, c, j);
  }

  ghost predicate ChainSays(chain: CopyMap, f: Func, b: nat, i: nat) {
    forall r: RegId, s: RegId :: (r in chain && chain[r] == s) <==> LastCopied(f, r, b, i, s)
  }

  // The copy map holds for each register what its last copy reads once it is fused.
  lemma {:induction false} ChainIsLastCopied(f: Func, g: Func, h: Func, b: nat, i: nat)
    requires FusesCopies(f, g) && SameShape(f, h) && b < |f.blocks| && i <= |f.blocks[b].insts|
    ensures TableAt<Chain>(LinkCopy, NoCopies(), Unchanged, f, h, b, i)
            == TableAt<Chain>(LinkCopy, NoCopies(), Unchanged, f, g, b, i)
    ensures ChainSays(TableAt<Chain>(LinkCopy, NoCopies(), Unchanged, f, g, b, i), g, b, i)
    decreases b, i
  {
    var chain: CopyMap := TableAt<Chain>(LinkCopy, NoCopies(), Unchanged, f, g, b, i);
    if i > 0 {
      ChainIsLastCopied(f, g, h, b, i - 1);
      assert At(f, b, i - 1);
      var before := TableAt<Chain>(LinkCopy, NoCopies(), Unchanged, f, g, b, i - 1);
      assert FuseCopy(before, InstAt(f, b, i - 1)) == Some(InstAt(g, b, i - 1));
      forall r: RegId, s: RegId
        ensures (r in chain && chain[r] == s) <==> LastCopied(g, r, b, i, s)
      {
        CopiedAfter(g, b, i - 1, r, s);
      }
    } else if b > 0 {
      ChainIsLastCopied(f, g, h, b - 1, |f.blocks[b - 1].insts|);
      forall r: RegId, s: RegId
        ensures (r in chain && chain[r] == s) <==> LastCopied(g, r, b, 0, s)
      {
        CopiedOnEntry(g, b - 1, r, s);
      }
    }
  }

  // ---------------------------------------------------------------- copy fusion

  /** r stands for what was last copied into it, or for itself. */
  ghost predicate StandsFor(g: Func, b: nat, i: nat, r: RegId, s: RegId) {
    LastCopied(g, r, b, i, s) || (r == s && forall t :: !LastCopied(g, r, b, i, t))
  }

  /** From r in n copies, each of the last copied, to s. */
  ghost predicate Leads(g: Func, b: nat, i: nat, r: RegId, s: RegId, n: nat)
    decreases n
  {
    if n == 0 then r == s else exists t :: LastCopied(g, r, b, i, t) && Leads(g, b, i, t, s, n - 1)
  }

  lemma {:induction false} RootIsLed(chain: Chain, g: Func, b: nat, i: nat, r: RegId) returns (n: nat)
    requires ChainSays(chain, g, b, i)
    ensures Leads(g, b, i, r, Root(chain, r), n)
    ensures forall t :: LastCopied(g, Root(chain, r), b, i, t) ==> t == Root(chain, r)
    decreases Depth(chain, r)
  {
    hide LastCopied;
    if IsRoot(chain, r) {
      n := 0;
    } else {
      StepDecreasesDepth(chain, r);
      n := RootIsLed(chain, g, b, i, chain[r]);
      assert LastCopied(g, r, b, i, chain[r]);
      n := n + 1;
    }
  }

  // Operations and method calls read what their operands were copied from, copies the end of the chain of
  // copies that they continue; nothing else changes.
  lemma CopyFusionEffect(f: Func, g: Func, b: nat, i: nat)
    requires FusesCopies(f, g) && At(f, b, i)
    ensures var was, now := InstAt(f, b, i), InstAt(g, b, i);
            match was
            case Binary(d, op, l, r) =>
              && now.Binary? && now.dest == d && now.op == op
              && StandsFor(g, b, i, l, now.left) && StandsFor(g, b, i, r, now.right)
            case MethodCall(d, recv, name, args, block) =>
              && now.MethodCall? && now.dest == d && now.name == name && now.block == block
              && StandsFor(g, b, i, recv, now.recv) && |now.args| == |args|
              && forall k :: 0 <= k < |args| ==> StandsFor(g, b, i, args[k], now.args[k])
            case Copy(d, s) =>
              && now.Copy? && now.dest == d && (exists n: nat :: Leads(g, b, i, s, now.src, n))
              && forall t :: LastCopied(g, now.src, b, i, t) ==> t == now.src
            case _ => now == was
  {
    hide LastCopied, Leads;
    ChainIsLastCopied(f, g, g, b, i);
    var chain := TableAt<Chain>(LinkCopy, NoCopies(), Unchanged, f, g, b, i);
    assert FuseCopy(chain, InstAt(f, b, i)) == Some(InstAt(g, b, i));
    forall r: RegId
      ensures StandsFor(g, b, i, r, CopyFusion.Resolve(chain, r))
    {
      if r in chain {
        assert LastCopied(g, r, b, i, chain[r]);
      }
    }
    if InstAt(f, b, i).Copy? {
      var n := RootIsLed(chain, g, b, i, InstAt(f, b, i).src);
    }
  }

  // ---------------------------------------------------------------- shortening of copies

  // A copy of a register that is itself a copy reads what fusion has the last copy into it read.
  lemma ShorteningEffect(f: Func, g: Func, fused: Func, b: nat, i: nat)
    requires ShortensCopies(f, g) && FusesCopies(f, fused) && At(f, b, i)
    ensures var n, was, now := |f.blocks|, InstAt(f, b, i), InstAt(g, b, i);
            && (forall t :: was.Copy? && LastCopied(fused, was.src, n, 0, t) ==> now == Copy(was.dest, t))
            && (now == was || (was.Copy? && exists t :: LastCopied(fused, was.src, n, 0, t)))
  {
    hide LastCopied;
    var n: nat, was := |f.blocks|, InstAt(f, b, i);
    var chain: CopyMap := AllCopies(f);
    ChainIsLastCopied(f, fused, f, n - 1, |f.blocks[n - 1].insts|);
    forall r: RegId, s: RegId
      ensures (r in chain && chain[r] == s) <==> LastCopied(fused, r, n, 0, s)
    {
      CopiedOnEntry(fused, n - 1, r, s);
    }
    if was.Copy? && was.src in chain {
      assert LastCopied(fused, was.src, n, 0, chain[was.src]);
    }
  }

  // ---------------------------------------------------------------- loads after stores

  /** What was last stored under the name in this block, with no call after it, is in s. */
  ghost predicate StoredLast(insts: seq<Inst>, i: nat, name: string, s: RegId)
    requires i <= |insts|
  {
    exists j: nat ::
      && j < i && insts[j] == Store(name, s)
      && forall k :: j < k < i ==>
           !insts[k].Call? && !insts[k].MethodCall? && !(insts[k].Store? && insts[k].name == name)
  }

  lemma {:induction false} LastStoresAre(insts: seq<Inst>, i: nat, name: string, s: RegId)
    requires i <= |insts|
    ensures (name in LastStores(insts, i) && LastStores(insts, i)[name] == s) <==> StoredLast(insts, i, name, s)
  {
    if i > 0 {
      LastStoresAre(insts, i - 1, name, s);
      var last := insts[i - 1];
      if last == Store(name, s) {
        assert StoredLast(insts, i, name, s);
      } else if StoredLast(insts, i - 1, name, s) && !last.Call? && !last.MethodCall?
                && !(last.Store? && last.name == name) {
        var j: nat :| j < i - 1 && insts[j] == Store(name, s)
          && forall k :: j < k < i - 1 ==>
               !insts[k].Call? && !insts[k].MethodCall? && !(insts[k].Store? && insts[k].name == name);
        assert StoredLast(insts, i, name, s);
      }
    }
  }

  // A load of what was stored in the same block, with no call in between, becomes a copy; nothing else changes.
  lemma ForwardingEffect(f: Func, g: Func, b: nat, i: nat)
    requires ForwardsStores(f, g) && At(f, b, i)
    ensures var insts, was, now := f.blocks[b].insts, InstAt(f, b, i), InstAt(g, b, i);
            && (forall s :: was.Load? && StoredLast(insts, i, was.name, s) ==> now == Copy(was.dest, s))
            && (now == was || (was.Load? && exists s :: StoredLast(insts, i, was.name, s)))
  {
    hide StoredLast;
    var insts, was := f.blocks[b].insts, InstAt(f, b, i);
    StoreTableIsLastStores(insts, g.blocks[b].insts, i);
    var stores := TableAt(LearnStore, map[], Forget, f, g, b, i);
    assert ForwardStore(stores, was) == Some(InstAt(g, b, i));
    if was.Load? {
      forall s
        ensures (was.name in stores && stores[was.name] == s) <==> StoredLast(insts, i, was.name, s)
      {
        LastStoresAre(insts, i, was.name, s);
      }
      if was.name in stores {
        assert StoredLast(insts, i, was.name, stores[was.name]);
      }
    }
  }

  // ---------------------------------------------------------------- branches to the next block

  // A branch to the block that follows is cut; nothing else changes.
  lemma CuttingEffect(f: Func, g: Func, b: nat)
    requires CutsFallthroughs(f, g) && b < |f.blocks|
    ensures g.blocks[b].lbl == f.blocks[b].lbl && g.blocks[b].insts == f.blocks[b].insts
    ensures if b + 1 < |f.blocks| && f.blocks[b].term == Branch(f.blocks[b + 1].lbl)
            then g.blocks[b].term == Unreachable else g.blocks[b].term == f.blocks[b].term
  {
  }
}
