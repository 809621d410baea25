/** Chasing copies to their root: why it terminates on every program, and what it finds. */
module Chains {
  import opened Mir
  import opened Ssa
  import opened Facts

  type CopyMap = map<RegId, RegId>

  /** Where the chase stops: no entry, or an entry for itself. */
  predicate IsRoot(m: CopyMap, r: RegId) {
    r !in m || m[r] == r
  }

  /** The chase from r stops within n steps. */
  predicate Stops(m: CopyMap, r: RegId, n: nat)
    decreases n
  {
    IsRoot(m, r) || (n > 0 && Stops(m, m[r], n - 1))
  }

  ghost predicate StopsSometime(m: CopyMap, r: RegId) {
    exists n: nat :: Stops(m, r, n)
  }

  /** A forest whose only cycles are roots that point to themselves. */
  ghost predicate Forest(m: CopyMap) {
    forall r: RegId :: StopsSometime(m, r)
  }

  lemma EmptyIsForest(m: CopyMap)
    requires m == map[]
    ensures Forest(m)
  {
    forall r: RegId
      ensures StopsSometime(m, r)
    {
      assert IsRoot(m, r);
      assert Stops(m, r, 0);
    }
  }

  function NoCopies(): (m: CopyMap)
    ensures Forest(m)
  {
    EmptyIsForest(map[]);
    map[]
  }

  type Chain = m: CopyMap | Forest(m) ghost witness NoCopies()

  ghost function Depth(m: Chain, r: RegId): (n: nat)
    ensures Stops(m, r, n) && forall k: nat :: k < n ==> !Stops(m, r, k)
  {
    assert StopsSometime(m, r);
    var n: nat :| Stops(m, r, n);
    LeastStop(m, r, n)
  }

  ghost function LeastStop(m: CopyMap, r: RegId, n: nat): (least: nat)
    requires Stops(m, r, n)
    ensures Stops(m, r, least) && forall k: nat :: k < least ==> !Stops(m, r, k)
  {
    if n == 0 || !Stops(m, r, n - 1) then StopsMonotonic(m, r, n); n else LeastStop(m, r, n - 1)
  }

  lemma {:induction false} StopsLonger(m: CopyMap, r: RegId, k: nat, n: nat)
    requires Stops(m, r, k) && k <= n
    ensures Stops(m, r, n)
    decreases k
  {
    if !IsRoot(m, r) {
      StopsLonger(m, m[r], k - 1, n - 1);
    }
  }

  lemma StopsMonotonic(m: CopyMap, r: RegId, n: nat)
    requires Stops(m, r, n) && (n == 0 || !Stops(m, r, n - 1))
    ensures forall k: nat :: k < n ==> !Stops(m, r, k)
  {
    forall k: nat | k < n
      ensures !Stops(m, r, k)
    {
      if Stops(m, r, k) {
        StopsLonger(m, r, k, n - 1);
      }
    }
  }

  /** The register at the end of the chase. */
  function Root(m: Chain, r: RegId): (root: RegId)
    ensures IsRoot(m, root)
    decreases Depth(m, r)
  {
    if IsRoot(m, r) then r
    else
      StepDecreasesDepth(m, r);
      Root(m, m[r])
  }

  lemma StepDecreasesDepth(m: Chain, r: RegId)
    requires !IsRoot(m, r)
    ensures Depth(m, m[r]) < Depth(m, r)
  {
    assert Stops(m, m[r], Depth(m, r) - 1);
  }

  // The chase as the source writes it.
  method FindCopyRoot(reg: RegId, chain: Chain) returns (root: RegId)
    ensures root == Root(chain, reg)
  {
    root := reg;
    while root in chain
      invariant Root(chain, root) == Root(chain, reg)
      decreases Depth(chain, root)
    {
      var next := chain[root];
      if next == root {
        break;
      }
      StepDecreasesDepth(chain, root);
      root := next;
    }
  }

  // Pointing any register at a root makes a forest again, even if it had an entry before.
  lemma LinkKeepsForest(m: Chain, d: RegId, root: RegId)
    requires IsRoot(m, root)
    ensures Forest(m[d := root])
  {
    var m' := m[d := root];
    forall r: RegId
      ensures StopsSometime(m', r)
    {
      LinkStops(m, d, root, r, Depth(m, r));
      assert Stops(m', r, Depth(m, r) + 1);
    }
  }

  lemma {:induction false} LinkStops(m: CopyMap, d: RegId, root: RegId, r: RegId, n: nat)
    requires IsRoot(m, root) && Stops(m, r, n)
    ensures Stops(m[d := root], r, n + 1)
    decreases n
  {
    var m' := m[d := root];
    if r == d {
      assert IsRoot(m', root);
    } else if !IsRoot(m, r) {
      LinkStops(m, d, root, m[r], n - 1);
    }
  }

  /** Record a copy: its target leads to the root of its source. */
  function LinkCopy(chain: Chain, was: Inst, now: Inst): Chain {
    if was.Copy? then
      LinkKeepsForest(chain, was.dest, Root(chain, was.src));
      chain[was.dest := Root(chain, was.src)]
    else chain
  }

  // ---------------------------------------------------------------- what the chain knows

  /** Every entry about a live register is a copy that holds wherever the register is available. */
  ghost predicate TrueCopies(m: Mode, f: Func, live: iset<RegId>, chain: CopyMap) {
    forall r :: r in chain && r in live ==> KnownCopy(m, f, live, r, chain[r])
  }

  lemma {:induction false} RootKnown(m: Mode, f: Func, live: iset<RegId>, chain: Chain, r: RegId)
    requires TrueCopies(m, f, live, chain) && r in live
    ensures KnownCopy(m, f, live, r, Root(chain, r))
    decreases Depth(chain, r)
  {
    if !IsRoot(chain, r) {
      StepDecreasesDepth(chain, r);
      RootKnown(m, f, live, chain, chain[r]);
      KnownCopyTransitive(m, f, live, r, chain[r], Root(chain, r));
    }
  }

  lemma LinkKnown(m: Mode, f: Func, live: iset<RegId>, chain: Chain, b: nat, i: nat, now: Inst)
    requires Strict(f, live) && At(f, b, i) && TrueCopies(m, f, live, chain)
    ensures TrueCopies(m, f, live, LinkCopy(chain, InstAt(f, b, i), now))
  {
    var was := InstAt(f, b, i);
    if was.Copy? && was.dest in live {
      CopyKnown(m, f, live, b, i);
      RootKnown(m, f, live, chain, was.src);
      KnownCopyTransitive(m, f, live, was.dest, was.src, Root(chain, was.src));
    }
  }
}
