/** Regions of memory with bump allocation, and the manager that allocates in any of them. */
module Regions {
  import opened Options

  const REGION_SIZE := 2 * 1024 * 1024
  const OBJ_ALIGN := 8
  const HEADER_SIZE := 16

  datatype Color = White | Gray | Black

  /** The header of an object, by its fields. */
  datatype Header = Header(color: Color, pinned: bool, forward: nat, payload: nat)

  type Headers = map<nat, Header>

  function AlignUp(n: nat): (r: nat)
    ensures n <= r < n + OBJ_ALIGN && r % OBJ_ALIGN == 0
  {
    (n + OBJ_ALIGN - 1) / OBJ_ALIGN * OBJ_ALIGN
  }

  /** The bytes an object takes. */
  function Footprint(payload: nat): (r: nat)
    ensures r % OBJ_ALIGN == 0 && HEADER_SIZE + payload <= r < HEADER_SIZE + payload + OBJ_ALIGN
  {
    AlignUp(HEADER_SIZE + payload)
  }

  // Sixteen bytes for the header and the payload, rounded up to a multiple of eight.
  lemma FootprintIsLeast(payload: nat, n: nat)
    requires n % 8 == 0 && n >= 16 + payload
    ensures Footprint(payload) % 8 == 0 && 16 + payload <= Footprint(payload) <= n
  {
  }

  // ---------------------------------------------------------------- tilings

  /** From at to end, memory is one object after the other. */
  predicate Tiled(m: Headers, at: nat, end: nat)
    decreases end - at
  {
    at == end || (at < end && at in m && Tiled(m, at + Footprint(m[at].payload), end))
  }

  /** Their addresses. */
  function Objects(m: Headers, at: nat, end: nat): seq<nat>
    requires Tiled(m, at, end)
    decreases end - at
  {
    if at == end then [] else [at] + Objects(m, at + Footprint(m[at].payload), end)
  }

  lemma {:induction false} TilingBounds(m: Headers, at: nat, end: nat)
    requires Tiled(m, at, end)
    ensures at <= end
    decreases end - at
  {
    if at != end {
      TilingBounds(m, at + Footprint(m[at].payload), end);
    }
  }

  // Objects are aligned, lie one behind the other without gap or overlap, and fill the space.
  lemma {:induction false} ObjectsTile(m: Headers, at: nat, end: nat, k: nat)
    requires Tiled(m, at, end) && at % OBJ_ALIGN == 0 && k < |Objects(m, at, end)|
    ensures var objs := Objects(m, at, end);
            && at <= objs[k] && objs[k] in m && objs[k] % OBJ_ALIGN == 0
            && objs[k] + Footprint(m[objs[k]].payload) == (if k + 1 < |objs| then objs[k + 1] else end)
            && objs[0] == at
    decreases end - at
  {
    var next := at + Footprint(m[at].payload);
    TilingBounds(m, next, end);
    if k > 0 {
      ObjectsTile(m, next, end, k - 1);
    } else if next != end {
      assert Objects(m, next, end)[0] == next;
    }
  }

  lemma {:induction false} ObjectsAscend(m: Headers, at: nat, end: nat, j: nat, k: nat)
    requires Tiled(m, at, end) && at % OBJ_ALIGN == 0 && j < k < |Objects(m, at, end)|
    ensures var objs := Objects(m, at, end); objs[j] in m && objs[j] + Footprint(m[objs[j]].payload) <= objs[k]
    decreases k
  {
    ObjectsTile(m, at, end, k - 1);
    ObjectsTile(m, at, end, j);
    if j < k - 1 {
      ObjectsAscend(m, at, end, j, k - 1);
    }
  }

  function TotalSize(m: Headers, objs: seq<nat>): nat
    requires forall a | a in objs :: a in m
  {
    if objs == [] then 0 else Footprint(m[objs[0]].payload) + TotalSize(m, objs[1..])
  }

  // The sizes of the objects add up to the space.
  lemma {:induction false} SizesAddUp(m: Headers, at: nat, end: nat)
    requires Tiled(m, at, end)
    ensures (forall a | a in Objects(m, at, end) :: a in m) && at + TotalSize(m, Objects(m, at, end)) == end
    decreases end - at
  {
    if at != end {
      SizesAddUp(m, at + Footprint(m[at].payload), end);
    }
  }

  // Only headers in the space, and only their sizes, matter.
  lemma {:induction false} SameSizesSameTiling(m: Headers, m': Headers, at: nat, end: nat)
    requires Tiled(m, at, end)
    requires forall a :: at <= a < end && a in m ==> a in m' && m'[a].payload == m[a].payload
    ensures Tiled(m', at, end) && Objects(m', at, end) == Objects(m, at, end)
    decreases end - at
  {
    if at != end {
      SameSizesSameTiling(m, m', at + Footprint(m[at].payload), end);
    }
  }

  lemma {:induction false} TilingGrows(m: Headers, at: nat, end: nat, h: Header)
    requires Tiled(m, at, end)
    ensures var m', end' := m[end := h], end + Footprint(h.payload);
            Tiled(m', at, end') && Objects(m', at, end') == Objects(m, at, end) + [end]
    decreases end - at
  {
    var m', end' := m[end := h], end + Footprint(h.payload);
    if at == end {
      assert Tiled(m', end', end') && Objects(m', end', end') == [];
    } else {
      TilingBounds(m, at + Footprint(m[at].payload), end);
      TilingGrows(m, at + Footprint(m[at].payload), end, h);
    }
  }

  function NewHeader(addr: nat, payload: nat): Header {
    Header(White, false, addr, payload)
  }

  // ---------------------------------------------------------------- regions

  /** The memory of two regions does not overlap. */
  predicate Apart(base: nat, base': nat) {
    base + REGION_SIZE <= base' || base' + REGION_SIZE <= base
  }

  function Sum(ns: seq<nat>): nat {
    if ns == [] then 0 else ns[0] + Sum(ns[1..])
  }

  lemma {:induction false} SumUpdate(ns: seq<nat>, k: nat, n: nat)
    requires k < |ns|
    ensures Sum(ns[k := n]) == Sum(ns) - ns[k] + n
  {
    if k > 0 {
      assert ns[k := n][1..] == ns[1..][k - 1 := n];
      SumUpdate(ns[1..], k - 1, n);
    } else {
      assert ns[k := n][1..] == ns[1..];
    }
  }

  lemma {:induction false} SumSplit(ns: seq<nat>, k: nat)
    requires k < |ns|
    ensures Sum(ns[..k + 1]) == Sum(ns[..k]) + ns[k]
  {
    if k > 0 {
      assert ns[..k + 1][1..] == ns[1..][..k] && ns[..k][1..] == ns[1..][..k - 1];
      SumSplit(ns[1..], k - 1);
    } else {
      assert ns[..1] == [ns[0]] && ns[..0] == [];
    }
  }

  lemma {:induction false} SumBounded(ns: seq<nat>, bound: nat)
    requires forall k :: 0 <= k < |ns| ==> ns[k] <= bound
    ensures Sum(ns) <= |ns| * bound
  {
    if ns != [] {
      SumBounded(ns[1..], bound);
    }
  }

  function Flatten(objs: seq<seq<nat>>): seq<nat> {
    if objs == [] then [] else objs[0] + Flatten(objs[1..])
  }

  // ---------------------------------------------------------------- sweeping

  /** Visit the objects in order: free the white ones, paint the others white. */
  function Sweep(m: Headers, order: seq<nat>): (r: (Headers, seq<nat>))
    requires forall a | a in order :: a in m
    ensures r.0.Keys == m.Keys
  {
    if order == [] then (m, [])
    else
      var a := order[0];
      if m[a].color == White then
        var (m', freed) := Sweep(m, order[1..]);
        (m', [a] + freed)
      else Sweep(m[a := m[a].(color := White)], order[1..])
  }

  predicate Distinct(objs: seq<nat>) {
    forall j, k :: 0 <= j < k < |objs| ==> objs[j] != objs[k]
  }

  function Whites(m: Headers, order: seq<nat>): seq<nat>
    requires forall a | a in order :: a in m
  {
    if order == [] then []
    else (if m[order[0]].color == White then [order[0]] else []) + Whites(m, order[1..])
  }

  lemma {:induction false} SameColorsSameWhites(m: Headers, m': Headers, order: seq<nat>)
    requires forall a | a in order :: a in m && a in m' && m'[a].color == m[a].color
    ensures Whites(m', order) == Whites(m, order)
  {
    if order != [] {
      SameColorsSameWhites(m, m', order[1..]);
    }
  }

  // Sweeping frees the white objects, in order and once each, leaves every object white, and touches
  // nothing but the colours of the objects.
  lemma {:induction false} SweepExactly(m: Headers, order: seq<nat>)
    requires (forall a | a in order :: a in m) && Distinct(order)
    ensures var (m', freed) := Sweep(m, order);
            && freed == Whites(m, order)
            && (forall a :: a in m ==> m'[a] == if a in order then m[a].(color := White) else m[a])
  {
    if order != [] {
      var a, rest := order[0], order[1..];
      assert a !in rest;
      assert forall b :: b in order <==> b == a || b in rest;
      var m1 := if m[a].color == White then m else m[a := m[a].(color := White)];
      SweepExactly(m1, rest);
      SameColorsSameWhites(m, m1, rest);
    }
  }

  /** The headers at the same addresses, with the same sizes. */
  ghost predicate SameSizes(m: Headers, m': Headers) {
    m'.Keys == m.Keys && forall a :: a in m ==> m'[a].payload == m[a].payload
  }

  // ---------------------------------------------------------------- the heap

  /** Where a region lies, how far it is used, and how many objects it holds. */
  datatype Region = Region(base: nat, bump: nat, liveCount: nat) {
    function End(): nat {
      base + bump
    }

    predicate HasRoom(payload: nat) {
      bump + Footprint(payload) <= REGION_SIZE
    }

    ghost predicate Valid(m: Headers) {
      && base % OBJ_ALIGN == 0 && bump <= REGION_SIZE
      && Tiled(m, base, End()) && liveCount == |Objects(m, base, End())|
    }

    /** The live objects, in the order of their allocation. */
    ghost function Live(m: Headers): seq<nat>
      requires Valid(m)
    {
      Objects(m, base, End())
    }
  }

  // Headers written elsewhere, or written without changing a size, leave a region as it was.
  lemma RegionKept(r: Region, m: Headers, m': Headers)
    requires r.Valid(m)
    requires forall a :: r.base <= a < r.base + REGION_SIZE && a in m ==> a in m' && m'[a].payload == m[a].payload
    ensures r.Valid(m') && r.Live(m') == r.Live(m)
  {
    SameSizesSameTiling(m, m', r.base, r.End());
  }

  class RegionManager {
    var headers: Headers        // raw memory: the header at each address where one was written
    var regions: seq<Region>
    var currentRegion: nat
    var totalSize: nat

    ghost predicate Valid()
      reads this
    {
      && (forall k :: 0 <= k < |regions| ==> regions[k].Valid(headers))
      && (forall j, k :: 0 <= j < |regions| && 0 <= k < |regions| && j != k ==> Apart(regions[j].base, regions[k].base))
      && (currentRegion == 0 || currentRegion < |regions|)
      && totalSize == |regions| * REGION_SIZE
    }

    function Bumps(): (ns: seq<nat>)
      reads this
      ensures |ns| == |regions|
    {
      seq(|regions|, k requires 0 <= k < |regions| reads this => regions[k].bump)
    }

    /** The live objects of each region. */
    ghost function Live(): (objs: seq<seq<nat>>)
      requires Valid()
      reads this
      ensures |objs| == |regions|
    {
      seq(|regions|, k requires Valid() && 0 <= k < |regions| reads this => regions[k].Live(headers))
    }

    constructor ()
      ensures Valid() && regions == [] && headers == map[]
    {
      headers, regions, currentRegion, totalSize := map[], [], 0, 0;
    }

    /** Memory for the new regions comes from the system, aligned and apart from all other regions. */
    method Expand(bases: seq<nat>)
      requires Valid()
      requires forall i :: 0 <= i < |bases| ==> bases[i] % OBJ_ALIGN == 0
      requires forall i, j :: 0 <= i < |bases| && 0 <= j < |bases| && i != j ==> Apart(bases[i], bases[j])
      requires forall k, i :: 0 <= k < |regions| && 0 <= i < |bases| ==> Apart(regions[k].base, bases[i])
      modifies this
      ensures Valid() && headers == old(headers) && currentRegion == old(currentRegion)
      ensures regions == old(regions) + seq(|bases|, i requires 0 <= i < |bases| => Region(bases[i], 0, 0))
    {
      var added := [];
      for i := 0 to |bases|
        invariant |added| == i && forall j :: 0 <= j < i ==> added[j] == Region(bases[j], 0, 0)
      {
        added := added + [Region(bases[i], 0, 0)];
      }
      regions, totalSize := regions + added, totalSize + |bases| * REGION_SIZE;
    }

    // Succeeds exactly if there is room; a failed allocation changes nothing.
    method AllocateObject(k: nat, payload: nat) returns (r: Option<nat>)
      requires Valid() && k < |regions|
      modifies this`headers, this`regions
      ensures Valid() && r.Some? == old(regions[k].HasRoom(payload))
      ensures r.Some? <==> old(regions)[k].bump + Footprint(payload) <= 0x20_0000
      ensures r.None? ==> headers == old(headers) && regions == old(regions)
      ensures r.Some? ==>
        var was := old(regions[k]);
        && r.value == was.base + was.bump
        && headers == old(headers)[r.value := Header(White, false, r.value, payload)]
        && regions == old(regions)[k := Region(was.base, was.bump + Footprint(payload), was.liveCount + 1)]
        && Live() == old(Live())[k := old(Live())[k] + [r.value]]
        && Bumps() == old(Bumps())[k := old(Bumps())[k] + Footprint(payload)]
    {
      hide Tiled, Objects, TotalSize;
      ghost var m, live := headers, Live();
      var total := Footprint(payload);
      var offset := regions[k].bump;
      regions := regions[k := regions[k].(bump := offset + total)];
      if offset + total > REGION_SIZE {
        regions := regions[k := regions[k].(bump := regions[k].bump - total)];
        assert regions == old(regions);
        return None;
      }
      var addr := regions[k].base + offset;
      TilingGrows(m, regions[k].base, addr, NewHeader(addr, payload));
      headers := headers[addr := NewHeader(addr, payload)];
      regions := regions[k := regions[k].(liveCount := regions[k].liveCount + 1)];
      forall j | 0 <= j < |regions| && j != k
        ensures regions[j].Valid(headers) && regions[j].Live(headers) == live[j]
      {
        RegionKept(regions[j], m, headers);
      }
      return Some(addr);
    }

    // Walking by size visits exactly the live objects of a region, once each, in allocation order.
    method IterObjects(k: nat) returns (visited: seq<nat>)
      requires Valid() && k < |regions|
      ensures visited == Live()[k]
    {
      var base := regions[k].base;
      visited := [];
      var offset := 0;
      while offset < regions[k].bump
        invariant Tiled(headers, base + offset, regions[k].End())
        invariant visited + Objects(headers, base + offset, regions[k].End()) == Live()[k]
        decreases regions[k].bump - offset
      {
        TilingBounds(headers, base + offset + Footprint(headers[base + offset].payload), regions[k].End());
        visited := visited + [base + offset];
        offset := offset + Footprint(headers[base + offset].payload);
      }
      TilingBounds(headers, base + offset, regions[k].End());
    }

    method Reset(k: nat)
      requires Valid() && k < |regions|
      modifies this`regions
      ensures Valid() && regions == old(regions)[k := Region(old(regions[k]).base, 0, 0)]
      ensures Live() == old(Live())[k := []]
    {
      regions := regions[k := Region(regions[k].base, 0, 0)];
    }

    method ResetAll()
      requires Valid()
      modifies this
      ensures Valid() && headers == old(headers) && totalSize == old(totalSize) && currentRegion == 0
      ensures |regions| == |old(regions)|
      ensures forall k :: 0 <= k < |regions| ==> regions[k] == Region(old(regions)[k].base, 0, 0) && Live()[k] == []
    {
      for i := 0 to |regions|
        invariant Valid() && headers == old(headers) && totalSize == old(totalSize) && |regions| == |old(regions)|
        invariant forall k :: 0 <= k < i ==> regions[k] == Region(old(regions)[k].base, 0, 0)
        invariant forall k :: i <= k < |regions| ==> regions[k] == old(regions)[k]
      {
        Reset(i);
      }
      currentRegion := 0;
    }

    // Fails exactly if no region has room for header and payload, and then allocates nothing.
    method Allocate(payload: nat) returns (r: Option<nat>, ghost k: nat)
      requires Valid() && regions != []
      modifies this`headers, this`regions, this`currentRegion
      ensures Valid()
      ensures r.None? <==> forall j :: 0 <= j < |old(regions)| ==> !old(regions)[j].HasRoom(payload)
      ensures r.None? ==> headers == old(headers) && regions == old(regions)
      ensures r.Some? ==>
        && k < |old(regions)| == |regions| && currentRegion == k
        && (if old(regions)[old(currentRegion)].HasRoom(payload) then k == old(currentRegion)
            else forall j :: 0 <= j < k ==> !old(regions)[j].HasRoom(payload))
        && r.value == old(regions)[k].End() && headers == old(headers)[r.value := NewHeader(r.value, payload)]
        && Live() == old(Live())[k := old(Live())[k] + [r.value]]
        && Bumps() == old(Bumps())[k := old(Bumps())[k] + Footprint(payload)]
    {
      hide Tiled, Objects, TotalSize, Footprint;
      k := currentRegion;
      r := AllocateObject(currentRegion, payload);
      if r.Some? {
        return;
      }
      for i := 0 to |regions|
        invariant Valid() && headers == old(headers) && regions == old(regions)
        invariant forall j :: 0 <= j < i ==> !regions[j].HasRoom(payload)
      {
        if regions[i].bump + payload <= REGION_SIZE {
          currentRegion, k := i, i;
          r := AllocateObject(i, payload);
          if r.Some? {
            return;
          }
        }
      }
      r := None;
    }

    // The used bytes are the sizes of the live objects, and never more than the heap.
    method UsedBytes() returns (used: nat)
      requires Valid()
      ensures used == Sum(Bumps()) && used <= totalSize
      ensures forall k :: 0 <= k < |regions| ==>
                (forall a | a in Live()[k] :: a in headers) && regions[k].bump == TotalSize(headers, Live()[k])
    {
      used := 0;
      for k := 0 to |regions|
        invariant used == Sum(Bumps()[..k])
      {
        SumSplit(Bumps(), k);
        used := used + regions[k].bump;
      }
      assert Bumps()[..|regions|] == Bumps();
      SumBounded(Bumps(), REGION_SIZE);
      forall k | 0 <= k < |regions|
        ensures (forall a | a in Live()[k] :: a in headers) && regions[k].bump == TotalSize(headers, Live()[k])
      {
        SizesAddUp(headers, regions[k].base, regions[k].End());
      }
    }

    // One pass over the objects of all regions.
    method SweepUnmarked() returns (freed: seq<nat>)
      requires Valid()
      modifies this`headers
      ensures Valid() && Live() == old(Live()) && SameSizes(old(headers), headers)
      ensures forall a | a in Flatten(old(Live())) :: a in old(headers)
      ensures (headers, freed) == Sweep(old(headers), Flatten(old(Live())))
    {
      hide Tiled, Objects, Sweep, Footprint;
      ghost var m, live := headers, Live();
      LiveHaveHeaders();
      freed := [];
      assert live[0..] == live && [] + Sweep(m, Flatten(live)).1 == Sweep(m, Flatten(live)).1;
      for k := 0 to |regions|
        invariant Valid() && SameSizes(m, headers) && Live() == live
        invariant forall a | a in Flatten(live[k..]) :: a in headers
        invariant var (m', rest) := Sweep(headers, Flatten(live[k..])); (m', freed + rest) == Sweep(m, Flatten(live))
      {
        assert live[k..][1..] == live[k + 1..] && live[k..][0] == live[k];
        var more := SweepRegion(k, Flatten(live[k + 1..]));
        ghost var rest := Sweep(headers, Flatten(live[k + 1..])).1;
        assert freed + (more + rest) == (freed + more) + rest;
        freed := freed + more;
      }
      assert live[|regions|..] == [];
      NothingToSweep(headers, freed);
    }

    method SweepRegion(k: nat, ghost later: seq<nat>) returns (freed: seq<nat>)
      requires Valid() && k < |regions| && forall a | a in Live()[k] + later :: a in headers
      modifies this`headers
      ensures Valid() && Live() == old(Live()) && SameSizes(old(headers), headers)
      ensures forall a | a in later :: a in headers
      ensures var (m', rest) := Sweep(headers, later); (m', freed + rest) == Sweep(old(headers), old(Live())[k] + later)
    {
      hide Sweep, Footprint, Objects, Tiled;
      ghost var m, live := headers, Live();
      var at, end := regions[k].base, regions[k].base + regions[k].bump;
      freed := [];
      assert [] + Sweep(m, live[k] + later).1 == Sweep(m, live[k] + later).1;
      while at < end
        invariant Valid() && Live() == live && SameSizes(m, headers)
        invariant Tiled(headers, at, end)
        invariant forall a | a in Objects(headers, at, end) + later :: a in headers
        invariant var (m', rest) := Sweep(headers, Objects(headers, at, end) + later);
                  (m', freed + rest) == Sweep(m, live[k] + later)
        decreases end - at
      {
        ghost var here, before := headers, freed;
        NextObject(here, at, end, later);
        var next := at + Footprint(headers[at].payload);
        if headers[at].color == White {
          freed := freed + [at];
        } else {
          headers := headers[at := headers[at].(color := White)];
        }
        PaintingKeepsRegions(here);
        SameSizesSameTiling(here, headers, next, end);
        SweepOne(here, at, Objects(here, next, end) + later);
        ghost var rest := Sweep(headers, Objects(here, next, end) + later).1;
        assert before + ([at] + rest) == (before + [at]) + rest;
        at := next;
      }
      TilingBounds(headers, at, end);
      NoObjectsLeft(headers, at, later);
    }

    lemma LiveHaveHeaders()
      requires Valid()
      ensures forall a | a in Flatten(Live()) :: a in headers
    {
      forall a | a in Flatten(Live())
        ensures a in headers
      {
        var k := FlattenSource(Live(), a);
        SizesAddUp(headers, regions[k].base, regions[k].End());
      }
    }

    // No object is met twice in a pass over the heap.
    lemma LiveAreDistinct()
      requires Valid()
      ensures Distinct(Flatten(Live()))
    {
      forall k | 0 <= k < |regions|
        ensures Distinct(Live()[k]) && forall a ::
                                         a in Live()[k] ==> regions[k].base <= a < regions[k].base + REGION_SIZE
      {
        RegionObjectsDistinct(headers, regions[k]);
      }
      FlattenDistinct(Live());
    }

    lemma PaintingKeepsRegions(m: Headers)
      requires forall k :: 0 <= k < |regions| ==> regions[k].Valid(m)
      requires SameSizes(m, headers)
      ensures forall k ::
                0 <= k < |regions| ==> regions[k].Valid(headers) && regions[k].Live(headers) == regions[k].Live(m)
    {
      forall k | 0 <= k < |regions|
        ensures regions[k].Valid(headers) && regions[k].Live(headers) == regions[k].Live(m)
      {
        RegionKept(regions[k], m, headers);
      }
    }
  }

  lemma NextObject(m: Headers, at: nat, end: nat, later: seq<nat>)
    requires Tiled(m, at, end) && at < end
    ensures at in m
    ensures var next := at + Footprint(m[at].payload);
            at < next <= end && Tiled(m, next, end)
            && Objects(m, at, end) + later == [at] + (Objects(m, next, end) + later)
  {
    TilingBounds(m, at + Footprint(m[at].payload), end);
  }

  lemma NoObjectsLeft(m: Headers, at: nat, later: seq<nat>)
    ensures Tiled(m, at, at) && Objects(m, at, at) + later == later
  {
  }

  lemma NothingToSweep(m: Headers, freed: seq<nat>)
    ensures Sweep(m, Flatten([])) == (m, []) && freed + [] == freed
  {
  }

  lemma SweepOne(m: Headers, a: nat, rest: seq<nat>)
    requires a in m && forall b | b in rest :: b in m
    ensures var m1 := if m[a].color == White then m else m[a := m[a].(color := White)];
            var (m', freed) := Sweep(m1, rest);
            Sweep(m, [a] + rest) == (m', if m[a].color == White then [a] + freed else freed)
  {
    assert ([a] + rest)[1..] == rest;
  }

  lemma {:induction false} ObjectsWithin(m: Headers, at: nat, end: nat, a: nat)
    requires Tiled(m, at, end) && a in Objects(m, at, end)
    ensures at <= a < end && a in m
    decreases end - at
  {
    TilingBounds(m, at + Footprint(m[at].payload), end);
    if a != at {
      ObjectsWithin(m, at + Footprint(m[at].payload), end, a);
    }
  }

  lemma RegionObjectsDistinct(m: Headers, r: Region)
    requires r.Valid(m)
    ensures Distinct(r.Live(m)) && forall a :: a in r.Live(m) ==> r.base <= a < r.base + REGION_SIZE
  {
    forall j, k | 0 <= j < k < |r.Live(m)|
      ensures r.Live(m)[j] != r.Live(m)[k]
    {
      ObjectsAscend(m, r.base, r.End(), j, k);
    }
    forall a | a in r.Live(m)
      ensures r.base <= a < r.base + REGION_SIZE
    {
      ObjectsWithin(m, r.base, r.End(), a);
    }
  }

  lemma {:induction false} NotInFlatten(objs: seq<seq<nat>>, a: nat)
    requires forall k :: 0 <= k < |objs| ==> a !in objs[k]
    ensures a !in Flatten(objs)
  {
    if objs != [] {
      NotInFlatten(objs[1..], a);
    }
  }

  lemma {:induction false} FlattenDistinct(objs: seq<seq<nat>>)
    requires forall k :: 0 <= k < |objs| ==> Distinct(objs[k])
    requires forall j, k, a :: 0 <= j < k < |objs| && a in objs[j] ==> a !in objs[k]
    ensures Distinct(Flatten(objs))
  {
    if objs != [] {
      var rest := Flatten(objs[1..]);
      forall j, k, a | 0 <= j < k < |objs[1..]| && a in objs[1..][j]
        ensures a !in objs[1..][k]
      {
        assert a in objs[j + 1];
      }
      FlattenDistinct(objs[1..]);
      forall a | a in objs[0]
        ensures a !in rest
      {
        forall k | 0 <= k < |objs[1..]|
          ensures a !in objs[1..][k]
        {
          assert objs[1..][k] == objs[k + 1];
        }
        NotInFlatten(objs[1..], a);
      }
      forall j, k | 0 <= j < k < |objs[0] + rest|
        ensures (objs[0] + rest)[j] != (objs[0] + rest)[k]
      {
        if j < |objs[0]| <= k {
          assert (objs[0] + rest)[j] in objs[0] && (objs[0] + rest)[k] in rest;
        }
      }
    }
  }

  lemma {:induction false} FlattenSource(objs: seq<seq<nat>>, a: nat) returns (k: nat)
    requires a in Flatten(objs)
    ensures k < |objs| && a in objs[k]
  {
    if a in objs[0] {
      k := 0;
    } else {
      k := FlattenSource(objs[1..], a);
      k := k + 1;
    }
  }
}
