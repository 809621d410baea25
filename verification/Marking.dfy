/** Tri-colour marking: the mark queue, the write barrier, and a whole collection cycle. */
module Marking {
  import opened Options
  import opened Regions

  /** The heap and the mark queue. */
  datatype Marking = Marking(headers: Headers, queue: seq<nat>)

  function Painted(m: Headers, a: nat, color: Color): Headers
    requires a in m
  {
    m[a := m[a].(color := color)]
  }

  /** Shade a white object gray and queue it. */
  function Shade(s: Marking, a: nat): (r: Marking)
    requires a in s.headers
    ensures r.headers.Keys == s.headers.Keys
  {
    if s.headers[a].color == White then Marking(Painted(s.headers, a, Gray), s.queue + [a]) else s
  }

  function Seed(s: Marking, roots: seq<nat>): (r: Marking)
    requires forall a | a in roots :: a in s.headers
    ensures r.headers.Keys == s.headers.Keys
    decreases |roots|
  {
    if roots == [] then s else Seed(Shade(s, roots[0]), roots[1..])
  }

  /** Take one object from the queue, and blacken it if it is gray. */
  function MarkOne(s: Marking): (r: Marking)
    requires s.queue != [] && s.queue[0] in s.headers
    ensures r.headers.Keys == s.headers.Keys
  {
    var a := s.queue[0];
    Marking(if s.headers[a].color == Gray then Painted(s.headers, a, Black) else s.headers, s.queue[1..])
  }

  /** The barrier acts where a black object comes to refer to a white one. */
  predicate BarrierActs(m: Headers, source: nat, target: Option<nat>) {
    source in m && m[source].color == Black && target.Some? && target.value in m && m[target.value].color == White
  }

  function Barrier(s: Marking, source: nat, target: Option<nat>): (r: Marking)
    ensures r.headers.Keys == s.headers.Keys
  {
    if BarrierActs(s.headers, source, target) then Shade(s, target.value) else s
  }

  // Whatever the colours were, a black object does not come to refer to a white one. Nothing else is shaded.
  lemma BarrierLeavesNoBlackToWhite(s: Marking, source: nat, t: nat)
    requires source in s.headers && t in s.headers
    ensures var r := Barrier(s, source, Some(t));
            && (r.headers[source].color == Black ==> r.headers[t].color != White)
            && (s.headers[source].color != Black || s.headers[t].color != White ==> r == s)
            && (s.headers[source].color == Black && s.headers[t].color == White ==>
                  r.headers[t].color == Gray && r.queue == s.queue + [t])
            && (forall b :: b in s.headers && b != t ==> r.headers[b] == s.headers[b])
  {
  }

  // ---------------------------------------------------------------- the invariant

  /**
    Every object that was ever shaded is gray while it waits in the queue and black afterwards, every
    other object is white, the queue holds nothing twice, and nothing but colours has changed.
   */
  ghost predicate Inv(start: Headers, objs: set<nat>, shaded: set<nat>, s: Marking) {
    && s.headers.Keys == start.Keys && shaded <= objs <= start.Keys
    && (forall a :: a in s.queue ==> a in shaded)
    && Distinct(s.queue)
    && forall a :: a in start ==>
         s.headers[a] == if a in objs
                         then start[a].(color := if a !in shaded then White else if a in s.queue then Gray else Black)
                         else start[a]
  }

  lemma ShadeKeepsInv(start: Headers, objs: set<nat>, shaded: set<nat>, s: Marking, a: nat)
    requires Inv(start, objs, shaded, s) && a in objs
    ensures Inv(start, objs, shaded + {a}, Shade(s, a))
    ensures s.headers[a].color == White <==> a !in shaded
  {
    var s' := Shade(s, a);
    if a !in shaded {
      assert forall b :: b in s'.queue <==> b == a || b in s.queue;
    } else {
      assert shaded + {a} == shaded;
    }
  }

  function SetOf(objs: seq<nat>): set<nat> {
    set a | a in objs
  }

  lemma {:induction false} SeedKeepsInv(start: Headers, objs: set<nat>, shaded: set<nat>, s: Marking, roots: seq<nat>)
    requires Inv(start, objs, shaded, s) && forall a | a in roots :: a in objs
    ensures Inv(start, objs, shaded + SetOf(roots), Seed(s, roots))
    decreases |roots|
  {
    if roots == [] {
      assert shaded + SetOf(roots) == shaded;
    } else {
      ShadeKeepsInv(start, objs, shaded, s, roots[0]);
      SeedKeepsInv(start, objs, shaded + {roots[0]}, Shade(s, roots[0]), roots[1..]);
      assert shaded + SetOf(roots) == (shaded + {roots[0]}) + SetOf(roots[1..]);
    }
  }

  lemma MarkKeepsInv(start: Headers, objs: set<nat>, shaded: set<nat>, s: Marking)
    requires Inv(start, objs, shaded, s) && s.queue != []
    ensures s.queue[0] in s.headers && Inv(start, objs, shaded, MarkOne(s))
  {
    var a := s.queue[0];
    assert a in s.queue;
    assert forall b :: b in s.queue <==> b == a || b in s.queue[1..];
    assert forall k :: 0 <= k < |s.queue[1..]| ==> s.queue[1..][k] == s.queue[k + 1];
  }

  // Between steps an object is gray exactly when it waits in the queue, and it waits there once.
  lemma GrayExactlyQueued(start: Headers, objs: set<nat>, shaded: set<nat>, s: Marking, a: nat)
    requires Inv(start, objs, shaded, s) && a in objs
    ensures s.headers[a].color == Gray <==> a in s.queue
    ensures multiset(s.queue)[a] <= 1
  {
    DistinctCount(s.queue, a);
  }

  lemma {:induction false} DistinctCount(q: seq<nat>, a: nat)
    requires Distinct(q)
    ensures multiset(q)[a] == if a in q then 1 else 0
  {
    if q != [] {
      assert q == [q[0]] + q[1..];
      assert q[0] !in q[1..];
      DistinctCount(q[1..], a);
    }
  }

  // ---------------------------------------------------------------- steps in any order

  /** What can happen while marking is under way. */
  datatype Step = MarkNext | Write(source: nat, target: Option<nat>)

  function Perform(s: Marking, step: Step): (r: Marking)
    ensures r.headers.Keys == s.headers.Keys
  {
    match step
    case MarkNext => if s.queue != [] && s.queue[0] in s.headers then MarkOne(s) else s
    case Write(source, target) => Barrier(s, source, target)
  }

  function PerformAll(s: Marking, steps: seq<Step>): (r: Marking)
    ensures r.headers.Keys == s.headers.Keys
    decreases |steps|
  {
    if steps == [] then s else PerformAll(Perform(s, steps[0]), steps[1..])
  }

  /** The objects that the barrier shades on the way. */
  function Caught(s: Marking, steps: seq<Step>): set<nat>
    decreases |steps|
  {
    if steps == [] then {}
    else
      var step := steps[0];
      (if step.Write? && BarrierActs(s.headers, step.source, step.target) then {step.target.value} else {})
      + Caught(Perform(s, step), steps[1..])
  }

  /** Only objects of the heap are written into fields. */
  ghost predicate WritesObjects(objs: set<nat>, steps: seq<Step>) {
    forall step | step in steps :: step.Write? && step.target.Some? ==> step.target.value in objs
  }

  lemma {:induction false} StepsKeepInv(start: Headers, objs: set<nat>, shaded: set<nat>, s: Marking, steps: seq<Step>)
    requires Inv(start, objs, shaded, s) && WritesObjects(objs, steps)
    ensures Inv(start, objs, shaded + Caught(s, steps), PerformAll(s, steps))
    decreases |steps|
  {
    hide Inv, MarkOne, Shade;
    if steps == [] {
      assert shaded + Caught(s, steps) == shaded;
    } else {
      var step := steps[0];
      var next := shaded + if step.Write? && BarrierActs(s.headers, step.source, step.target) then {step.target.value}
                           else {};
      StepKeepsInv(start, objs, shaded, s, step);
      StepsKeepInv(start, objs, next, Perform(s, step), steps[1..]);
      assert shaded + Caught(s, steps) == next + Caught(Perform(s, step), steps[1..]);
    }
  }

  lemma StepKeepsInv(start: Headers, objs: set<nat>, shaded: set<nat>, s: Marking, step: Step)
    requires Inv(start, objs, shaded, s) && WritesObjects(objs, [step])
    ensures var caught := if step.Write? && BarrierActs(s.headers, step.source, step.target) then {step.target.value}
                          else {};
            Inv(start, objs, shaded + caught, Perform(s, step))
  {
    assert step in [step] && shaded + {} == shaded;
    if step.MarkNext? {
      if s.queue != [] {
        MarkKeepsInv(start, objs, shaded, s);
      }
    } else if BarrierActs(s.headers, step.source, step.target) {
      ShadeKeepsInv(start, objs, shaded, s, step.target.value);
    }
  }

  /** Mark until the queue is empty. */
  function Drain(s: Marking): (r: Marking)
    requires forall a | a in s.queue :: a in s.headers
    ensures r.queue == [] && r.headers.Keys == s.headers.Keys
    decreases |s.queue|
  {
    if s.queue == [] then s else Drain(MarkOne(s))
  }

  lemma {:induction false} DrainKeepsInv(start: Headers, objs: set<nat>, shaded: set<nat>, s: Marking)
    requires Inv(start, objs, shaded, s)
    ensures forall a | a in s.queue :: a in s.headers
    ensures Inv(start, objs, shaded, Drain(s))
    decreases |s.queue|
  {
    if s.queue != [] {
      MarkKeepsInv(start, objs, shaded, s);
      DrainKeepsInv(start, objs, shaded, MarkOne(s));
    }
  }

  // ---------------------------------------------------------------- a whole cycle

  ghost predicate AllWhite(m: Headers, objs: set<nat>) {
    objs <= m.Keys && forall a :: a in objs ==> m[a].color == White
  }

  function Survivors(s: Marking, roots: seq<nat>, steps: seq<Step>): set<nat>
    requires forall a | a in roots :: a in s.headers
  {
    SetOf(roots) + Caught(Seed(s, roots), steps)
  }

  /** The objects of an order that are not in a set. */
  function Without(order: seq<nat>, shaded: set<nat>): seq<nat> {
    if order == [] then [] else (if order[0] in shaded then [] else [order[0]]) + Without(order[1..], shaded)
  }

  lemma {:induction false} WhitesAreUnshaded(start: Headers, objs: set<nat>, shaded: set<nat>, s: Marking,
                                             order: seq<nat>)
    requires Inv(start, objs, shaded, s) && forall a | a in order :: a in objs
    ensures (forall a | a in order :: a in s.headers) && Whites(s.headers, order) == Without(order, shaded)
  {
    if order != [] {
      WhitesAreUnshaded(start, objs, shaded, s, order[1..]);
    }
  }

  lemma CycleInv(start: Headers, objs: set<nat>, roots: seq<nat>, steps: seq<Step>)
    requires AllWhite(start, objs) && (forall a | a in roots :: a in objs) && WritesObjects(objs, steps)
    ensures var s := PerformAll(Seed(Marking(start, []), roots), steps);
            && (forall a | a in s.queue :: a in s.headers)
            && Inv(start, objs, Survivors(Marking(start, []), roots, steps), Drain(s))
  {
    var s0 := Marking(start, []);
    assert Inv(start, objs, {}, s0);
    hide Inv;
    SeedKeepsInv(start, objs, {}, s0, roots);
    var s1 := Seed(s0, roots);
    assert {} + SetOf(roots) == SetOf(roots);
    StepsKeepInv(start, objs, SetOf(roots), s1, steps);
    DrainKeepsInv(start, objs, Survivors(s0, roots, steps), PerformAll(s1, steps));
  }

  lemma SeededQueueIsInHeap(start: Headers, objs: set<nat>, roots: seq<nat>)
    requires AllWhite(start, objs) && forall a | a in roots :: a in objs
    ensures forall a | a in Seed(Marking(start, []), roots).queue :: a in start
  {
    assert Inv(start, objs, {}, Marking(start, []));
    SeedKeepsInv(start, objs, {}, Marking(start, []), roots);
  }

  lemma InvKeepsSizes(start: Headers, objs: set<nat>, shaded: set<nat>, s: Marking)
    requires Inv(start, objs, shaded, s)
    ensures SameSizes(start, s.headers)
  {
  }

  lemma SweepRestores(start: Headers, objs: set<nat>, shaded: set<nat>, s: Marking, order: seq<nat>)
    requires AllWhite(start, objs) && Inv(start, objs, shaded, s) && Distinct(order) && SetOf(order) == objs
    ensures (forall a | a in order :: a in s.headers) && Sweep(s.headers, order) == (start, Without(order, shaded))
  {
    assert forall a :: a in order <==> a in SetOf(order);
    WhitesAreUnshaded(start, objs, shaded, s, order);
    SweepExactly(s.headers, order);
    var swept := Sweep(s.headers, order).0;
    assert forall a :: a in start ==> swept[a] == start[a];
    assert swept == start;
  }

  // From a white heap and an empty queue, whatever marking steps and writes come between the seeding
  // and the last drain, the sweep frees exactly the objects that are neither roots nor caught by the
  // barrier, once each and in order, and the heap is as it was: white, with every pin and every
  // forwarding address in place.
  lemma CycleFreesExactly(start: Headers, order: seq<nat>, roots: seq<nat>, steps: seq<Step>)
    requires AllWhite(start, SetOf(order)) && Distinct(order)
    requires (forall a | a in roots :: a in order) && WritesObjects(SetOf(order), steps)
    ensures var s := PerformAll(Seed(Marking(start, []), roots), steps);
            && (forall a | a in s.queue :: a in s.headers)
            && (forall a | a in order :: a in Drain(s).headers)
            && Sweep(Drain(s).headers, order) == (start, Without(order, Survivors(Marking(start, []), roots, steps)))
  {
    hide Inv, Sweep, Caught;
    CycleInv(start, SetOf(order), roots, steps);
    SweepRestores(start, SetOf(order), Survivors(Marking(start, []), roots, steps),
                  Drain(PerformAll(Seed(Marking(start, []), roots), steps)), order);
  }

  // A marking step takes the object that has waited longest, and blackens it if it is still gray.
  lemma MarkNextBlackens(s: Marking)
    requires s.queue != [] && s.queue[0] in s.headers
    ensures var a, r := s.queue[0], Perform(s, MarkNext);
            && r.queue == s.queue[1..]
            && (s.headers[a].color == White <==> r.headers[a].color == White) && r.headers[a].color != Gray
            && forall b :: b in s.headers && b != a ==> r.headers[b] == s.headers[b]
  {
  }

  // Without writes in between, as many marking steps as there are objects in the queue finish the marking.
  lemma {:induction false} StepsDrain(s: Marking, steps: seq<Step>)
    requires (forall a | a in s.queue :: a in s.headers)
    requires |steps| == |s.queue| && forall step | step in steps :: step == MarkNext
    ensures PerformAll(s, steps) == Drain(s)
    decreases |steps|
  {
    if steps != [] {
      assert s.queue[0] in s.queue && steps[0] in steps;
      assert forall a | a in s.queue[1..] :: a in s.queue;
      assert forall step | step in steps[1..] :: step in steps;
      StepsDrain(MarkOne(s), steps[1..]);
    }
  }

  /** Step i writes t into a field of an object that is black by then. */
  predicate WrittenIntoBlack(s: Marking, steps: seq<Step>, i: nat, t: nat) {
    && i < |steps| && steps[i].Write? && steps[i].target == Some(t)
    && var headers := PerformAll(s, steps[..i]).headers;
       steps[i].source in headers && headers[steps[i].source].color == Black
  }

  lemma LaterStep(s: Marking, steps: seq<Step>, i: nat, t: nat)
    requires steps != []
    ensures WrittenIntoBlack(s, steps, i + 1, t) <==> WrittenIntoBlack(Perform(s, steps[0]), steps[1..], i, t)
  {
    if i + 1 < |steps| {
      assert steps[..i + 1][0] == steps[0] && steps[..i + 1][1..] == steps[1..][..i];
    }
  }

  lemma {:induction false} WrittenIsShaded(start: Headers, objs: set<nat>, shaded: set<nat>, s: Marking,
                                           steps: seq<Step>, i: nat, t: nat)
    requires Inv(start, objs, shaded, s) && WritesObjects(objs, steps) && WrittenIntoBlack(s, steps, i, t)
    ensures t in shaded + Caught(s, steps)
    decreases i
  {
    var step := steps[0];
    assert steps[i] in steps && step in steps;
    if i == 0 {
      assert PerformAll(s, steps[..0]) == s;
    } else {
      LaterStep(s, steps, i - 1, t);
      StepKeepsInv(start, objs, shaded, s, step);
      var caught := if step.Write? && BarrierActs(s.headers, step.source, step.target) then {step.target.value} else {};
      hide Inv, BarrierActs, Perform;
      WrittenIsShaded(start, objs, shaded + caught, Perform(s, step), steps[1..], i - 1, t);
    }
  }

  lemma {:induction false} CaughtIsWritten(s: Marking, steps: seq<Step>, t: nat) returns (i: nat)
    requires t in Caught(s, steps)
    ensures WrittenIntoBlack(s, steps, i, t)
    decreases |steps|
  {
    var step := steps[0];
    if step.Write? && BarrierActs(s.headers, step.source, step.target) && t == step.target.value {
      i := 0;
      assert PerformAll(s, steps[..0]) == s;
    } else {
      i := CaughtIsWritten(Perform(s, step), steps[1..], t);
      LaterStep(s, steps, i, t);
      i := i + 1;
    }
  }

  lemma {:induction false} WithoutMembers(order: seq<nat>, shaded: set<nat>, t: nat)
    ensures t in Without(order, shaded) <==> t in order && t !in shaded
  {
    if order != [] {
      WithoutMembers(order[1..], shaded, t);
    }
  }

  // An object is kept exactly if it is a root, or was written into an object that was black by then.
  lemma KeptExactly(start: Headers, order: seq<nat>, roots: seq<nat>, steps: seq<Step>, t: nat)
    requires AllWhite(start, SetOf(order)) && Distinct(order) && t in order
    requires (forall a | a in roots :: a in order) && WritesObjects(SetOf(order), steps)
    ensures var seeded := Seed(Marking(start, []), roots);
            var s := PerformAll(seeded, steps);
            && (forall a | a in s.queue :: a in s.headers)
            && (forall a | a in order :: a in Drain(s).headers)
            && (t !in Sweep(Drain(s).headers, order).1
                <==> t in roots || exists i: nat :: WrittenIntoBlack(seeded, steps, i, t))
  {
    var s0 := Marking(start, []);
    var seeded := Seed(s0, roots);
    CycleFreesExactly(start, order, roots, steps);
    WithoutMembers(order, Survivors(s0, roots, steps), t);
    assert Inv(start, SetOf(order), {}, s0);
    SeedKeepsInv(start, SetOf(order), {}, s0, roots);
    assert {} + SetOf(roots) == SetOf(roots);
    hide Inv, Sweep, Caught, WrittenIntoBlack, Seed, PerformAll, Drain;
    if i: nat :| WrittenIntoBlack(seeded, steps, i, t) {
      WrittenIsShaded(start, SetOf(order), SetOf(roots), seeded, steps, i, t);
    }
    if t in Caught(seeded, steps) {
      var i := CaughtIsWritten(seeded, steps, t);
    }
  }

  // ---------------------------------------------------------------- in place

  class Marker {
    const heap: RegionManager
    var queue: seq<nat>
    var len: nat
    var marked: nat
    var encountered: nat

    constructor (heap: RegionManager)
      ensures this.heap == heap && queue == [] && len == 0 && marked == 0 && encountered == 0
    {
      this.heap, queue, len, marked, encountered := heap, [], 0, 0, 0;
    }

    ghost predicate Valid()
      reads this
    {
      len == |queue|
    }

    function State(): Marking
      reads this, heap
    {
      Marking(heap.headers, queue)
    }

    method Push(a: nat)
      requires Valid()
      modifies this`queue, this`len
      ensures Valid() && queue == old(queue) + [a]
    {
      queue, len := queue + [a], len + 1;
    }

    method Pop() returns (a: Option<nat>)
      requires Valid()
      modifies this`queue, this`len
      ensures Valid()
      ensures if old(queue) == [] then a == None && queue == []
              else a == Some(old(queue)[0]) && queue == old(queue)[1..]
    {
      if queue == [] {
        return None;
      }
      a := Some(queue[0]);
      queue, len := queue[1..], len - 1;
    }

    method TryShadeGray(a: nat) returns (won: bool)
      requires a in heap.headers
      modifies heap`headers
      ensures won == (old(heap.headers)[a].color == White)
      ensures heap.headers == if won then Painted(old(heap.headers), a, Gray) else old(heap.headers)
    {
      won := heap.headers[a].color == White;
      if won {
        heap.headers := heap.headers[a := heap.headers[a].(color := Gray)];
      }
    }

    method SeedFromRoots(roots: seq<nat>)
      requires Valid() && forall a | a in roots :: a in heap.headers
      modifies this, heap`headers
      ensures Valid() && State() == Seed(old(State()), roots)
      ensures encountered - old(encountered) == |queue| - |old(queue)|
    {
      for i := 0 to |roots|
        invariant Valid() && heap.headers.Keys == old(heap.headers).Keys
        invariant forall a | a in roots[i..] :: a in heap.headers
        invariant Seed(State(), roots[i..]) == Seed(old(State()), roots)
        invariant encountered - old(encountered) == |queue| - |old(queue)|
      {
        assert roots[i..][1..] == roots[i + 1..] && roots[i] in roots[i..];
        var won := TryShadeGray(roots[i]);
        if won {
          Push(roots[i]);
          encountered := encountered + 1;
        }
      }
    }

    method MarkObject(a: nat)
      requires Valid() && a in heap.headers
      modifies this`marked, heap`headers
      ensures heap.headers == if old(heap.headers)[a].color == Gray then Painted(old(heap.headers), a, Black)
                              else old(heap.headers)
    {
      if heap.headers[a].color != Gray {
        return;
      }
      heap.headers := heap.headers[a := heap.headers[a].(color := Black)];
      marked := marked + 1;
    }

    method ProcessQueue()
      requires Valid() && forall a | a in queue :: a in heap.headers
      modifies this, heap`headers
      ensures Valid() && State() == Drain(old(State()))
    {
      var next := Pop();
      ghost var s := old(State());
      while next.Some?
        invariant Valid() && heap.headers == s.headers
        invariant if next.Some? then s.queue == [next.value] + queue else s.queue == queue == []
        invariant forall a | a in s.queue :: a in s.headers
        invariant Drain(s) == Drain(old(State()))
        decreases |s.queue|
      {
        MarkObject(next.value);
        s := MarkOne(s);
        next := Pop();
      }
    }

    method WriteBarrier(source: nat, target: Option<nat>)
      requires Valid() && source in heap.headers && (target.Some? ==> target.value in heap.headers)
      modifies this`queue, this`len, heap`headers
      ensures Valid() && State() == Barrier(old(State()), source, target)
      ensures target.Some? && heap.headers[source].color == Black ==> heap.headers[target.value].color != White
    {
      if heap.headers[source].color == Black && target.Some? {
        if heap.headers[target.value].color == White {
          var won := TryShadeGray(target.value);
          if won {
            Push(target.value);
          }
        }
      }
    }

    // Seed, perform the steps, drain, sweep.
    method Cycle(roots: seq<nat>, steps: seq<Step>) returns (freed: seq<nat>)
      requires Valid() && heap.Valid() && queue == []
      requires AllWhite(heap.headers, SetOf(Flatten(heap.Live())))
      requires forall a | a in roots :: a in Flatten(heap.Live())
      requires WritesObjects(SetOf(Flatten(heap.Live())), steps)
      requires forall step | step in steps :: step.Write? ==> step.source in heap.headers
      modifies this, heap`headers
      ensures Valid() && heap.Valid() && queue == []
      ensures heap.headers == old(heap.headers)
      ensures (forall a | a in roots :: a in old(heap.headers))
      ensures freed == Without(Flatten(old(heap.Live())), Survivors(Marking(old(heap.headers), []), roots, steps))
    {
      hide Inv, Sweep, Caught, Seed, PerformAll, Drain, Regions.Objects, Regions.Tiled;
      ghost var start, order := heap.headers, Flatten(heap.Live());
      heap.LiveHaveHeaders();
      heap.LiveAreDistinct();
      CycleFreesExactly(start, order, roots, steps);
      CycleInv(start, SetOf(order), roots, steps);
      SeededQueueIsInHeap(start, SetOf(order), roots);
      SeedFromRoots(roots);
      RunSteps(steps);
      ProcessQueue();
      InvKeepsSizes(start, SetOf(order), Survivors(Marking(start, []), roots, steps), State());
      heap.PaintingKeepsRegions(start);
      assert heap.Live() == old(heap.Live());
      freed := heap.SweepUnmarked();
    }

    method RunSteps(steps: seq<Step>)
      requires Valid() && (forall a | a in queue :: a in heap.headers)
      requires forall step | step in steps :: step.Write? ==>
                 step.source in heap.headers && (step.target.Some? ==> step.target.value in heap.headers)
      modifies this, heap`headers
      ensures Valid() && State() == PerformAll(old(State()), steps)
    {
      for i := 0 to |steps|
        invariant Valid() && heap.headers.Keys == old(heap.headers).Keys
        invariant forall a | a in queue :: a in heap.headers
        invariant PerformAll(State(), steps[i..]) == PerformAll(old(State()), steps)
      {
        assert steps[i..][1..] == steps[i + 1..] && steps[i] in steps;
        match steps[i]
        case MarkNext =>
          var a := Pop();
          if a.Some? {
            MarkObject(a.value);
          }
        case Write(source, target) => WriteBarrier(source, target);
      }
    }
  }
}
