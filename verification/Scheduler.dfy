/**
  The green-thread scheduler. Its operations are taken apart into the steps between which other
  native threads can run: changing a thread's state, and putting it into a queue, are two steps.
 */
module Scheduler {
  import opened Options

  type ThreadId = nat

  datatype ThreadState = Runnable | Running | Blocked(reason: nat) | Sleeping(deadline: nat) | Dead

  datatype SleepEntry = SleepEntry(deadline: nat, id: ThreadId)

  datatype Scheduling = Scheduling(
    threads: map<ThreadId, ThreadState>,
    queue: seq<ThreadId>,           // the global run queue
    sleepers: seq<SleepEntry>,      // the sleep queue, earliest deadline first
    current: Option<ThreadId>,
    popped: Option<ThreadId>,       // taken from the run queue, its state not yet looked at
    acting: multiset<ThreadId>,     // read as the current thread by an operation that has yet to set its state
    pushing: multiset<ThreadId>,    // made runnable, not yet in the run queue
    arming: multiset<SleepEntry>,   // set to sleep, not yet in the sleep queue
    nextId: ThreadId
  )

  // ---------------------------------------------------------------- the sleep queue

  /** Earlier deadlines come first, and of equal ones the smaller thread. */
  predicate Sooner(a: SleepEntry, b: SleepEntry) {
    a.deadline < b.deadline || (a.deadline == b.deadline && a.id <= b.id)
  }

  ghost predicate Sorted(q: seq<SleepEntry>) {
    forall j, k :: 0 <= j < k < |q| ==> Sooner(q[j], q[k])
  }

  function Insert(q: seq<SleepEntry>, e: SleepEntry): seq<SleepEntry> {
    if q == [] || Sooner(e, q[0]) then [e] + q else [q[0]] + Insert(q[1..], e)
  }

  lemma {:induction false} Inserted(q: seq<SleepEntry>, e: SleepEntry)
    ensures e in Insert(q, e)
  {
    if q != [] && !Sooner(e, q[0]) {
      Inserted(q[1..], e);
    }
  }

  lemma {:induction false} InsertKeepsOrder(q: seq<SleepEntry>, e: SleepEntry)
    requires Sorted(q)
    ensures Sorted(Insert(q, e)) && forall x :: x in Insert(q, e) <==> x == e || x in q
  {
    if q != [] && !Sooner(e, q[0]) {
      InsertKeepsOrder(q[1..], e);
      assert forall x :: x in q <==> x == q[0] || x in q[1..];
      forall x | x in Insert(q[1..], e)
        ensures Sooner(q[0], x)
      {
        if x in q[1..] {
          var k :| 0 <= k < |q[1..]| && q[1..][k] == x;
          assert q[k + 1] == x;
        }
      }
    }
  }

  // ---------------------------------------------------------------- the steps

  datatype Step =
    | Spawn
    | Unpark(id: ThreadId)                    // wake the thread; the push is to come
    | Push(id: ThreadId)
    | ReadCurrent                             // what the current thread is now may have changed when its state is set
    | Park(id: ThreadId, reason: nat)         // block the thread that was read
    | Sleep(id: ThreadId, deadline: nat)      // set the thread that was read to sleep; the entry is to come
    | Arm(entry: SleepEntry)
    | Expire(now: nat)                        // one turn of the loop over the sleep queue
    | Pop                                     // take the next thread from the run queue
    | Start                                   // run it if it is runnable
    | Leave
    | Complete(id: ThreadId)

  function Woken(state: ThreadState): ThreadState {
    if state.Blocked? || state.Sleeping? then Runnable else state
  }

  /** Wake a thread, if it exists, and announce that it will be pushed. */
  function Wake(s: Scheduling, id: ThreadId): Scheduling {
    s.(threads := if id in s.threads then s.threads[id := Woken(s.threads[id])] else s.threads,
       pushing := s.pushing + multiset{id})
  }

  /** Set the state of a thread that was read as the current one. */
  function SetActing(s: Scheduling, id: ThreadId, state: ThreadState): Scheduling {
    s.(threads := if id in s.threads then s.threads[id := state] else s.threads, acting := s.acting - multiset{id})
  }

  function Perform(s: Scheduling, step: Step): Scheduling {
    match step
    case Spawn =>
      s.(threads := s.threads[s.nextId := Runnable], pushing := s.pushing + multiset{s.nextId}, nextId := s.nextId + 1)
    case Unpark(id) => Wake(s, id)
    case Push(id) =>
      if id in s.pushing then s.(queue := s.queue + [id], pushing := s.pushing - multiset{id}) else s
    case ReadCurrent =>
      if s.current.None? then s else s.(acting := s.acting + multiset{s.current.value})
    case Park(id, reason) => if id in s.acting then SetActing(s, id, Blocked(reason)) else s
    case Sleep(id, d) =>
      if id in s.acting
      then SetActing(s, id, Sleeping(d)).(arming := s.arming + multiset{SleepEntry(d, id)}) else s
    case Arm(e) =>
      if e in s.arming then s.(sleepers := Insert(s.sleepers, e), arming := s.arming - multiset{e}) else s
    case Expire(now) =>
      if s.sleepers != [] && s.sleepers[0].deadline <= now
      then Wake(s.(sleepers := s.sleepers[1..]), s.sleepers[0].id) else s
    case Pop =>
      if s.popped.None? && s.queue != []
      then s.(queue := s.queue[1..], current := Some(s.queue[0]), popped := Some(s.queue[0])) else s
    case Start =>
      if s.popped.None? then s
      else
        var id := s.popped.value;
        s.(threads := if id in s.threads && s.threads[id] == Runnable then s.threads[id := Running] else s.threads,
           popped := None)
    case Leave => if s.popped.None? then s.(current := None) else s
    case Complete(id) => if id in s.acting then SetActing(s, id, Dead) else s
  }

  // ---------------------------------------------------------------- nothing is lost

  /** A runnable thread is queued, about to be queued, or about to run. */
  ghost predicate RunnableHeld(s: Scheduling) {
    forall id :: id in s.threads && s.threads[id] == Runnable ==>
      id in s.queue || id in s.pushing || s.popped == Some(id)
  }

  /** A sleeping thread has its alarm set, or about to be set. */
  ghost predicate SleepersHeld(s: Scheduling) {
    forall id :: id in s.threads && s.threads[id].Sleeping? ==>
      var e := SleepEntry(s.threads[id].deadline, id); e in s.sleepers || e in s.arming
  }

  /** Threads are numbered in the order in which they were spawned. */
  ghost predicate Numbered(s: Scheduling) {
    forall id :: id in s.threads ==> id < s.nextId
  }

  ghost predicate Inv(s: Scheduling) {
    RunnableHeld(s) && SleepersHeld(s) && Sorted(s.sleepers) && Numbered(s)
  }

  /** The alarm of a sleeping thread. */
  ghost predicate AlarmHeld(s: Scheduling, id: ThreadId) {
    id in s.threads && s.threads[id].Sleeping? ==>
      var e := SleepEntry(s.threads[id].deadline, id); e in s.sleepers || e in s.arming
  }

  // Waking a thread announces it, and settles its alarm.
  lemma WakingKeeps(s: Scheduling, id: ThreadId)
    requires RunnableHeld(s) && forall x :: x != id ==> AlarmHeld(s, x)
    ensures RunnableHeld(Wake(s, id)) && SleepersHeld(Wake(s, id))
  {
    forall x | x in Wake(s, id).threads && Wake(s, id).threads[x].Sleeping?
      ensures AlarmHeld(Wake(s, id), x)
    {
      assert AlarmHeld(s, x);
    }
  }

  lemma QueuesKeep(s: Scheduling, step: Step)
    requires Inv(s) && (step.Push? || step.Arm? || step.Pop? || step.Start? || step.Leave? || step.ReadCurrent?)
    ensures RunnableHeld(Perform(s, step)) && SleepersHeld(Perform(s, step)) && Sorted(Perform(s, step).sleepers)
  {
    hide Insert, Wake, SetActing;
    if step.Arm? {
      ArmKeeps(s, step.entry);
    } else if step.Pop? {
      PopKeeps(s);
    }
  }

  lemma ArmKeeps(s: Scheduling, e: SleepEntry)
    requires Inv(s)
    ensures RunnableHeld(Perform(s, Arm(e))) && SleepersHeld(Perform(s, Arm(e))) && Sorted(Perform(s, Arm(e)).sleepers)
  {
    hide Insert;
    InsertKeepsOrder(s.sleepers, e);
  }

  lemma PopKeeps(s: Scheduling)
    requires Inv(s)
    ensures RunnableHeld(Perform(s, Pop)) && SleepersHeld(Perform(s, Pop)) && Sorted(Perform(s, Pop).sleepers)
  {
    hide Insert;
    assert s.queue != [] ==> forall id :: id in s.queue <==> id == s.queue[0] || id in s.queue[1..];
  }

  // Setting a state other than runnable loses nothing but, possibly, the alarm of that thread.
  lemma ActingKeeps(s: Scheduling, id: ThreadId, state: ThreadState)
    requires Inv(s) && !state.Runnable?
    ensures RunnableHeld(SetActing(s, id, state))
    ensures forall x :: x != id || !state.Sleeping? ==> AlarmHeld(SetActing(s, id, state), x)
  {
    hide Insert, Wake;
    forall x | x != id || !state.Sleeping?
      ensures AlarmHeld(SetActing(s, id, state), x)
    {
      assert AlarmHeld(s, x);
    }
  }

  lemma AlarmsAreSleepers(s: Scheduling)
    requires forall x :: AlarmHeld(s, x)
    ensures SleepersHeld(s)
  {
    forall id | id in s.threads && s.threads[id].Sleeping?
      ensures AlarmHeld(s, id)
    {
    }
  }

  lemma CurrentKeeps(s: Scheduling, step: Step)
    requires Inv(s) && (step.Park? || step.Sleep? || step.Complete? || step.Spawn?)
    ensures RunnableHeld(Perform(s, step)) && SleepersHeld(Perform(s, step)) && Perform(s, step).sleepers == s.sleepers
  {
    hide Insert, Wake;
    if step.Spawn? {
      hide SetActing;
    } else if step.id in s.acting {
      var state := if step.Park? then Blocked(step.reason) else if step.Sleep? then Sleeping(step.deadline) else Dead;
      ActingKeeps(s, step.id, state);
      forall x
        ensures AlarmHeld(Perform(s, step), x)
      {
        assert x != step.id || !state.Sleeping? ==> AlarmHeld(SetActing(s, step.id, state), x);
      }
      AlarmsAreSleepers(Perform(s, step));
      hide RunnableHeld, SleepersHeld, AlarmHeld;
    }
  }

  lemma ExpireKeeps(s: Scheduling, now: nat)
    requires Inv(s)
    ensures RunnableHeld(Perform(s, Expire(now))) && SleepersHeld(Perform(s, Expire(now)))
    ensures Sorted(Perform(s, Expire(now)).sleepers)
  {
    if s.sleepers != [] && s.sleepers[0].deadline <= now {
      var s0 := s.(sleepers := s.sleepers[1..]);
      assert forall e :: e in s.sleepers <==> e == s.sleepers[0] || e in s0.sleepers;
      WakingKeeps(s0, s.sleepers[0].id);
      hide Wake, Insert;
    }
  }

  // No step but the first makes a thread.
  lemma StepKeepsNumbers(s: Scheduling, step: Step)
    requires Numbered(s)
    ensures Numbered(Perform(s, step))
    ensures step != Spawn ==> Perform(s, step).threads.Keys == s.threads.Keys && Perform(s, step).nextId == s.nextId
  {
    hide Insert, Woken, Wake, SetActing;
    match step
    case Unpark(id) => HelpersKeepThreads(s, id, Dead);
    case Expire(_) =>
      if s.sleepers != [] {
        HelpersKeepThreads(s.(sleepers := s.sleepers[1..]), s.sleepers[0].id, Dead);
      }
    case Park(id, reason) => HelpersKeepThreads(s, id, Blocked(reason));
    case Sleep(id, d) => HelpersKeepThreads(s, id, Sleeping(d));
    case Complete(id) => HelpersKeepThreads(s, id, Dead);
    case _ =>
  }

  lemma HelpersKeepThreads(s: Scheduling, id: ThreadId, state: ThreadState)
    ensures Wake(s, id).threads.Keys == s.threads.Keys && Wake(s, id).nextId == s.nextId
    ensures SetActing(s, id, state).threads.Keys == s.threads.Keys && SetActing(s, id, state).nextId == s.nextId
  {
  }

  lemma StepKeepsInv(s: Scheduling, step: Step)
    requires Inv(s)
    ensures Inv(Perform(s, step))
  {
    StepKeepsNumbers(s, step);
    if step.Unpark? {
      WakingKeeps(s, step.id);
    } else if step.Expire? {
      ExpireKeeps(s, step.now);
    } else if step.Park? || step.Sleep? || step.Complete? || step.Spawn? {
      CurrentKeeps(s, step);
    } else {
      QueuesKeep(s, step);
    }
    hide Wake, Insert, SetActing, RunnableHeld, SleepersHeld, Sorted, Numbered;
  }

  function PerformAll(s: Scheduling, steps: seq<Step>): Scheduling
    decreases |steps|
  {
    if steps == [] then s else PerformAll(Perform(s, steps[0]), steps[1..])
  }

  const IDLE := Scheduling(map[], [], [], None, None, multiset{}, multiset{}, multiset{}, 1)

  // Whatever the order of steps, no runnable thread and no sleeping thread is ever lost.
  lemma {:induction false} NothingIsLost(s: Scheduling, steps: seq<Step>)
    requires Inv(s)
    ensures Inv(PerformAll(s, steps))
    decreases |steps|
  {
    hide Inv, Perform;
    if steps != [] {
      StepKeepsInv(s, steps[0]);
      NothingIsLost(Perform(s, steps[0]), steps[1..]);
    }
  }

  // ---------------------------------------------------------------- the life of a thread

  // Which steps change the state of a thread, and to what.
  lemma LifeOfThread(s: Scheduling, step: Step, id: ThreadId)
    requires Inv(s) && id in s.threads
    ensures var was := s.threads[id];
            var waits := was.Blocked? || was.Sleeping?;
            id in Perform(s, step).threads &&
            Perform(s, step).threads[id]
            == if step == Unpark(id) && waits then Runnable
               else if step.Expire? && s.sleepers != [] && s.sleepers[0].deadline <= step.now
                       && s.sleepers[0].id == id && waits then Runnable
               else if step == Start && s.popped == Some(id) && was == Runnable then Running
               else if step.Park? && step.id == id && id in s.acting then Blocked(step.reason)
               else if step.Sleep? && step.id == id && id in s.acting then Sleeping(step.deadline)
               else if step == Complete(id) && id in s.acting then Dead
               else was
  {
    hide Insert, Wake, SetActing, RunnableHeld, SleepersHeld, Sorted;
    match step
    case Unpark(w) => StateAfter(s, w, Dead, id);
    case Expire(_) =>
      if s.sleepers != [] {
        StateAfter(s.(sleepers := s.sleepers[1..]), s.sleepers[0].id, Dead, id);
      }
    case Park(p, reason) => StateAfter(s, p, Blocked(reason), id);
    case Sleep(p, d) => StateAfter(s, p, Sleeping(d), id);
    case Complete(p) => StateAfter(s, p, Dead, id);
    case _ =>
  }

  lemma StateAfter(s: Scheduling, id: ThreadId, state: ThreadState, x: ThreadId)
    requires x in s.threads
    ensures x in Wake(s, id).threads && x in SetActing(s, id, state).threads
    ensures Wake(s, id).threads[x]
            == if x == id && (s.threads[x].Blocked? || s.threads[x].Sleeping?) then Runnable else s.threads[x]
    ensures SetActing(s, id, state).threads[x] == if x == id then state else s.threads[x]
  {
  }

  // A spawned thread is new, and runnable; every other thread stays as it was.
  lemma SpawnedIsNew(s: Scheduling)
    requires Inv(s)
    ensures s.nextId !in s.threads && Perform(s, Spawn).threads == s.threads[s.nextId := Runnable]
    ensures Perform(s, Spawn).nextId > s.nextId && s.nextId in Perform(s, Spawn).pushing
  {
  }

  // The run queue is first in, first out.
  lemma QueueIsFair(s: Scheduling, id: ThreadId)
    ensures id in s.pushing ==> Perform(s, Push(id)).queue == s.queue + [id]
    ensures s.popped.None? && s.queue != [] ==>
              var r := Perform(s, Pop); [r.popped.value] + r.queue == s.queue && r.current == Some(s.queue[0])
  {
  }

  // In the sleep queue, earlier deadlines come first, and of equal ones the smaller thread.
  lemma AlarmsInOrder(s: Scheduling, j: nat, k: nat)
    requires Inv(s) && j < k < |s.sleepers|
    ensures var a, b := s.sleepers[j], s.sleepers[k];
            a.deadline < b.deadline || (a.deadline == b.deadline && a.id <= b.id)
  {
  }

  // ---------------------------------------------------------------- alarms

  /** What other threads can do while the loop holds the sleep queue: everything but change that queue. */
  predicate Outside(steps: seq<Step>) {
    forall k :: 0 <= k < |steps| ==> !steps[k].Arm? && !steps[k].Expire?
  }

  /** How many entries are due at a clock reading. */
  function Due(q: seq<SleepEntry>, now: nat): (n: nat)
    ensures n <= |q|
    ensures forall k :: 0 <= k < n ==> q[k].deadline <= now
    ensures n < |q| ==> q[n].deadline > now
  {
    if q == [] || q[0].deadline > now then 0 else 1 + Due(q[1..], now)
  }

  /** The loop over the sleep queue after k turns. Before turn j the steps others(j) come in between. */
  function Turns(s: Scheduling, now: nat, others: nat -> seq<Step>, k: nat): Scheduling {
    if k == 0 then s
    else Perform(PerformAll(Turns(s, now, others, k - 1), others(k - 1)), Expire(now))
  }

  /** The end of the loop: no further entry is due. */
  function AfterLoop(s: Scheduling, now: nat, others: nat -> seq<Step>): Scheduling {
    var n := Due(s.sleepers, now); PerformAll(Turns(s, now, others, n), others(n))
  }

  lemma {:induction false} OutsideKeepsSleepers(s: Scheduling, steps: seq<Step>)
    requires Outside(steps)
    ensures PerformAll(s, steps).sleepers == s.sleepers
    decreases |steps|
  {
    if steps != [] {
      OutsideKeepsSleepers(Perform(s, steps[0]), steps[1..]);
    }
  }

  // Every turn takes one entry, and the loop keeps the invariant.
  lemma {:induction false} TurnsKeepInv(s: Scheduling, now: nat, others: nat -> seq<Step>, k: nat)
    requires Inv(s) && k <= Due(s.sleepers, now) && forall j: nat :: Outside(others(j))
    ensures Inv(Turns(s, now, others, k)) && Turns(s, now, others, k).sleepers == s.sleepers[k..]
  {
    hide Inv, Wake;
    if k > 0 {
      TurnsKeepInv(s, now, others, k - 1);
      var t := Turns(s, now, others, k - 1);
      NothingIsLost(t, others(k - 1));
      OutsideKeepsSleepers(t, others(k - 1));
      StepKeepsInv(PerformAll(t, others(k - 1)), Expire(now));
      TurnTakes(PerformAll(t, others(k - 1)), now);
    }
  }

  lemma TurnTakes(s: Scheduling, now: nat)
    requires s.sleepers != [] && s.sleepers[0].deadline <= now
    ensures Perform(s, Expire(now)).sleepers == s.sleepers[1..]
  {
  }

  // After the loop, no thread sleeps past its deadline, except one whose alarm is yet to be set.
  lemma NobodyOversleeps(s: Scheduling, now: nat, others: nat -> seq<Step>, id: ThreadId)
    requires Inv(s) && forall j: nat :: Outside(others(j))
    requires var r := AfterLoop(s, now, others);
            id in r.threads && r.threads[id].Sleeping? && r.threads[id].deadline <= now
    ensures var r := AfterLoop(s, now, others); SleepEntry(r.threads[id].deadline, id) in r.arming
  {
    hide Perform, Turns;
    var n, r := Due(s.sleepers, now), AfterLoop(s, now, others);
    TurnsKeepInv(s, now, others, n);
    NothingIsLost(Turns(s, now, others, n), others(n));
    OutsideKeepsSleepers(Turns(s, now, others, n), others(n));
    HeadIsSoonest(r.sleepers);
    assert r.sleepers == s.sleepers[n..];
  }

  lemma HeadIsSoonest(q: seq<SleepEntry>)
    requires Sorted(q)
    ensures forall e :: e in q ==> q[0].deadline <= e.deadline
  {
    forall e | e in q
      ensures q[0].deadline <= e.deadline
    {
      var k :| 0 <= k < |q| && q[k] == e;
      assert k > 0 ==> Sooner(q[0], q[k]);
    }
  }

  // And every thread that was due is woken by one of the turns, and on its way to the run queue after it.
  lemma DueThreadsAwake(s: Scheduling, now: nat, others: nat -> seq<Step>, id: ThreadId) returns (k: nat)
    requires Inv(s) && id in s.threads && s.threads[id].Sleeping? && s.threads[id].deadline <= now
    requires SleepEntry(s.threads[id].deadline, id) !in s.arming && forall j: nat :: Outside(others(j))
    ensures k < Due(s.sleepers, now)
    ensures var t := Turns(s, now, others, k + 1);
            id in t.pushing && (id in t.threads ==> !t.threads[id].Sleeping? && !t.threads[id].Blocked?)
  {
    hide Inv;
    var e := SleepEntry(s.threads[id].deadline, id);
    k := AlarmAt(s, e, now);
    TurnsKeepInv(s, now, others, k);
    OutsideKeepsSleepers(Turns(s, now, others, k), others(k));
    assert s.sleepers[k..][0] == e;
  }

  lemma AlarmAt(s: Scheduling, e: SleepEntry, now: nat) returns (k: nat)
    requires Inv(s) && e.id in s.threads && s.threads[e.id] == Sleeping(e.deadline) && e !in s.arming
    requires e.deadline <= now
    ensures k < Due(s.sleepers, now) && s.sleepers[k] == e
  {
    assert e in s.sleepers;
    k :| 0 <= k < |s.sleepers| && s.sleepers[k] == e;
    hide RunnableHeld, SleepersHeld;
    assert k < Due(s.sleepers, now);
  }

  // ---------------------------------------------------------------- one native thread, in place

  const BATCH := 10

  class GreenScheduler {
    var threads: map<ThreadId, ThreadState>
    var queue: seq<ThreadId>
    var sleepers: seq<SleepEntry>
    var current: Option<ThreadId>
    var nextId: ThreadId

    /** Between operations nothing is half done. */
    function State(): Scheduling
      reads this
    {
      Scheduling(threads, queue, sleepers, current, None, multiset{}, multiset{}, multiset{}, nextId)
    }

    ghost predicate Valid()
      reads this
    {
      Inv(State())
    }

    constructor ()
      ensures State() == IDLE && Valid()
    {
      threads, queue, sleepers, current, nextId := map[], [], [], None, 1;
    }

    method SpawnThread() returns (id: ThreadId)
      requires Valid()
      modifies this
      ensures Valid() && id == old(nextId) && State() == PerformAll(old(State()), [Spawn, Push(id)])
      ensures id !in old(threads) && threads == old(threads)[id := Runnable] && queue == old(queue) + [id]
    {
      id := nextId;
      StepKeepsInv(State(), Spawn);
      StepKeepsInv(Perform(State(), Spawn), Push(id));
      TwoSteps(State(), Spawn, Push(id));
      threads, queue, nextId := threads[id := Runnable], queue + [id], nextId + 1;
      assert State() == Perform(Perform(old(State()), Spawn), Push(id));
    }

    method UnparkThread(id: ThreadId)
      requires Valid()
      modifies this
      ensures Valid() && State() == PerformAll(old(State()), [Unpark(id), Push(id)])
      ensures queue == old(queue) + [id] && threads.Keys == old(threads).Keys
      ensures id in threads ==>
                var was := old(threads)[id]; threads[id] == if was.Blocked? || was.Sleeping? then Runnable else was
    {
      StepKeepsInv(State(), Unpark(id));
      StepKeepsInv(Perform(State(), Unpark(id)), Push(id));
      TwoSteps(State(), Unpark(id), Push(id));
      if id in threads {
        threads := threads[id := Woken(threads[id])];
      }
      queue := queue + [id];
      assert State() == Perform(Perform(old(State()), Unpark(id)), Push(id));
    }

    method ParkCurrent(reason: nat)
      requires Valid()
      modifies this
      ensures Valid()
      ensures State() == if old(current).None? then old(State())
                         else PerformAll(old(State()), [ReadCurrent, Park(old(current).value, reason)])
      ensures current.Some? && current.value in threads ==> threads[current.value] == Blocked(reason)
    {
      if current.Some? {
        StepKeepsInv(State(), ReadCurrent);
        StepKeepsInv(Perform(State(), ReadCurrent), Park(current.value, reason));
        TwoSteps(State(), ReadCurrent, Park(current.value, reason));
        if current.value in threads {
          threads := threads[current.value := Blocked(reason)];
        }
        assert State() == Perform(Perform(old(State()), ReadCurrent), Park(current.value, reason));
      }
    }

    method SleepCurrent(now: nat, duration: nat)
      requires Valid()
      modifies this
      ensures Valid()
      ensures State() == if old(current).None? then old(State())
                         else var e := SleepEntry(now + duration, old(current).value);
                              PerformAll(old(State()), [ReadCurrent, Sleep(e.id, e.deadline), Arm(e)])
      ensures current.Some? ==> SleepEntry(now + duration, current.value) in sleepers
      ensures current.Some? && current.value in threads ==> threads[current.value] == Sleeping(now + duration)
    {
      hide Inv, Insert, Woken, PerformAll;
      if current.Some? {
        var e := SleepEntry(now + duration, current.value);
        ghost var reading := Perform(State(), ReadCurrent);
        ghost var asleep := Perform(reading, Sleep(e.id, e.deadline));
        StepKeepsInv(State(), ReadCurrent);
        StepKeepsInv(reading, Sleep(e.id, e.deadline));
        StepKeepsInv(asleep, Arm(e));
        ThreeSteps(State(), ReadCurrent, Sleep(e.id, e.deadline), Arm(e));
        if current.value in threads {
          threads := threads[current.value := Sleeping(e.deadline)];
        }
        Inserted(sleepers, e);
        sleepers := Insert(sleepers, e);
        assert State() == Perform(asleep, Arm(e));
      }
    }

    method ExpireOne(now: nat)
      requires Valid() && sleepers != [] && sleepers[0].deadline <= now
      modifies this
      ensures Valid() && current == old(current) && sleepers == old(sleepers)[1..]
      ensures var id := old(sleepers)[0].id;
              && queue == old(queue) + [id]
              && threads == if id in old(threads) then old(threads)[id := Woken(old(threads)[id])] else old(threads)
    {
      hide Inv, Insert;
      var id := sleepers[0].id;
      StepKeepsInv(State(), Expire(now));
      StepKeepsInv(Perform(State(), Expire(now)), Push(id));
      ghost var next := Perform(Perform(State(), Expire(now)), Push(id));
      sleepers := sleepers[1..];
      if id in threads {
        threads := threads[id := Woken(threads[id])];
      }
      queue := queue + [id];
      assert State() == next;
    }

    // After the loop nobody sleeps past this clock reading, and everybody who was due is queued.
    method ExpireSleepers(now: nat)
      requires Valid()
      modifies this
      ensures Valid() && current == old(current) && threads.Keys == old(threads).Keys
      ensures forall id :: id in threads && threads[id].Sleeping? ==> threads[id].deadline > now
      ensures forall id :: id in old(threads) && old(threads)[id].Sleeping? && old(threads)[id].deadline <= now
                ==> threads[id] == Runnable && id in queue
    {
      hide Inv;
      while sleepers != [] && sleepers[0].deadline <= now
        invariant Valid() && current == old(current) && threads.Keys == old(threads).Keys
        invariant forall id ::
                    id in threads ==> threads[id] == old(threads)[id] || (threads[id] == Runnable && id in queue)
        decreases |sleepers|
      {
        ExpireOne(now);
      }
      forall id | id in threads && threads[id].Sleeping?
        ensures threads[id].deadline > now
      {
        NobodyIsOverdue(State(), now, id);
      }
    }

    /** The next thread leaves the run queue, and runs if it is runnable. */
    method RunOne()
      requires Valid() && queue != []
      modifies this
      ensures Valid() && current == None && queue == old(queue)[1..] && sleepers == old(sleepers)
      ensures var id := old(queue)[0];
              threads == if id in old(threads) && old(threads)[id] == Runnable then old(threads)[id := Running]
                         else old(threads)
    {
      hide Inv;
      var id := queue[0];
      OneRunKeepsInv(State());
      queue, current := queue[1..], Some(id);
      if id in threads && threads[id] == Runnable {
        threads := threads[id := Running];
      }
      current := None;
    }

    // Up to ten threads leave the run queue, and those of them that are runnable run.
    method RunBatch()
      requires Valid()
      modifies this
      ensures Valid() && sleepers == old(sleepers) && current == if old(queue) == [] then old(current) else None
      ensures var n := if |old(queue)| < 10 then |old(queue)| else 10;
              queue == old(queue)[n..] && threads == AfterRunning(old(threads), old(queue)[..n])
    {
      hide Inv;
      var i := 0;
      while i < BATCH && queue != []
        invariant Valid() && i <= BATCH && i <= |old(queue)| && queue == old(queue)[i..] && sleepers == old(sleepers)
        invariant current == if i == 0 then old(current) else None
        invariant threads == AfterRunning(old(threads), old(queue)[..i])
      {
        RunOne();
        assert old(queue)[..i + 1][..i] == old(queue)[..i];
        i := i + 1;
      }
    }
  }

  // Popping, starting and leaving, taken together.
  lemma OneRunKeepsInv(s: Scheduling)
    requires Inv(s) && s.queue != [] && s.popped.None?
    ensures var id := s.queue[0];
            Inv(s.(queue := s.queue[1..], current := None,
                   threads := if id in s.threads && s.threads[id] == Runnable then s.threads[id := Running]
                              else s.threads))
  {
    StepKeepsInv(s, Pop);
    StepKeepsInv(Perform(s, Pop), Start);
    StepKeepsInv(Perform(Perform(s, Pop), Start), Leave);
    hide Inv;
  }

  /** Each of the threads in turn runs if it is runnable. */
  function AfterRunning(threads: map<ThreadId, ThreadState>, ids: seq<ThreadId>): map<ThreadId, ThreadState> {
    if ids == [] then threads
    else
      var before, id := AfterRunning(threads, ids[..|ids| - 1]), ids[|ids| - 1];
      if id in before && before[id] == Runnable then before[id := Running] else before
  }

  lemma NobodyIsOverdue(s: Scheduling, now: nat, id: ThreadId)
    requires Inv(s) && s.arming == multiset{} && (s.sleepers == [] || s.sleepers[0].deadline > now)
    requires id in s.threads && s.threads[id].Sleeping?
    ensures s.threads[id].deadline > now
  {
    var e := SleepEntry(s.threads[id].deadline, id);
    assert e in s.sleepers;
    HeadIsSoonest(s.sleepers);
  }

  lemma ThreeSteps(s: Scheduling, a: Step, b: Step, c: Step)
    ensures PerformAll(s, [a, b, c]) == Perform(Perform(Perform(s, a), b), c)
  {
    assert [a, b, c][1..] == [b, c];
    TwoSteps(Perform(s, a), b, c);
  }

  lemma TwoSteps(s: Scheduling, a: Step, b: Step)
    ensures PerformAll(s, [a, b]) == Perform(Perform(s, a), b)
  {
    assert [a, b][1..] == [b] && [b][1..] == [];
    assert PerformAll(Perform(Perform(s, a), b), []) == Perform(Perform(s, a), b);
  }
}
