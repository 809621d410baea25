/**
  Many threads at one header. Each runs an installation or a shading, one load or compare-and-swap
  at a time, in any order. What holds is shown for every schedule.
 */
module HeaderRace {
  import opened Header

  /** Where a thread is in its operation. */
  datatype Thread =
    | InstallStart(newAddr: Word)
    | InstallLoop(newAddr: Word, current: Word)  // current was read, nothing is decided
    | InstallDone(newAddr: Word, result: Install)
    | ShadeStart
    | ShadeSwap(seen: Word)                      // seen was read and is white
    | ShadeDone(won: bool)
  {
    predicate Done() {
      InstallDone? || ShadeDone?
    }

    /** An installation that succeeded. */
    predicate Wins() {
      InstallDone? && result.Installed?
    }

    predicate Shades() {
      ShadeDone? && won
    }

    predicate Shading() {
      ShadeStart? || ShadeSwap? || ShadeDone?
    }
  }

  datatype Race = Race(word: Word, threads: seq<Thread>)

  /** One atomic action of a thread, and the word after it. */
  function Act(self: Word, word: Word, t: Thread): (Word, Thread) {
    match t
    case InstallStart(n) => (word, InstallLoop(n, word))
    case InstallLoop(n, current) =>
      if Forward(current) != self then (word, InstallDone(n, AlreadyForwarded(Forward(current))))
      else if word == current then (Forwarded(current, n), InstallDone(n, Installed(n)))
      else (word, InstallLoop(n, word))
    case InstallDone(_, _) => (word, t)
    case ShadeStart => if Color(word) != WHITE then (word, ShadeDone(false)) else (word, ShadeSwap(word))
    case ShadeSwap(seen) => if word == seen then (Painted(seen, GRAY), ShadeDone(true)) else (word, ShadeDone(false))
    case ShadeDone(_) => (word, t)
  }

  function Step(self: Word, s: Race, i: nat): Race
    requires i < |s.threads|
  {
    var (word, t) := Act(self, s.word, s.threads[i]);
    Race(word, s.threads[i := t])
  }

  predicate Schedules(schedule: seq<nat>, n: nat) {
    forall k :: 0 <= k < |schedule| ==> schedule[k] < n
  }

  /** Run the threads in the order of the schedule. */
  function Run(self: Word, s: Race, schedule: seq<nat>): (r: Race)
    requires Schedules(schedule, |s.threads|)
    ensures |r.threads| == |s.threads|
    decreases |schedule|
  {
    if schedule == [] then s else Run(self, Step(self, s, schedule[0]), schedule[1..])
  }

  /** All threads are about to start at an object of its own address; they would move it elsewhere. */
  predicate Initial(self: Word, s: Race) {
    && Forward(s.word) == self
    && forall t | t in s.threads ::
         t == ShadeStart || (t.InstallStart? && Aligned(t.newAddr) && t.newAddr != self)
  }

  // ---------------------------------------------------------------- the invariant

  /** The forwarding field has left self. */
  predicate Moved(self: Word, s: Race) {
    Forward(s.word) != self
  }

  predicate GoodThread(self: Word, s: Race, t: Thread) {
    match t
    case InstallStart(n) => Aligned(n) && n != self
    case InstallLoop(n, current) =>
      && Aligned(n) && n != self
      && (Forward(current) == self || Forward(current) == Forward(s.word))
    case InstallDone(n, Installed(a)) => a == n && Forward(s.word) == n && n != self
    case InstallDone(_, AlreadyForwarded(a)) => a == Forward(s.word) && a != self
    case ShadeStart => true
    case ShadeSwap(seen) => Color(seen) == WHITE && (seen == s.word || Color(s.word) != WHITE || Moved(self, s))
    case ShadeDone(won) => if won then Color(s.word) == GRAY else Color(s.word) != WHITE || Moved(self, s)
  }

  ghost predicate OneWinner(self: Word, s: Race) {
    && (Moved(self, s) <==> exists k :: 0 <= k < |s.threads| && s.threads[k].Wins())
    && (forall j, k ::
          0 <= j < |s.threads| && 0 <= k < |s.threads| && s.threads[j].Wins() && s.threads[k].Wins() ==> j == k)
  }

  ghost predicate OneShader(color: Word, s: Race) {
    && (Color(s.word) != color <==> exists k :: 0 <= k < |s.threads| && s.threads[k].Shades())
    && (forall j, k ::
          0 <= j < |s.threads| && 0 <= k < |s.threads| && s.threads[j].Shades() && s.threads[k].Shades() ==> j == k)
    && (Color(s.word) == color || (Color(s.word) == GRAY && color == WHITE))
  }

  /** Every thread is right about the word, and who moved or shaded the object can be told. */
  ghost predicate Inv(self: Word, color: Word, s: Race) {
    && (forall k :: 0 <= k < |s.threads| ==> GoodThread(self, s, s.threads[k]))
    && OneWinner(self, s) && OneShader(color, s)
  }

  lemma InitialInv(self: Word, s: Race)
    requires Initial(self, s)
    ensures Inv(self, Color(s.word), s)
  {
  }

  /** What an action does to the word: nothing, an installation by its thread, or a shading by its thread. */
  predicate LegalAction(self: Word, before: Word, t: Thread, after: Word, t': Thread) {
    && (t.Done() ==> after == before && t' == t)
    && if after == before then t'.Wins() == t.Wins() && t'.Shades() == t.Shades()
       else if t'.Wins() then
         && Forward(before) == self && Forward(after) == t'.newAddr != self
         && Color(after) == Color(before) && !t'.Shades()
       else
         t'.Shades() && Color(before) == WHITE && Color(after) == GRAY && Forward(after) == Forward(before)
  }

  lemma InstallIsLegal(self: Word, s: Race, t: Thread)
    requires t.InstallLoop? && GoodThread(self, s, t)
    ensures var (word, t') := Act(self, s.word, t);
            LegalAction(self, s.word, t, word, t') && GoodThread(self, Race(word, s.threads), t')
  {
    var n, current := t.newAddr, t.current;
    if Forward(current) == self && s.word == current {
      ForwardedFields(current, n);
      InstallWins(self, s, t, Forwarded(current, n));
    }
  }

  lemma InstallWins(self: Word, s: Race, t: Thread, word: Word)
    requires t.InstallLoop? && GoodThread(self, s, t) && Forward(s.word) == self
    requires Forward(word) == t.newAddr && Color(word) == Color(s.word)
    ensures LegalAction(self, s.word, t, word, InstallDone(t.newAddr, Installed(t.newAddr)))
    ensures GoodThread(self, Race(word, s.threads), InstallDone(t.newAddr, Installed(t.newAddr)))
  {
    hide Forward, Color, Aligned;
  }

  lemma ShadeIsLegal(self: Word, s: Race, t: Thread)
    requires t.ShadeSwap? && GoodThread(self, s, t)
    ensures var (word, t') := Act(self, s.word, t);
            LegalAction(self, s.word, t, word, t') && GoodThread(self, Race(word, s.threads), t')
  {
    if s.word == t.seen {
      PaintedFields(s.word, GRAY);
      ShadeWins(self, s, t, Painted(s.word, GRAY));
    }
  }

  lemma ShadeWins(self: Word, s: Race, t: Thread, word: Word)
    requires t.ShadeSwap? && Color(s.word) == WHITE && Color(word) == GRAY && Forward(word) == Forward(s.word)
    ensures LegalAction(self, s.word, t, word, ShadeDone(true))
    ensures GoodThread(self, Race(word, s.threads), ShadeDone(true))
  {
    hide Forward, Color;
  }

  lemma InstallStartIsLegal(self: Word, s: Race, t: Thread)
    requires t.InstallStart? && GoodThread(self, s, t)
    ensures var (word, t') := Act(self, s.word, t);
            LegalAction(self, s.word, t, word, t') && GoodThread(self, Race(word, s.threads), t')
  {
    hide Forward, Color, Aligned;
    var t' := InstallLoop(t.newAddr, s.word);
    assert Act(self, s.word, t) == (s.word, t');
    assert GoodThread(self, s, t');
  }

  lemma ShadeStartIsLegal(self: Word, s: Race, t: Thread)
    requires t.ShadeStart? && GoodThread(self, s, t)
    ensures var (word, t') := Act(self, s.word, t);
            LegalAction(self, s.word, t, word, t') && GoodThread(self, Race(word, s.threads), t')
  {
    hide Forward, Color, Aligned;
    var t' := if Color(s.word) != WHITE then ShadeDone(false) else ShadeSwap(s.word);
    assert Act(self, s.word, t) == (s.word, t');
    assert GoodThread(self, s, t');
  }

  lemma ActionIsLegal(self: Word, s: Race, t: Thread)
    requires GoodThread(self, s, t)
    ensures var (word, t') := Act(self, s.word, t);
            LegalAction(self, s.word, t, word, t') && GoodThread(self, Race(word, s.threads), t')
  {
    if t.InstallLoop? {
      InstallIsLegal(self, s, t);
    } else if t.ShadeSwap? {
      ShadeIsLegal(self, s, t);
    } else if t.InstallStart? {
      InstallStartIsLegal(self, s, t);
    } else if t.ShadeStart? {
      ShadeStartIsLegal(self, s, t);
    }
    hide *;
  }

  lemma StepKeepsInv(self: Word, color: Word, s: Race, i: nat)
    requires Inv(self, color, s) && i < |s.threads|
    ensures Inv(self, color, Step(self, s, i))
  {
    hide Forward, Color, Painted, Forwarded, Act;
    var s' := Step(self, s, i);
    ActionIsLegal(self, s, s.threads[i]);
    forall k | 0 <= k < |s.threads|
      ensures GoodThread(self, s', s'.threads[k])
    {
      assert GoodThread(self, s, s.threads[k]);
    }
    StepKeepsWinner(self, color, s, i);
    StepKeepsShader(self, color, s, i);
  }

  lemma StepKeepsWinner(self: Word, color: Word, s: Race, i: nat)
    requires Inv(self, color, s) && i < |s.threads|
    ensures OneWinner(self, Step(self, s, i))
  {
    hide Forward, Color, Painted, Forwarded, Act;
    var s' := Step(self, s, i);
    ActionIsLegal(self, s, s.threads[i]);
    assert forall k :: 0 <= k < |s.threads| && k != i ==> s'.threads[k] == s.threads[k];
    if Moved(self, s) {
      var k :| 0 <= k < |s.threads| && s.threads[k].Wins();
      assert s'.threads[k].Wins();
    }
    if s'.word != s.word && s'.threads[i].Wins() {
      assert s'.threads[i].Wins();
    }
  }

  lemma StepKeepsShader(self: Word, color: Word, s: Race, i: nat)
    requires Inv(self, color, s) && i < |s.threads|
    ensures OneShader(color, Step(self, s, i))
  {
    hide Forward, Color, Painted, Forwarded, Act;
    var s' := Step(self, s, i);
    ActionIsLegal(self, s, s.threads[i]);
    assert forall k :: 0 <= k < |s.threads| && k != i ==> s'.threads[k] == s.threads[k];
    if Color(s.word) != color {
      var k :| 0 <= k < |s.threads| && s.threads[k].Shades();
      assert s'.threads[k].Shades();
    }
    if s'.word != s.word && s'.threads[i].Shades() {
      assert s'.threads[i].Shades();
    }
  }

  lemma {:induction false} RunKeepsInv(self: Word, color: Word, s: Race, schedule: seq<nat>)
    requires Inv(self, color, s) && Schedules(schedule, |s.threads|)
    ensures Inv(self, color, Run(self, s, schedule))
    decreases |schedule|
  {
    hide Inv;
    if schedule != [] {
      StepKeepsInv(self, color, s, schedule[0]);
      RunKeepsInv(self, color, Step(self, s, schedule[0]), schedule[1..]);
    }
  }

  // ---------------------------------------------------------------- safety

  // Whatever the schedule: whoever lost was given the address that the one winner installed, and
  // that address is what the header forwards to.
  lemma LosersGetTheWinner(self: Word, s: Race, schedule: seq<nat>, k: nat)
    requires Initial(self, s) && Schedules(schedule, |s.threads|) && k < |s.threads|
    requires Run(self, s, schedule).threads[k].InstallDone?
    ensures var r := Run(self, s, schedule);
            exists w :: 0 <= w < |r.threads| && r.threads[w].Wins()
              && r.threads[k].result.addr == r.threads[w].newAddr == Forward(r.word)
              && forall j :: 0 <= j < |r.threads| && r.threads[j].Wins() ==> j == w
  {
    hide Forward, Color;
    InitialInv(self, s);
    RunKeepsInv(self, Color(s.word), s, schedule);
    var r := Run(self, s, schedule);
    assert GoodThread(self, r, r.threads[k]);
    assert Moved(self, r);
    var w :| 0 <= w < |r.threads| && r.threads[w].Wins();
    assert GoodThread(self, r, r.threads[w]);
  }

  // Once it has moved, the forwarding field never changes again; nor does what a finished thread returned.
  lemma {:induction false} ForwardingIsFinal(self: Word, color: Word, s: Race, schedule: seq<nat>)
    requires Inv(self, color, s) && Schedules(schedule, |s.threads|)
    ensures var r := Run(self, s, schedule);
            && (Moved(self, s) ==> Forward(r.word) == Forward(s.word))
            && (Color(s.word) != WHITE ==> Color(r.word) == Color(s.word))
            && forall k :: 0 <= k < |s.threads| && s.threads[k].Done() ==> r.threads[k] == s.threads[k]
    decreases |schedule|
  {
    hide Forward, Color, Painted, Forwarded;
    if schedule != [] {
      ActionIsLegal(self, s, s.threads[schedule[0]]);
      StepKeepsInv(self, color, s, schedule[0]);
      ForwardingIsFinal(self, color, Step(self, s, schedule[0]), schedule[1..]);
    }
  }

  // A shade that reports success is never lost, and only one does; an installation leaves the colour.
  lemma ShadeIsNeverLost(self: Word, s: Race, schedule: seq<nat>)
    requires Initial(self, s) && Schedules(schedule, |s.threads|)
    ensures var r := Run(self, s, schedule);
            if exists k :: 0 <= k < |r.threads| && r.threads[k].Shades()
            then Color(s.word) == WHITE && Color(r.word) == GRAY
            else Color(r.word) == Color(s.word)
  {
    hide Forward, Color;
    InitialInv(self, s);
    RunKeepsInv(self, Color(s.word), s, schedule);
  }

  lemma {:induction false} RunOneMore(self: Word, s: Race, schedule: seq<nat>, i: nat)
    requires Schedules(schedule, |s.threads|) && i < |s.threads|
    ensures Run(self, s, schedule + [i]) == Step(self, Run(self, s, schedule), i)
    decreases |schedule|
  {
    hide Act;
    if schedule == [] {
      assert (schedule + [i])[1..] == [];
      assert Run(self, Step(self, s, i), []) == Step(self, s, i);
    } else {
      assert (schedule + [i])[1..] == schedule[1..] + [i];
      RunOneMore(self, Step(self, s, schedule[0]), schedule[1..], i);
    }
  }

  /** The race after the first j actions of the schedule. */
  function After(self: Word, s: Race, schedule: seq<nat>, j: nat): (r: Race)
    requires Schedules(schedule, |s.threads|) && j <= |schedule|
    ensures |r.threads| == |s.threads|
  {
    Run(self, s, schedule[..j])
  }

  /** Up to action j: thread k is between its load and its swap, the object was moved in between. */
  ghost predicate Overtaken(self: Word, s: Race, schedule: seq<nat>, j: nat, k: nat)
    requires Schedules(schedule, |s.threads|) && j <= |schedule| && k < |s.threads|
  {
    exists p, q :: 0 <= p < q <= j
      && After(self, s, schedule, p).threads[k].ShadeSwap? && !Moved(self, After(self, s, schedule, p))
      && After(self, s, schedule, q).threads[k].ShadeSwap? && Moved(self, After(self, s, schedule, q))
  }

  /** What was read at the load, and whether the word can have changed since. */
  ghost predicate Loaded(self: Word, s: Race, schedule: seq<nat>, j: nat, k: nat)
    requires Schedules(schedule, |s.threads|) && j <= |schedule| && k < |s.threads|
  {
    var now := After(self, s, schedule, j);
    && now.threads[k].ShadeSwap?
    && exists p {:trigger After(self, s, schedule, p)} :: 0 <= p <= j
         && After(self, s, schedule, p).threads[k] == now.threads[k]
         && (Moved(self, After(self, s, schedule, p)) ==>
               Moved(self, now) && (Color(now.word) == WHITE ==> now.word == now.threads[k].seen))
  }

  /** How far the shading of thread k has come after action j. */
  ghost predicate ShadeSoFar(self: Word, s: Race, schedule: seq<nat>, j: nat, k: nat)
    requires Schedules(schedule, |s.threads|) && j <= |schedule| && k < |s.threads|
  {
    var now := After(self, s, schedule, j);
    match now.threads[k]
    case ShadeStart => true
    case ShadeSwap(_) => Loaded(self, s, schedule, j, k)
    case ShadeDone(won) => won || Color(now.word) != WHITE || Overtaken(self, s, schedule, j, k)
    case _ => false
  }

  lemma {:induction false} ShadeUpTo(self: Word, s: Race, schedule: seq<nat>, j: nat, k: nat)
    requires Initial(self, s) && Schedules(schedule, |s.threads|) && j <= |schedule|
    requires k < |s.threads| && s.threads[k].ShadeStart?
    ensures ShadeSoFar(self, s, schedule, j, k)
  {
    if j > 0 {
      ShadeUpTo(self, s, schedule, j - 1, k);
      assert schedule[..j] == schedule[..j - 1] + [schedule[j - 1]];
      RunOneMore(self, s, schedule[..j - 1], schedule[j - 1]);
      InitialInv(self, s);
      RunKeepsInv(self, Color(s.word), s, schedule[..j - 1]);
      ShadeGoesOn(self, s, schedule, j, k);
    }
    hide *;
  }

  lemma ShadeGoesOn(self: Word, s: Race, schedule: seq<nat>, j: nat, k: nat)
    requires Schedules(schedule, |s.threads|) && 0 < j <= |schedule| && k < |s.threads|
    requires var was := After(self, s, schedule, j - 1);
             && Inv(self, Color(s.word), was) && After(self, s, schedule, j) == Step(self, was, schedule[j - 1])
    requires ShadeSoFar(self, s, schedule, j - 1, k)
    ensures ShadeSoFar(self, s, schedule, j, k)
  {
    hide Forward, Color, Painted, Forwarded, Run, OneWinner, OneShader;
    var was, now, i := After(self, s, schedule, j - 1), After(self, s, schedule, j), schedule[j - 1];
    ActionIsLegal(self, was, was.threads[i]);
    assert GoodThread(self, was, was.threads[k]);
    if i != k {
      OtherActs(self, s, schedule, j, k);
    }
  }

  lemma OtherActs(self: Word, s: Race, schedule: seq<nat>, j: nat, k: nat)
    requires Schedules(schedule, |s.threads|) && 0 < j <= |schedule| && k < |s.threads| && schedule[j - 1] != k
    requires var was := After(self, s, schedule, j - 1);
             && Inv(self, Color(s.word), was) && After(self, s, schedule, j) == Step(self, was, schedule[j - 1])
    requires ShadeSoFar(self, s, schedule, j - 1, k)
    ensures ShadeSoFar(self, s, schedule, j, k)
  {
    hide Forward, Color, Painted, Forwarded, Run, OneWinner, OneShader, Act;
    var was, now, i := After(self, s, schedule, j - 1), After(self, s, schedule, j), schedule[j - 1];
    ActionIsLegal(self, was, was.threads[i]);
    if was.threads[k].ShadeSwap? {
      var p :| 0 <= p <= j - 1 && After(self, s, schedule, p).threads[k] == was.threads[k]
        && (Moved(self, After(self, s, schedule, p)) ==>
              Moved(self, was) && (Color(was.word) == WHITE ==> was.word == was.threads[k].seen));
      assert Loaded(self, s, schedule, j, k);
    }
  }

  // A shade that reports failure found the object shaded, or an installation came between its load and its swap.
  lemma FailedShade(self: Word, s: Race, schedule: seq<nat>, k: nat)
    requires Initial(self, s) && Schedules(schedule, |s.threads|) && k < |s.threads|
    requires s.threads[k].ShadeStart? && Run(self, s, schedule).threads[k] == ShadeDone(false)
    ensures Color(Run(self, s, schedule).word) != WHITE || Overtaken(self, s, schedule, |schedule|, k)
  {
    ShadeUpTo(self, s, schedule, |schedule|, k);
    assert schedule[..|schedule|] == schedule;
  }

  lemma {:induction false} ShadersStayShaders(self: Word, s: Race, schedule: seq<nat>)
    requires Schedules(schedule, |s.threads|) && forall k :: 0 <= k < |s.threads| ==> s.threads[k].Shading()
    ensures forall k :: 0 <= k < |s.threads| ==> Run(self, s, schedule).threads[k].Shading()
    decreases |schedule|
  {
    hide Color, Painted, Forward, Forwarded;
    if schedule != [] {
      assert s.threads[schedule[0]].Shading();
      ShadersStayShaders(self, Step(self, s, schedule[0]), schedule[1..]);
    }
  }

  // Without installations the object is shaded as soon as one shade is done, whatever it reported.
  lemma ShadersShade(self: Word, s: Race, schedule: seq<nat>, k: nat)
    requires Initial(self, s) && Schedules(schedule, |s.threads|) && k < |s.threads|
    requires (forall j :: 0 <= j < |s.threads| ==> s.threads[j].ShadeStart?) && Run(self, s, schedule).threads[k].Done()
    ensures Color(Run(self, s, schedule).word) != WHITE
  {
    hide Forward, Color;
    var r := Run(self, s, schedule);
    InitialInv(self, s);
    RunKeepsInv(self, Color(s.word), s, schedule);
    ShadersStayShaders(self, s, schedule);
    assert GoodThread(self, r, r.threads[k]);
    assert r.threads[k].Shading() && !Moved(self, r);
  }

  function Duel(): Race {
    Race(8, [ShadeStart, InstallStart(16)])
  }

  // The second case happens: one shading, one installation, and the object stays white.
  lemma ShadeOvertaken()
    ensures Initial(8, Duel())
    ensures Run(8, Duel(), [0, 1, 1, 0]) == Race(16, [ShadeDone(false), InstallDone(16, Installed(16))])
    ensures Color(16) == WHITE
  {
    var s1 := Race(8, [ShadeSwap(8), InstallStart(16)]);
    var s2 := Race(8, [ShadeSwap(8), InstallLoop(16, 8)]);
    var s3 := Race(16, [ShadeSwap(8), InstallDone(16, Installed(16))]);
    var s4 := Race(16, [ShadeDone(false), InstallDone(16, Installed(16))]);
    DuelActs();
    hide Act;
    assert Duel().threads[0 := ShadeSwap(8)] == s1.threads && s1.threads[1 := InstallLoop(16, 8)] == s2.threads;
    assert s2.threads[1 := s3.threads[1]] == s3.threads && s3.threads[0 := ShadeDone(false)] == s4.threads;
    assert [0, 1, 1, 0][1..] == [1, 1, 0] && [1, 1, 0][1..] == [1, 0] && [1, 0][1..] == [0] && [0][1..] == [];
    assert Run(8, s4, []) == s4;
    assert Run(8, s3, [0]) == s4;
    assert Run(8, s2, [1, 0]) == s4;
    assert Run(8, s1, [1, 1, 0]) == s4;
  }

  lemma DuelActs()
    ensures Act(8, 8, ShadeStart) == (8, ShadeSwap(8)) && Act(8, 8, InstallStart(16)) == (8, InstallLoop(16, 8))
    ensures Act(8, 8, InstallLoop(16, 8)) == (16, InstallDone(16, Installed(16)))
    ensures Act(8, 16, ShadeSwap(8)) == (16, ShadeDone(false))
    ensures Color(16) == WHITE
  {
  }

  // ---------------------------------------------------------------- every race ends

  /** How many changes of the word are still possible. */
  function ChangesLeft(self: Word, word: Word): nat {
    (if Forward(word) == self then 1 else 0) + (if Color(word) == WHITE then 1 else 0)
  }

  /** Actions a thread still needs if the word does not change any more. */
  function Left(word: Word, t: Thread): nat {
    match t
    case InstallStart(_) => 3
    case InstallLoop(_, current) => if current == word then 1 else 2
    case ShadeStart => 2
    case ShadeSwap(_) => 1
    case _ => 0
  }

  function LeftOver(word: Word, threads: seq<Thread>): nat {
    if threads == [] then 0 else Left(word, threads[0]) + LeftOver(word, threads[1..])
  }

  function Measure(self: Word, s: Race): nat {
    ChangesLeft(self, s.word) * (|s.threads| + 1) + LeftOver(s.word, s.threads)
  }

  lemma {:induction false} LeftOverOne(word: Word, threads: seq<Thread>, i: nat, t: Thread)
    requires i < |threads|
    ensures LeftOver(word, threads[i := t]) == LeftOver(word, threads) - Left(word, threads[i]) + Left(word, t)
  {
    if i > 0 {
      assert threads[i := t][1..] == threads[1..][i - 1 := t];
      LeftOverOne(word, threads[1..], i - 1, t);
    } else {
      assert threads[i := t][1..] == threads[1..];
    }
  }

  // A change of the word costs every other thread at most one action more.
  lemma {:induction false} LeftOverGrows(before: Word, after: Word, threads: seq<Thread>)
    ensures LeftOver(after, threads) <= LeftOver(before, threads) + |threads|
  {
    if threads != [] {
      LeftOverGrows(before, after, threads[1..]);
    }
  }

  lemma ActionUsesUp(self: Word, s: Race, t: Thread)
    requires GoodThread(self, s, t) && !t.Done()
    ensures var (word, t') := Act(self, s.word, t);
            if word == s.word then Left(word, t') < Left(word, t)
            else t'.Done() && ChangesLeft(self, word) < ChangesLeft(self, s.word)
  {
    hide Painted, Forwarded, Aligned, Forward, Color;
    ActionIsLegal(self, s, t);
  }

  lemma StepUsesUp(self: Word, color: Word, s: Race, i: nat)
    requires Inv(self, color, s) && i < |s.threads| && !s.threads[i].Done()
    ensures Measure(self, Step(self, s, i)) < Measure(self, s)
  {
    hide Painted, Forwarded, Aligned, Forward, Color, Act, ChangesLeft;
    ActionUsesUp(self, s, s.threads[i]);
    var (word, t') := Act(self, s.word, s.threads[i]);
    LeftOverOne(word, s.threads, i, t');
    if word != s.word {
      LeftOverGrows(s.word, word, s.threads);
      ScaledDown(ChangesLeft(self, word), ChangesLeft(self, s.word), |s.threads| + 1);
    }
  }

  lemma ScaledDown(a: nat, b: nat, n: nat)
    requires a < b
    ensures a * n + n <= b * n
  {
    if a + 1 < b {
      ScaledDown(a, b - 1, n);
    }
    assert b * n == (b - 1) * n + n;
  }

  /** Only threads that have not finished are scheduled. */
  predicate Busy(self: Word, s: Race, schedule: seq<nat>)
    requires Schedules(schedule, |s.threads|)
    decreases |schedule|
  {
    schedule == [] || (!s.threads[schedule[0]].Done() && Busy(self, Step(self, s, schedule[0]), schedule[1..]))
  }

  lemma {:induction false} BusyIsShort(self: Word, color: Word, s: Race, schedule: seq<nat>)
    requires Inv(self, color, s) && Schedules(schedule, |s.threads|) && Busy(self, s, schedule)
    ensures |schedule| <= Measure(self, s)
    decreases |schedule|
  {
    hide Measure, Inv, Step;
    if schedule != [] {
      StepUsesUp(self, color, s, schedule[0]);
      StepKeepsInv(self, color, s, schedule[0]);
      assert |Step(self, s, schedule[0]).threads| == |s.threads| by { StepKeepsThreads(self, s, schedule[0]); }
      BusyIsShort(self, color, Step(self, s, schedule[0]), schedule[1..]);
    }
  }

  lemma StepKeepsThreads(self: Word, s: Race, i: nat)
    requires i < |s.threads|
    ensures |Step(self, s, i).threads| == |s.threads|
  {
  }

  // However the threads are scheduled, n of them are all done after at most 5n + 2 actions: no
  // installation retries for ever.
  lemma EveryRaceEnds(self: Word, s: Race, schedule: seq<nat>)
    requires Initial(self, s) && Schedules(schedule, |s.threads|) && Busy(self, s, schedule)
    ensures |schedule| <= 5 * |s.threads| + 2
  {
    hide Forward, Color;
    InitialInv(self, s);
    BusyIsShort(self, Color(s.word), s, schedule);
    StartIsSmall(s.word, s.threads);
    assert ChangesLeft(self, s.word) <= 2;
    if ChangesLeft(self, s.word) < 2 {
      ScaledDown(ChangesLeft(self, s.word), 2, |s.threads| + 1);
    }
  }

  lemma {:induction false} StartIsSmall(word: Word, threads: seq<Thread>)
    ensures LeftOver(word, threads) <= 3 * |threads|
  {
    if threads != [] {
      StartIsSmall(word, threads[1..]);
    }
  }
}
