/** Lowered functions are closed graphs: labels are distinct, and every branch target names a block. */
module LowerLabels {
  import opened Options
  import opened Mir
  import opened Ssa
  import opened Graph
  import opened Hir
  import opened Lower

  // ---------------------------------------------------------------- labels as text

  lemma {:induction false} DecimalDigits(n: nat, k: nat)
    requires k < |Decimal(n)|
    ensures Decimal(n)[k] != '_'
  {
    if n >= 10 && k < |Decimal(n / 10)| {
      DecimalDigits(n / 10, k);
    }
  }

  lemma {:induction false} DecimalInjective(a: nat, b: nat)
    requires Decimal(a) == Decimal(b)
    ensures a == b
  {
    var s := Decimal(a);
    assert s[|s| - 1] == Digit(a % 10) && s[|s| - 1] == Digit(b % 10);
    assert |Decimal(a / 10)| >= 1 && |Decimal(b / 10)| >= 1;
    if a >= 10 {
      assert s[..|s| - 1] == Decimal(a / 10);
      assert s[..|s| - 1] == Decimal(b / 10);
      DecimalInjective(a / 10, b / 10);
    }
  }

  // Equal labels have numbers of equal length: the last underscore is in the same place.
  lemma NotShorter(p: string, j: nat, q: string, k: nat)
    requires LabelFor(p, j) == LabelFor(q, k)
    ensures |Decimal(j)| >= |Decimal(k)|
  {
    var x, y := Decimal(j), Decimal(k);
    if |x| < |y| {
      var place := |y| - |x| - 1;
      assert LabelFor(p, j)[|p|] == '_';
      assert LabelFor(q, k)[|q| + 1 + place] == y[place];
      DecimalDigits(k, place);
    }
  }

  // A label determines its prefix and its number.
  lemma LabelInjective(p: string, j: nat, q: string, k: nat)
    requires LabelFor(p, j) == LabelFor(q, k)
    ensures p == q && j == k
  {
    var l := LabelFor(p, j);
    var x, y := Decimal(j), Decimal(k);
    NotShorter(p, j, q, k);
    NotShorter(q, k, p, j);
    assert x == l[|l| - |x|..] && y == l[|l| - |y|..];
    DecimalInjective(j, k);
    assert p == l[..|p|] && q == l[..|q|];
  }

  // ---------------------------------------------------------------- labels in use

  const PREFIXES := {"then", "else", "merge", "loop_cond", "loop_body", "loop_exit", "after_return"}

  ghost predicate Numbered(l: Label, numbers: set<nat>) {
    exists p, j :: p in PREFIXES && j in numbers && l == LabelFor(p, j)
  }

  ghost predicate NoDuplicates(ls: seq<Label>) {
    forall j, k :: 0 <= j < k < |ls| ==> ls[j] != ls[k]
  }

  /** Distinct labels with numbers from the given set. */
  ghost predicate Fresh(ls: seq<Label>, numbers: set<nat>) {
    NoDuplicates(ls) && forall k :: 0 <= k < |ls| ==> Numbered(ls[k], numbers)
  }

  lemma FreshOne(p: string, j: nat)
    requires p in PREFIXES
    ensures Fresh([LabelFor(p, j)], {j})
  {
  }

  lemma FreshConcat(ls: seq<Label>, s: set<nat>, ms: seq<Label>, t: set<nat>)
    requires Fresh(ls, s) && Fresh(ms, t) && s !! t
    ensures Fresh(ls + ms, s + t)
  {
    var all := ls + ms;
    forall j, k | 0 <= j < k < |all|
      ensures all[j] != all[k]
    {
      if j < |ls| <= k && ls[j] == ms[k - |ls|] {
        var p, x :| p in PREFIXES && x in s && ls[j] == LabelFor(p, x);
        var q, y :| q in PREFIXES && y in t && ms[k - |ls|] == LabelFor(q, y);
        LabelInjective(p, x, q, y);
      }
    }
    forall k | 0 <= k < |all|
      ensures Numbered(all[k], s + t)
    {
      if k < |ls| {
        assert Numbered(ls[k], s);
      } else {
        assert Numbered(ms[k - |ls|], t);
      }
    }
  }

  lemma FreshAmong(ls: seq<Label>, s: set<nat>, t: set<nat>)
    requires Fresh(ls, s) && s <= t
    ensures Fresh(ls, t)
  {
    forall k | 0 <= k < |ls|
      ensures Numbered(ls[k], t)
    {
      assert Numbered(ls[k], s);
    }
  }

  function Range(lo: nat, hi: nat): (numbers: set<nat>)
    ensures forall j :: j in numbers <==> lo <= j < hi
    decreases hi - lo
  {
    if lo >= hi then {} else {lo} + Range(lo + 1, hi)
  }

  /** The labels so far, the open block's last. */
  function LabelsOf(b: Builder): seq<Label> {
    seq(|b.blocks|, k requires 0 <= k < |b.blocks| => b.blocks[k].lbl) + [OpenLabel(b)]
  }

  /** Every target is the label of a block, or one of those promised. */
  ghost predicate TargetsIn(b: Builder, promised: set<Label>) {
    forall k, l :: 0 <= k < |b.blocks| && l in Targets(b.blocks[k].term) ==> l in LabelsOf(b) || l in promised
  }

  /** From b to b' the labels added are distinct and numbered as given, and no target is left loose. */
  ghost predicate Extends(b: Builder, b': Builder, added: seq<Label>, numbers: set<nat>, promised: set<Label>) {
    && LabelsOf(b') == LabelsOf(b) + added
    && Fresh(added, numbers)
    && (TargetsIn(b, promised) ==> TargetsIn(b', promised))
  }

  lemma Compose(b: Builder, b1: Builder, first: seq<Label>, s: set<nat>,
                b2: Builder, second: seq<Label>, t: set<nat>, promised: set<Label>)
    requires Extends(b, b1, first, s, promised) && Extends(b1, b2, second, t, promised) && s !! t
    ensures Extends(b, b2, first + second, s + t, promised)
  {
    FreshConcat(first, s, second, t);
    assert LabelsOf(b) + (first + second) == (LabelsOf(b) + first) + second;
  }

  // Emitting instructions and taking numbers adds no label.
  lemma NoLabels(b: Builder, b': Builder, promised: set<Label>)
    requires b'.blocks == b.blocks && b'.pending == b.pending
    ensures Extends(b, b', [], {}, promised)
  {
    assert LabelsOf(b') == LabelsOf(b) + [];
  }

  lemma TurnExtends(b: Builder, term: Terminator, prefix: string, j: nat, promised: set<Label>)
    requires prefix in PREFIXES && Targets(term) <= promised + {LabelFor(prefix, j)}
    ensures Extends(b, Turn(b, term, LabelFor(prefix, j)), [LabelFor(prefix, j)], {j}, promised)
  {
    FreshOne(prefix, j);
    var b' := Turn(b, term, LabelFor(prefix, j));
    assert LabelsOf(b') == LabelsOf(b) + [LabelFor(prefix, j)];
    assert LabelFor(prefix, j) in LabelsOf(b');
  }

  // Promises kept by the labels added can be dropped.
  lemma Settle(b: Builder, b': Builder, added: seq<Label>, s: set<nat>, more: set<Label>,
               t: set<nat>, promised: set<Label>)
    requires Extends(b, b', added, s, more) && s <= t
    requires promised <= more && forall l :: l in more ==> l in promised || l in added
    ensures Extends(b, b', added, t, promised)
  {
    FreshAmong(added, s, t);
  }

  // Emitting one instruction after the last step changes nothing.
  lemma ThenEmit(b: Builder, b1: Builder, added: seq<Label>, s: set<nat>, b2: Builder, promised: set<Label>)
    requires Extends(b, b1, added, s, promised) && b2.blocks == b1.blocks && b2.pending == b1.pending
    ensures Extends(b, b2, added, s, promised)
  {
    NoLabels(b1, b2, promised);
    Compose(b, b1, added, s, b2, [], {}, promised);
    assert added + [] == added && s + {} == s;
  }

  lemma AfterEmit(b: Builder, b1: Builder, b2: Builder, added: seq<Label>, s: set<nat>, promised: set<Label>)
    requires Extends(b1, b2, added, s, promised) && b.blocks == b1.blocks && b.pending == b1.pending
    ensures Extends(b, b2, added, s, promised)
  {
    NoLabels(b, b1, promised);
    Compose(b, b1, [], {}, b2, added, s, promised);
    assert [] + added == added && {} + s == s;
  }

  lemma Joined(b: Builder, b1: Builder, first: seq<Label>, lo: nat, mid: nat,
               b2: Builder, second: seq<Label>, hi: nat, promised: set<Label>)
    requires lo <= mid <= hi
    requires Extends(b, b1, first, Range(lo, mid), promised) && Extends(b1, b2, second, Range(mid, hi), promised)
    ensures Extends(b, b2, first + second, Range(lo, hi), promised)
  {
    Compose(b, b1, first, Range(lo, mid), b2, second, Range(mid, hi), promised);
    assert Range(lo, mid) + Range(mid, hi) == Range(lo, hi);
  }

  // What lowering a tree does to the labels: new ones, numbered from the counter on, and no loose ends.
  lemma {:induction false} NodeLabels(n: Node, b: Builder, promised: set<Label>) returns (added: seq<Label>)
    ensures var b' := LowerNode(n, b).0;
            b.nextBlock <= b'.nextBlock && Extends(b, b', added, Range(b.nextBlock, b'.nextBlock), promised)
    decreases n, 2
  {
    hide Extends, LabelsOf, Fresh, TargetsIn, IfCode, LoopCode;
    match n
    case BinaryOp(_, l, r) =>
      var first := NodeLabels(l, b, promised);
      var b1 := LowerNode(l, b).0;
      var second := NodeLabels(r, b1, promised);
      var b2 := LowerNode(r, b1).0;
      added := first + second;
      Joined(b, b1, first, b.nextBlock, b1.nextBlock, b2, second, b2.nextBlock, promised);
      ThenEmit(b, b2, added, Range(b.nextBlock, b2.nextBlock), LowerNode(n, b).0, promised);
    case UnaryOp(_, x) =>
      added := NodeLabels(x, b, promised);
      ThenEmit(b, LowerNode(x, b).0, added, Range(b.nextBlock, LowerNode(x, b).0.nextBlock), LowerNode(n, b).0,
               promised);
    case CallNode(_, args) =>
      added := AllLabels(args, b, promised);
      ThenEmit(b, LowerAll(args, b).0, added, Range(b.nextBlock, LowerAll(args, b).0.nextBlock), LowerNode(n, b).0,
               promised);
    case BlockCall(_, args, _, _, _, _) =>
      added := AllLabels(args, b, promised);
      BlockCallStays(n, b);
      ThenEmit(b, LowerAll(args, b).0, added, Range(b.nextBlock, LowerAll(args, b).0.nextBlock), LowerNode(n, b).0,
               promised);
    case Assign(_, v) =>
      added := NodeLabels(v, b, promised);
      ThenEmit(b, LowerNode(v, b).0, added, Range(b.nextBlock, LowerNode(v, b).0.nextBlock), LowerNode(n, b).0,
               promised);
    case If(_, _, _) => added := IfLabels(n, b, promised);
    case Loop(_, _) => added := LoopLabels(n, b, promised);
    case ReturnNode(_) => added := ReturnLabels(n, b, promised);
    case Sequence(ns) =>
      var b1 := EmitNew(b, LoadConst(b.nextReg, ConstNil));
      added := BodyLabels(ns, b1, b.nextReg, promised);
      AfterEmit(b, b1, LowerNode(n, b).0, added, Range(b.nextBlock, LowerNode(n, b).0.nextBlock), promised);
    case _ =>
      added := [];
      NoLabels(b, LowerNode(n, b).0, promised);
  }

  // The block's own labels are those of another function.
  lemma BlockCallStays(n: Node, b: Builder)
    requires n.BlockCall?
    ensures var b1, b' := LowerAll(n.args, b).0, LowerNode(n, b).0;
            b'.blocks == b1.blocks && b'.pending == b1.pending && b'.nextBlock == b1.nextBlock
  {
    hide FinishedBody, LowerAll;
  }

  lemma {:induction false} ReturnLabels(n: Node, b: Builder, promised: set<Label>) returns (added: seq<Label>)
    requires n.ReturnNode?
    ensures var b' := LowerNode(n, b).0;
            b.nextBlock <= b'.nextBlock && Extends(b, b', added, Range(b.nextBlock, b'.nextBlock), promised)
    decreases n, 0
  {
    hide Extends, LabelsOf, Fresh, TargetsIn;
    var b1, first, v := b, [], None;
    if n.result.Some? {
      first := NodeLabels(n.result.value, b, promised);
      b1 := LowerNode(n.result.value, b).0;
      v := Some(LowerNode(n.result.value, b).1);
    } else {
      NoLabels(b, b, promised);
    }
    var k := b1.nextBlock;
    var b2 := Turn(b1, Return(v), LabelFor("after_return", k));
    TurnExtends(b1, Return(v), "after_return", k, promised);
    assert {k} == Range(k, k + 1);
    added := first + [LabelFor("after_return", k)];
    Joined(b, b1, first, b.nextBlock, k, b2, [LabelFor("after_return", k)], k + 1, promised);
    assert LowerNode(n, b).0 == EmitNew(TakeLabels(b2, 1), LoadConst(b1.nextReg, ConstNil));
    ThenEmit(b, b2, added, Range(b.nextBlock, k + 1), LowerNode(n, b).0, promised);
  }

  // One arm of a conditional: turn to its block, load nil, lower its body.
  lemma {:induction false} ArmLabels(ns: seq<Node>, b: Builder, term: Terminator, prefix: string, j: nat,
                                     promised: set<Label>) returns (added: seq<Label>)
    requires prefix in PREFIXES && Targets(term) <= promised + {LabelFor(prefix, j)} && j < b.nextBlock
    ensures var b1 := Turn(b, term, LabelFor(prefix, j));
            var b2 := LowerBody(ns, EmitNew(b1, LoadConst(b1.nextReg, ConstNil)), b1.nextReg).0;
            && b.nextBlock <= b2.nextBlock
            && Extends(b, b2, [LabelFor(prefix, j)] + added, {j} + Range(b.nextBlock, b2.nextBlock), promised)
    decreases ns, 1
  {
    hide Extends, LabelsOf, Fresh, TargetsIn, LabelFor;
    var b1 := Turn(b, term, LabelFor(prefix, j));
    TurnExtends(b, term, prefix, j, promised);
    var b1' := EmitNew(b1, LoadConst(b1.nextReg, ConstNil));
    added := BodyLabels(ns, b1', b1.nextReg, promised);
    var b2 := LowerBody(ns, b1', b1.nextReg).0;
    AfterEmit(b1, b1', b2, added, Range(b.nextBlock, b2.nextBlock), promised);
    Compose(b, b1, [LabelFor(prefix, j)], {j}, b2, added, Range(b.nextBlock, b2.nextBlock), promised);
  }

  lemma {:induction false} IfLabels(n: Node, b: Builder, promised: set<Label>) returns (added: seq<Label>)
    requires n.If?
    ensures var b' := IfCode(n, b).0;
            b.nextBlock <= b'.nextBlock && Extends(b, b', added, Range(b.nextBlock, b'.nextBlock), promised)
    decreases n, 1
  {
    hide Extends, LabelsOf, Fresh, TargetsIn, LabelFor, LowerNode, LowerBody, Range;
    var (b1, c) := LowerNode(n.cond, b);
    var k := b1.nextBlock;
    var t, e, m := LabelFor("then", k), LabelFor("else", k + 1), LabelFor("merge", k + 2);
    var more := promised + {e, m};
    var b2 := Turn(TakeLabels(b1, 3), CondBranch(c, t, e), t);
    var (b3, x) := LowerBody(n.thenBody, EmitNew(b2, LoadConst(b2.nextReg, ConstNil)), b2.nextReg);
    var first := ConditionAndArm(n, b, more);
    var three := ArmLabels(n.elseBody, b3, Branch(m), "else", k + 1, more);
    var b4 := Turn(b3, Branch(m), e);
    var (b5, y) := LowerBody(n.elseBody, EmitNew(b4, LoadConst(b4.nextReg, ConstNil)), b4.nextReg);
    var second := [e] + three;
    var s, u := Range(b.nextBlock, k) + ({k} + Range(k + 3, b3.nextBlock)), {k + 1} + Range(b3.nextBlock, b5.nextBlock);
    IfRanges(b.nextBlock, k, b3.nextBlock, b5.nextBlock);
    Compose(b, b3, first, s, b5, second, u, more);
    assert e == (first + second)[|first|];
    added := IfSettles(b, b5, IfCode(n, b).0, first + second, s + u, b.nextBlock, b5.nextBlock, k, promised);
  }

  // The numbers of the labels of a conditional.
  lemma IfRanges(lo: nat, k: nat, mid: nat, hi: nat)
    requires lo <= k && k + 3 <= mid <= hi
    ensures var s, u := Range(lo, k) + ({k} + Range(k + 3, mid)), {k + 1} + Range(mid, hi);
            s !! u && s + u <= Range(lo, hi) && k + 2 !in s + u
  {
  }

  lemma {:induction false} ConditionAndArm(n: Node, b: Builder, more: set<Label>) returns (added: seq<Label>)
    requires n.If? && LabelFor("else", LowerNode(n.cond, b).0.nextBlock + 1) in more
    ensures var (b1, c) := LowerNode(n.cond, b);
            var k := b1.nextBlock;
            var b2 := Turn(TakeLabels(b1, 3), CondBranch(c, LabelFor("then", k), LabelFor("else", k + 1)),
                           LabelFor("then", k));
            var b3 := LowerBody(n.thenBody, EmitNew(b2, LoadConst(b2.nextReg, ConstNil)), b2.nextReg).0;
            && b.nextBlock <= k && k + 3 <= b3.nextBlock
            && Extends(b, b3, added, Range(b.nextBlock, k) + ({k} + Range(k + 3, b3.nextBlock)), more)
    decreases n, 0
  {
    hide Extends, LabelsOf, Fresh, TargetsIn, LabelFor, LowerNode, LowerBody;
    var (b1, c) := LowerNode(n.cond, b);
    var k := b1.nextBlock;
    var t, e := LabelFor("then", k), LabelFor("else", k + 1);
    var one := NodeLabels(n.cond, b, more);
    ThenEmit(b, b1, one, Range(b.nextBlock, k), TakeLabels(b1, 3), more);
    var two := ArmLabels(n.thenBody, TakeLabels(b1, 3), CondBranch(c, t, e), "then", k, more);
    var b2 := Turn(TakeLabels(b1, 3), CondBranch(c, t, e), t);
    var b3 := LowerBody(n.thenBody, EmitNew(b2, LoadConst(b2.nextReg, ConstNil)), b2.nextReg).0;
    Compose(b, TakeLabels(b1, 3), one, Range(b.nextBlock, k), b3, [t] + two, {k} + Range(k + 3, b3.nextBlock), more);
    added := one + ([t] + two);
  }

  lemma IfSettles(b: Builder, b5: Builder, b': Builder, soFar: seq<Label>, numbers: set<nat>, lo: nat, hi: nat,
                  k: nat, promised: set<Label>) returns (added: seq<Label>)
    requires lo <= k && k + 3 <= hi && numbers <= Range(lo, hi) && k + 2 !in numbers
    requires LabelFor("else", k + 1) in soFar
    requires Extends(b, b5, soFar, numbers, promised + {LabelFor("else", k + 1), LabelFor("merge", k + 2)})
    requires var m := LabelFor("merge", k + 2); b'.blocks == Turn(b5, Branch(m), m).blocks && b'.pending == Some(m)
    ensures Extends(b, b', added, Range(lo, hi), promised)
  {
    hide Extends, LabelsOf, Fresh, TargetsIn, LabelFor;
    var m := LabelFor("merge", k + 2);
    var more := promised + {LabelFor("else", k + 1), m};
    var b6 := Turn(b5, Branch(m), m);
    TurnExtends(b5, Branch(m), "merge", k + 2, more);
    Compose(b, b5, soFar, numbers, b6, [m], {k + 2}, more);
    added := soFar + [m];
    assert added[|added| - 1] == m;
    Settle(b, b6, added, numbers + {k + 2}, more, Range(lo, hi), promised);
    ThenEmit(b, b6, added, Range(lo, hi), b', promised);
  }

  lemma {:induction false} LoopLabels(n: Node, b: Builder, promised: set<Label>) returns (added: seq<Label>)
    requires n.Loop?
    ensures var b' := LoopCode(n, b).0;
            b.nextBlock <= b'.nextBlock && Extends(b, b', added, Range(b.nextBlock, b'.nextBlock), promised)
    decreases n, 0
  {
    hide Extends, LabelsOf, Fresh, TargetsIn, LabelFor, LowerNode, LowerBody;
    var k := b.nextBlock;
    var t, y, x := LabelFor("loop_cond", k), LabelFor("loop_body", k + 1), LabelFor("loop_exit", k + 2);
    var more := promised + {t, x};
    var b1 := Turn(TakeLabels(b, 3), Branch(t), t);
    TurnExtends(TakeLabels(b, 3), Branch(t), "loop_cond", k, more);
    AfterEmit(b, TakeLabels(b, 3), b1, [t], {k}, more);
    var one := NodeLabels(n.cond, b1, more);
    var (b2, c) := LowerNode(n.cond, b1);
    var mid := b2.nextBlock;
    Compose(b, b1, [t], {k}, b2, one, Range(k + 3, mid), more);
    var b3 := Turn(b2, CondBranch(c, y, x), y);
    TurnExtends(b2, CondBranch(c, y, x), "loop_body", k + 1, more);
    Compose(b, b2, [t] + one, {k} + Range(k + 3, mid), b3, [y], {k + 1}, more);
    var two := BodyLabels(n.body, b3, 0, more);
    var (b4, last) := LowerBody(n.body, b3, 0);
    var hi := b4.nextBlock;
    Compose(b, b3, [t] + one + [y], {k} + Range(k + 3, mid) + {k + 1}, b4, two, Range(mid, hi), more);
    var b5 := Turn(b4, Branch(t), x);
    TurnExtends(b4, Branch(t), "loop_exit", k + 2, more);
    var numbers := {k} + Range(k + 3, mid) + {k + 1} + Range(mid, hi);
    Compose(b, b4, [t] + one + [y] + two, numbers, b5, [x], {k + 2}, more);
    added := [t] + one + [y] + two + [x];
    assert added[0] == t && added[|added| - 1] == x;
    Settle(b, b5, added, numbers + {k + 2}, more, Range(k, hi), promised);
    ThenEmit(b, b5, added, Range(k, hi), LoopCode(n, b).0, promised);
  }

  lemma {:induction false} BodyLabels(ns: seq<Node>, b: Builder, last: RegId, promised: set<Label>)
    returns (added: seq<Label>)
    ensures var b' := LowerBody(ns, b, last).0;
            b.nextBlock <= b'.nextBlock && Extends(b, b', added, Range(b.nextBlock, b'.nextBlock), promised)
    decreases ns, 0
  {
    hide Extends, LabelsOf, Fresh, TargetsIn;
    if ns == [] {
      added := [];
      NoLabels(b, b, promised);
    } else {
      var first := NodeLabels(ns[0], b, promised);
      var (b1, r) := LowerNode(ns[0], b);
      var second := BodyLabels(ns[1..], b1, r, promised);
      var b2 := LowerBody(ns[1..], b1, r).0;
      added := first + second;
      Joined(b, b1, first, b.nextBlock, b1.nextBlock, b2, second, b2.nextBlock, promised);
    }
  }

  lemma {:induction false} AllLabels(ns: seq<Node>, b: Builder, promised: set<Label>) returns (added: seq<Label>)
    ensures var b' := LowerAll(ns, b).0;
            b.nextBlock <= b'.nextBlock && Extends(b, b', added, Range(b.nextBlock, b'.nextBlock), promised)
    decreases ns, 0
  {
    hide Extends, LabelsOf, Fresh, TargetsIn;
    if ns == [] {
      added := [];
      NoLabels(b, b, promised);
    } else {
      var first := NodeLabels(ns[0], b, promised);
      var b1 := LowerNode(ns[0], b).0;
      var second := AllLabels(ns[1..], b1, promised);
      var b2 := LowerAll(ns[1..], b1).0;
      added := first + second;
      Joined(b, b1, first, b.nextBlock, b1.nextBlock, b2, second, b2.nextBlock, promised);
    }
  }

  // ---------------------------------------------------------------- the whole function

  lemma {:induction false} ParamsLabels(params: seq<string>, i: nat)
    requires i <= |params|
    ensures var b := LowerParams(params, i);
            LabelsOf(b) == [LabelFor("entry", 0)] && TargetsIn(b, {}) && b.nextBlock == 0
  {
    if i > 0 {
      ParamsLabels(params, i - 1);
    }
  }

  lemma NotTheEntry(added: seq<Label>, numbers: set<nat>)
    requires Fresh(added, numbers)
    ensures LabelFor("entry", 0) !in added
  {
    if k :| 0 <= k < |added| && added[k] == LabelFor("entry", 0) {
      assert Numbered(added[k], numbers);
      var p, n :| p in PREFIXES && n in numbers && added[k] == LabelFor(p, n);
      LabelInjective(p, n, "entry", 0);
    }
  }

  /** Labels are distinct, and every branch target names a block. */
  ghost predicate ClosedGraph(f: Func) {
    && DistinctLabels(f)
    && forall b, l :: 0 <= b < |f.blocks| && l in Targets(f.blocks[b].term)
         ==> exists c :: 0 <= c < |f.blocks| && f.blocks[c].lbl == l
  }

  // The lowered function is a closed graph, for every tree whatsoever.
  lemma LoweredIsClosedGraph(params: seq<string>, body: seq<Node>)
    ensures ClosedGraph(LowerFunction(params, body))
  {
    var b0 := LowerParams(params, |params|);
    ParamsLabels(params, |params|);
    var added := BodyLabels(body, b0, 0, {});
    var (b, last) := LowerBody(body, b0, 0);
    var f := LowerFunction(params, body);
    var labels := [LabelFor("entry", 0)] + added;
    NotTheEntry(added, Range(b0.nextBlock, b.nextBlock));
    assert NoDuplicates(labels);
    assert |f.blocks| == |labels| && forall c :: 0 <= c < |f.blocks| ==> f.blocks[c].lbl == labels[c];
    forall c, l | 0 <= c < |f.blocks| && l in Targets(f.blocks[c].term)
      ensures exists d :: 0 <= d < |f.blocks| && f.blocks[d].lbl == l
    {
      assert l in LabelsOf(b);
      var d :| 0 <= d < |labels| && labels[d] == l;
    }
  }

  // And so are the functions of the blocks in it, however deeply nested.
  lemma BlocksAreClosedGraphs(params: seq<string>, body: seq<Node>)
    ensures forall k :: 0 <= k < |BlockFunctions(params, body)| ==> ClosedGraph(BlockFunctions(params, body)[k].func)
  {
    hide BlockFunctions, LowerFunction, ClosedGraph;
    BlocksAreLowered(params, body);
    forall k | 0 <= k < |BlockFunctions(params, body)|
      ensures ClosedGraph(BlockFunctions(params, body)[k].func)
    {
      assert IsLowered(BlockFunctions(params, body)[k].func);
      var ps, inner :| BlockFunctions(params, body)[k].func == LowerFunction(ps, inner);
      LoweredIsClosedGraph(ps, inner);
    }
  }
}
