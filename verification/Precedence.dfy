/**
  The precedence of the operators, written out token by token: for any operands between any two
  operators, what the parser returns.
 */
module Precedence {
  import opened Options
  import opened Syntax
  import opened Parser

  const RANGES := 3
  const POWERS := 10
  const RUNGS := 11

  /** The binary operators, from those that bind least to those that bind most. */
  function Rung(i: nat): set<Token>
    requires i < RUNGS
  {
    match i
    case 0 => {PipePipe, KwOr}
    case 1 => {AmpAmp, KwAnd}
    case 2 => {EqualEqual, BangEqual, Less, Greater, LessEqual, GreaterEqual, Spaceship, TripleEqual, Token.Match,
               NotMatch}
    case 3 => {DotDot, DotDotDot}
    case 4 => {Pipe}
    case 5 => {Caret}
    case 6 => {Amp}
    case 7 => {LessLess, GreaterGreater}
    case 8 => {Plus, Minus}
    case 9 => {Star, Slash, Percent}
    case 10 => {DoubleStar}
  }

  /** What the token of a binary operator makes of its operands. */
  function Meaning(t: Token, l: Expr, r: Expr): Expr
    requires exists i: nat :: i < RUNGS && t in Rung(i)
  {
    match t
    case PipePipe => BinaryOp(Or, l, r) case KwOr => BinaryOp(Or, l, r)
    case AmpAmp => BinaryOp(And, l, r) case KwAnd => BinaryOp(And, l, r)
    case EqualEqual => BinaryOp(Eq, l, r) case BangEqual => BinaryOp(NotEq, l, r)
    case Less => BinaryOp(Lt, l, r) case Greater => BinaryOp(Gt, l, r)
    case LessEqual => BinaryOp(LtEq, l, r) case GreaterEqual => BinaryOp(GtEq, l, r)
    case Spaceship => BinaryOp(Cmp, l, r) case TripleEqual => BinaryOp(CaseEq, l, r)
    case Match => BinaryOp(Matches, l, r) case NotMatch => BinaryOp(NotMatches, l, r)
    case DotDot => RangeLit(l, r, false) case DotDotDot => RangeLit(l, r, true)
    case Pipe => BinaryOp(BitOr, l, r) case Caret => BinaryOp(BitXor, l, r) case Amp => BinaryOp(BitAnd, l, r)
    case LessLess => BinaryOp(Shl, l, r) case GreaterGreater => BinaryOp(Shr, l, r)
    case Plus => BinaryOp(Add, l, r) case Minus => BinaryOp(Sub, l, r)
    case Star => BinaryOp(Mul, l, r) case Slash => BinaryOp(Div, l, r) case Percent => BinaryOp(Mod, l, r)
    case DoubleStar => BinaryOp(Pow, l, r)
  }

  /** What a sign in front of an operand makes of it. */
  function Signed(t: Token, x: Expr): Expr
    requires t in {Minus, Plus, Tilde}
  {
    UnaryOp(if t == Minus then Neg else if t == Plus then Pos else BitNot, x)
  }

  /** An operand that needs no precedence: a literal, a name, or anything between parentheses. */
  predicate Operand(w: Writing) {
    Legal(w) && (w.Leaf? || w.Paren?)
  }

  /** The next token goes on with no expression. */
  predicate Over(rest: seq<Token>) {
    Input(rest) && (rest[0] in {LParen, RParen, Colon, Bang, KwNot, Tilde, Newline, Eof}
                    || rest[0].Integer? || rest[0].InstanceVar?)
  }

  lemma RungsAreLevels(i: nat, t: Token)
    requires i < RUNGS && t in Rung(i)
    ensures LevelOf(t) == (if i < 2 then i + 1 else i + 2)
    ensures forall l, r :: Meaning(t, l, r) == Joined(t, l, r)
  {
    RungsHaveLevels(i, t);
    forall l, r
      ensures Meaning(t, l, r) == Joined(t, l, r)
    {
      MeaningIsJoined(i, t, l, r);
    }
    hide Meaning, Joined, LevelOf, Rung;
  }

  lemma RungsHaveLevels(i: nat, t: Token)
    requires i < RUNGS && t in Rung(i)
    ensures LevelOf(t) == if i < 2 then i + 1 else i + 2
  {
    if i == 2 {
      ComparisonsHaveLevel(t);
    }
    if i != 2 {
      OthersHaveLevels(i, t);
    }
    hide LevelOf, Rung;
  }

  lemma ComparisonsHaveLevel(t: Token)
    requires t in Rung(2)
    ensures LevelOf(t) == 4
  {
  }

  lemma OthersHaveLevels(i: nat, t: Token)
    requires i < RUNGS && i != 2 && t in Rung(i)
    ensures LevelOf(t) == if i < 2 then i + 1 else i + 2
  {
  }

  lemma MeaningIsJoined(i: nat, t: Token, l: Expr, r: Expr)
    requires i < RUNGS && t in Rung(i)
    ensures LevelOf(t) >= 1 && Meaning(t, l, r) == Joined(t, l, r)
  {
    RungsHaveLevels(i, t);
    hide LevelOf;
  }

  lemma OverHasNoLevel(rest: seq<Token>)
    requires Over(rest)
    ensures Input(rest) && LevelOf(rest[0]) < 0
  {
  }

  lemma OperandFits(x: Writing)
    requires Operand(x)
    ensures Legal(x) && LevelOfWriting(x) == PRIMARY
  {
    hide LevelOf;
  }

  // A binary operation of writings that bind tightly enough.
  lemma InfixFits(l: Writing, t: Token, r: Writing)
    requires Legal(l) && Legal(r) && LevelOf(t) >= 1 && LevelOf(t) <= POWER
    requires LevelOfWriting(l) >= LeftLevel(LevelOf(t)) && LevelOfWriting(r) >= RightLevel(LevelOf(t))
    ensures var w := Infix(l, t, r);
            && Legal(w) && LevelOfWriting(w) == LevelOf(t) && Tree(w) == Joined(t, Tree(l), Tree(r))
            && Tokens(w) == Tokens(l) + [t] + Tokens(r)
  {
    hide LevelOf, Joined;
  }

  lemma PrefixFits(level: Level, u: Token, x: Writing)
    requires PrefixOf(level, u).Some? && Legal(x) && LevelOfWriting(x) >= level
    ensures var w := Prefix(u, x);
            && Legal(w) && LevelOfWriting(w) == level && Tree(w) == UnaryOp(PrefixOf(level, u).value, Tree(x))
            && Tokens(w) == [u] + Tokens(x)
  {
    hide LevelOf;
  }

  // ---------------------------------------------------------------- operands

  lemma LeavesParse(t: Token, rest: seq<Token>)
    requires Over(rest)
    ensures t.Integer? ==> Parse(TERNARY, [t] + rest) == (Some(IntegerLit(t.value)), rest)
    ensures t.InstanceVar? ==> Parse(TERNARY, [t] + rest) == (Some(InstanceVarExpr(t.name)), rest)
  {
    if t.Integer? || t.InstanceVar? {
      OverHasNoLevel(rest);
      ReadsAt(Leaf(t), TERNARY, rest);
    }
  }

  // Parentheses leave no trace in the tree.
  lemma ParenthesesParse(w: Writing, rest: seq<Token>)
    requires Legal(w) && Over(rest)
    ensures Parse(TERNARY, Tokens(w) + rest).0.Some?
    ensures Parse(TERNARY, [LParen] + Tokens(w) + [RParen] + rest) == (Parse(TERNARY, Tokens(w) + rest).0, rest)
  {
    OverHasNoLevel(rest);
    ReadsAt(w, TERNARY, rest);
    ReadsAt(Paren(w), TERNARY, rest);
  }

  // ---------------------------------------------------------------- two binary operators

  // Of two operators the one that binds more takes the middle operand. On equal rungs it is the first one,
  // but of two powers the second, and after one range there is no other.
  lemma TwoOperators(x: Writing, s: Token, y: Writing, t: Token, z: Writing, i: nat, j: nat, rest: seq<Token>)
    requires Operand(x) && Operand(y) && Operand(z) && Over(rest)
    requires i < RUNGS && j < RUNGS && s in Rung(i) && t in Rung(j)
    ensures Parse(TERNARY, Tokens(x) + [s] + Tokens(y) + [t] + Tokens(z) + rest)
            == if i < j || i == j == POWERS then (Some(Meaning(s, Tree(x), Meaning(t, Tree(y), Tree(z)))), rest)
               else if i == j == RANGES then (Some(Meaning(s, Tree(x), Tree(y))), [t] + Tokens(z) + rest)
               else (Some(Meaning(t, Meaning(s, Tree(x), Tree(y)), Tree(z))), rest)
  {
    hide LevelOf, OperatorOf, Joined, Parse, Rung, Meaning, Operand, Tokens, Tree;
    RungsAreLevels(i, s);
    RungsAreLevels(j, t);
    OverHasNoLevel(rest);
    if i < j || i == j == POWERS {
      SecondTakesMiddle(x, s, y, t, z, rest);
    } else if i == j == RANGES {
      SecondRange(x, s, y, t, z, rest);
    } else {
      FirstTakesMiddle(x, s, y, t, z, rest);
    }
  }

  lemma SecondTakesMiddle(x: Writing, s: Token, y: Writing, t: Token, z: Writing, rest: seq<Token>)
    requires Operand(x) && Operand(y) && Operand(z) && Input(rest) && LevelOf(rest[0]) < 0
    requires 1 <= LevelOf(s) < LevelOf(t) || LevelOf(s) == LevelOf(t) == POWER
    ensures Parse(TERNARY, Tokens(x) + [s] + Tokens(y) + [t] + Tokens(z) + rest)
            == (Some(Joined(s, Tree(x), Joined(t, Tree(y), Tree(z)))), rest)
  {
    hide LevelOf, OperatorOf, Joined, Parse, Legal, LevelOfWriting, Tree, Operand, Tokens, PrefixOf, Rung, Meaning,
         Signed, Over;
    NoPrefixAtInfixLevel(t);
    OperandFits(x);
    OperandFits(y);
    OperandFits(z);
    var right := Infix(y, t, z);
    InfixFits(y, t, z);
    InfixFits(x, s, right);
    var w := Infix(x, s, right);
    assert Tokens(w) + rest == Tokens(x) + [s] + Tokens(y) + [t] + Tokens(z) + rest;
    ReadsAt(w, TERNARY, rest);
  }

  lemma FirstTakesMiddle(x: Writing, s: Token, y: Writing, t: Token, z: Writing, rest: seq<Token>)
    requires Operand(x) && Operand(y) && Operand(z) && Input(rest) && LevelOf(rest[0]) < 0
    requires 1 <= LevelOf(t) <= LevelOf(s)
    requires LevelOf(s) == LevelOf(t) ==> LevelOf(s) != RANGE && LevelOf(s) != POWER
    ensures Parse(TERNARY, Tokens(x) + [s] + Tokens(y) + [t] + Tokens(z) + rest)
            == (Some(Joined(t, Joined(s, Tree(x), Tree(y)), Tree(z))), rest)
  {
    hide LevelOf, OperatorOf, Joined, Parse, Legal, LevelOfWriting, Tree, Operand, Tokens, PrefixOf, Rung, Meaning,
         Signed, Over;
    NoPrefixAtInfixLevel(s);
    OperandFits(x);
    OperandFits(y);
    OperandFits(z);
    var left := Infix(x, s, y);
    InfixFits(x, s, y);
    InfixFits(left, t, z);
    var w := Infix(left, t, z);
    assert Tokens(w) + rest == Tokens(x) + [s] + Tokens(y) + [t] + Tokens(z) + rest;
    ReadsAt(w, TERNARY, rest);
  }

  lemma SecondRange(x: Writing, s: Token, y: Writing, t: Token, z: Writing, rest: seq<Token>)
    requires Operand(x) && Operand(y) && Input(rest) && LevelOf(s) == LevelOf(t) == RANGE
    ensures Parse(TERNARY, Tokens(x) + [s] + Tokens(y) + [t] + Tokens(z) + rest)
            == (Some(Joined(s, Tree(x), Tree(y))), [t] + Tokens(z) + rest)
  {
    hide LevelOf, OperatorOf, PrefixOf, Joined, Parse, Tokens, Legal, Tree, LevelOfWriting;
    var tail := [t] + Tokens(z) + rest;
    var ts := Tokens(x) + ([s] + (Tokens(y) + tail));
    assert ts == Tokens(x) + [s] + Tokens(y) + [t] + Tokens(z) + rest;
    OneRange(x, s, y, tail);
    OperandBeginsPlain(x, [s] + (Tokens(y) + tail));
    RangePasses(TERNARY, ts, Joined(s, Tree(x), Tree(y)), tail);
  }

  lemma OneRange(x: Writing, s: Token, y: Writing, tail: seq<Token>)
    requires Operand(x) && Operand(y) && Input(tail) && LevelOf(s) == LevelOf(tail[0]) == RANGE
    ensures Parse(RANGE, Tokens(x) + ([s] + (Tokens(y) + tail))) == (Some(Joined(s, Tree(x), Tree(y))), tail)
  {
    hide LevelOf, OperatorOf, PrefixOf, Joined, ParseTernary, ParsePrimary, ParseLoop, Tokens;
    var more := [s] + (Tokens(y) + tail);
    assert more[1..] == Tokens(y) + tail;
    NoPrefixAtInfixLevel(s);
    ReadsAt(y, RANGE + 1, tail);
    ReadsAt(x, RANGE + 1, more);
  }

  lemma OperandBeginsPlain(x: Writing, rest: seq<Token>)
    requires Operand(x)
    ensures forall j: Level :: j < PRIMARY ==> PrefixOf(j, (Tokens(x) + rest)[0]).None?
  {
    forall j: Level | j < PRIMARY
      ensures PrefixOf(j, (Tokens(x) + rest)[0]).None?
    {
      NoPrefix(x, j);
    }
  }

  // No level looser than that of ranges goes on with a range.
  lemma {:induction false} RangePasses(level: Level, ts: seq<Token>, e: Expr, rest: seq<Token>)
    requires level <= RANGE && Input(ts) && Parse(RANGE, ts) == (Some(e), rest) && LevelOf(rest[0]) == RANGE
    requires forall j: Level :: level <= j < RANGE ==> PrefixOf(j, ts[0]).None?
    ensures Parse(level, ts) == (Some(e), rest)
    decreases RANGE - level
  {
    if level < RANGE {
      RangePasses(level + 1, ts, e, rest);
    }
  }

  // ---------------------------------------------------------------- operators in front

  // A negation takes a whole comparison, but neither a conjunction nor a disjunction.
  lemma NegationInFront(u: Token, x: Writing, s: Token, y: Writing, i: nat, rest: seq<Token>)
    requires u == Bang || u == KwNot
    requires Operand(x) && Operand(y) && Over(rest) && i < RUNGS && s in Rung(i)
    ensures Parse(TERNARY, [u] + Tokens(x) + [s] + Tokens(y) + rest)
            == if i < 2 then (Some(Meaning(s, UnaryOp(Not, Tree(x)), Tree(y))), rest)
               else (Some(UnaryOp(Not, Meaning(s, Tree(x), Tree(y)))), rest)
  {
    hide LevelOf, OperatorOf, Joined, Parse, Legal, LevelOfWriting, Tree, Operand, Tokens, PrefixOf, Rung, Meaning,
         Signed, Over;
    RungsAreLevels(i, s);
    OverHasNoLevel(rest);
    OperandFits(x);
    OperandFits(y);
    Negates(u);
    if i < 2 {
      PrefixFits(NOT, u, x);
      InfixFits(Prefix(u, x), s, y);
      var w := Infix(Prefix(u, x), s, y);
      assert Tokens(w) + rest == [u] + Tokens(x) + [s] + Tokens(y) + rest;
      ReadsAt(w, TERNARY, rest);
    } else {
      InfixFits(x, s, y);
      PrefixFits(NOT, u, Infix(x, s, y));
      var w := Prefix(u, Infix(x, s, y));
      assert Tokens(w) + rest == [u] + Tokens(x) + [s] + Tokens(y) + rest;
      ReadsAt(w, TERNARY, rest);
    }
  }

  lemma Negates(u: Token)
    requires u == Bang || u == KwNot
    ensures PrefixOf(NOT, u) == Some(Not)
  {
  }

  // A sign takes the operand alone, on either side of any operator.
  lemma SignInFront(u: Token, x: Writing, s: Token, v: Token, y: Writing, i: nat, rest: seq<Token>)
    requires u in {Minus, Plus, Tilde} && v in {Minus, Plus, Tilde}
    requires Operand(x) && Operand(y) && Over(rest) && i < RUNGS && s in Rung(i)
    ensures Parse(TERNARY, [u] + Tokens(x) + [s] + [v] + Tokens(y) + rest)
            == (Some(Meaning(s, Signed(u, Tree(x)), Signed(v, Tree(y)))), rest)
  {
    hide LevelOf, OperatorOf, Joined, Parse, Legal, LevelOfWriting, Tree, Operand, Tokens, PrefixOf, Rung, Meaning,
         Signed, Over;
    RungsAreLevels(i, s);
    OverHasNoLevel(rest);
    SignedOperand(u, x);
    SignedOperand(v, y);
    InfixFits(Prefix(u, x), s, Prefix(v, y));
    var w := Infix(Prefix(u, x), s, Prefix(v, y));
    assert Tokens(w) + rest == [u] + Tokens(x) + [s] + [v] + Tokens(y) + rest;
    ReadsAt(w, TERNARY, rest);
  }

  lemma SignedOperand(u: Token, x: Writing)
    requires u in {Minus, Plus, Tilde} && Operand(x)
    ensures Legal(Prefix(u, x)) && Tree(Prefix(u, x)) == Signed(u, Tree(x)) && LevelOfWriting(Prefix(u, x)) == UNARY
    ensures Tokens(Prefix(u, x)) == [u] + Tokens(x)
  {
    hide LevelOf, Tree, Legal, LevelOfWriting, Tokens;
    OperandFits(x);
    PrefixFits(UNARY, u, x);
  }

  // A negation on the right is read after and and or, and nowhere else.
  lemma NegationOnTheRight(x: Writing, s: Token, u: Token, y: Writing, i: nat, rest: seq<Token>)
    requires u == Bang || u == KwNot
    requires Operand(x) && Operand(y) && Over(rest) && i < RUNGS && s in Rung(i)
    ensures i < 2 ==> Parse(TERNARY, Tokens(x) + [s] + [u] + Tokens(y) + rest)
                      == (Some(Meaning(s, Tree(x), UnaryOp(Not, Tree(y)))), rest)
    ensures i >= 2 ==> Parse(TERNARY, Tokens(x) + [s] + [u] + Tokens(y) + rest).0.None?
  {
    hide LevelOf, OperatorOf, Joined, Parse, Legal, LevelOfWriting, Tree, Operand, Tokens, PrefixOf, Rung, Meaning,
         Signed, Over;
    RungsAreLevels(i, s);
    OverHasNoLevel(rest);
    OperandFits(x);
    OperandFits(y);
    Negates(u);
    if i < 2 {
      PrefixFits(NOT, u, y);
      InfixFits(x, s, Prefix(u, y));
      var w := Infix(x, s, Prefix(u, y));
      assert Tokens(w) + rest == Tokens(x) + [s] + [u] + Tokens(y) + rest;
      ReadsAt(w, TERNARY, rest);
    } else {
      assert Tokens(x) + [s] + [u] + Tokens(y) + rest == Tokens(x) + ([s] + ([u] + (Tokens(y) + rest)));
      NegationFails(x, s, [u] + (Tokens(y) + rest));
    }
  }

  lemma NegationFails(x: Writing, s: Token, ts: seq<Token>)
    requires Operand(x) && LevelOf(s) > NOT && Input(ts) && (ts[0] == Bang || ts[0] == KwNot)
    ensures Input(Tokens(x) + ([s] + ts)) && Parse(TERNARY, Tokens(x) + ([s] + ts)).0.None?
  {
    hide LevelOf, OperatorOf, PrefixOf, Joined, ParseTernary, ParsePrimary, Tokens;
    NoPrefixAtInfixLevel(s);
    var level: Level := LevelOf(s);
    var tail := [s] + ts;
    assert tail[1..] == ts;
    ReadsAt(x, level + 1, tail);
    NothingBegins(RightLevel(level), ts);
    OperandBeginsPlain(x, tail);
    Fails(TERNARY, level, Tokens(x) + tail);
  }

  // Above the level of negations, nothing begins with one.
  lemma {:induction false} NothingBegins(level: Level, ts: seq<Token>)
    requires Input(ts) && (ts[0] == Bang || ts[0] == KwNot) && level > NOT
    ensures Parse(level, ts).0.None?
    decreases PRIMARY - level
  {
    if level < PRIMARY {
      NothingBegins(level + 1, ts);
    }
  }

  // Where a tighter level fails, the looser ones fail.
  lemma {:induction false} Fails(level: Level, k: Level, ts: seq<Token>)
    requires level <= k && Input(ts) && Parse(k, ts).0.None?
    requires forall j: Level :: level <= j < k ==> PrefixOf(j, ts[0]).None?
    ensures Parse(level, ts).0.None?
    decreases k - level
  {
    if level < k {
      Fails(level + 1, k, ts);
    }
  }

  // ---------------------------------------------------------------- the ternary operator

  // The condition takes every binary operation to its left, and each arm is a whole expression.
  lemma TernaryLast(x: Writing, s: Token, y: Writing, i: nat, yes: Writing, no: Writing, rest: seq<Token>)
    requires Operand(x) && Operand(y) && Legal(yes) && Legal(no) && Over(rest) && i < RUNGS && s in Rung(i)
    ensures Parse(TERNARY, Tokens(x) + [s] + Tokens(y) + [Question] + Tokens(yes) + [Colon] + Tokens(no) + rest)
            == (Some(Ternary(Meaning(s, Tree(x), Tree(y)), Tree(yes), Tree(no))), rest)
  {
    hide LevelOf, OperatorOf, Joined, Parse, Legal, LevelOfWriting, Tree, Operand, Tokens, PrefixOf, Rung, Meaning,
         Signed, Over;
    OneOperator(x, s, y, i);
    OverHasNoLevel(rest);
    ConditionalReads(Infix(x, s, y), yes, no, rest);
  }

  lemma OneOperator(x: Writing, s: Token, y: Writing, i: nat)
    requires Operand(x) && Operand(y) && i < RUNGS && s in Rung(i)
    ensures var w := Infix(x, s, y);
            && Legal(w) && LevelOfWriting(w) >= 1 && Tree(w) == Meaning(s, Tree(x), Tree(y))
            && Tokens(w) == Tokens(x) + [s] + Tokens(y)
  {
    hide LevelOf, OperatorOf, Joined, Legal, LevelOfWriting, Tree, Operand, Tokens, PrefixOf, Rung, Meaning;
    RungsAreLevels(i, s);
    OperandFits(x);
    OperandFits(y);
    InfixFits(x, s, y);
  }

  lemma ConditionalReads(c: Writing, yes: Writing, no: Writing, rest: seq<Token>)
    requires Legal(c) && Legal(yes) && Legal(no) && LevelOfWriting(c) >= 1 && Input(rest) && LevelOf(rest[0]) < 0
    ensures Parse(TERNARY, Tokens(c) + [Question] + Tokens(yes) + [Colon] + Tokens(no) + rest)
            == (Some(Ternary(Tree(c), Tree(yes), Tree(no))), rest)
  {
    hide LevelOf, Parse, Legal, LevelOfWriting, Tree, Tokens;
    ConditionalFits(c, yes, no);
    ReadsAt(Conditional(c, yes, no), TERNARY, rest);
  }

  lemma ConditionalFits(c: Writing, yes: Writing, no: Writing)
    requires Legal(c) && Legal(yes) && Legal(no) && LevelOfWriting(c) >= 1
    ensures var w := Conditional(c, yes, no);
            && Legal(w) && LevelOfWriting(w) == TERNARY && Tree(w) == Ternary(Tree(c), Tree(yes), Tree(no))
            && Tokens(w) == Tokens(c) + [Question] + Tokens(yes) + [Colon] + Tokens(no)
  {
    hide LevelOf;
  }
}
