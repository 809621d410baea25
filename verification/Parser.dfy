/** The parser's precedence tower, and that it recognizes the grammar exactly. */
module Parser {
  import opened Options
  import opened Syntax

  /** What is left to read: it ends with the end-of-file token, which no expression consumes. */
  predicate Input(ts: seq<Token>) {
    ts != [] && ts[|ts| - 1] == Eof
  }

  type Parsed = (Option<Expr>, seq<Token>)

  /** The result, and what is left; on a syntax error as well. */
  ghost predicate Progress(ts: seq<Token>, r: Parsed) {
    Input(r.1) && |r.1| <= |ts| && (r.0.Some? ==> |r.1| < |ts|)
  }

  /** One level of the tower. */
  function Parse(level: Level, ts: seq<Token>): (r: Parsed)
    requires Input(ts)
    ensures Progress(ts, r)
    decreases |ts|, PRIMARY - level, 1
  {
    if level == TERNARY then ParseTernary(ts)
    else if level == PRIMARY then ParsePrimary(ts)
    else if PrefixOf(level, ts[0]).Some? then
      var (x, t1) := Parse(level, ts[1..]);
      (match x case None => (None, t1) case Some(e) => (Some(UnaryOp(PrefixOf(level, ts[0]).value, e)), t1))
    else
      match Parse(level + 1, ts)
      case (None, t1) => (None, t1)
      case (Some(left), t1) =>
        if level == RANGE || level == POWER then ParseOnce(level, left, t1) else ParseLoop(level, left, t1)
  }

  /** cond ? yes : no, where both arms are whole expressions. */
  function ParseTernary(ts: seq<Token>): (r: Parsed)
    requires Input(ts)
    ensures Progress(ts, r)
    decreases |ts|, PRIMARY - TERNARY, 0
  {
    match Parse(TERNARY + 1, ts)
    case (None, t1) => (None, t1)
    case (Some(cond), t1) =>
      if t1[0] != Question then (Some(cond), t1)
      else match Parse(TERNARY, t1[1..])
        case (None, t2) => (None, t2)
        case (Some(yes), t2) =>
          if t2[0] != Colon then (None, t2)
          else match Parse(TERNARY, t2[1..])
            case (None, t3) => (None, t3)
            case (Some(no), t3) => (Some(Ternary(cond, yes, no)), t3)
  }

  function LeafOf(t: Token): Expr
    requires t.Integer? || t.InstanceVar?
  {
    if t.Integer? then IntegerLit(t.value) else InstanceVarExpr(t.name)
  }

  function ParsePrimary(ts: seq<Token>): (r: Parsed)
    requires Input(ts)
    ensures Progress(ts, r)
    decreases |ts|, 0, 0
  {
    if ts[0] == LParen then
      match Parse(TERNARY, ts[1..])
      case (None, t1) => (None, t1)
      case (Some(e), t1) => if t1[0] == RParen then (Some(e), t1[1..]) else (None, t1)
    else if ts[0].Integer? || ts[0].InstanceVar? then (Some(LeafOf(ts[0])), ts[1..])
    else (None, ts)
  }

  /** At most one range; the power operator takes the rest of its own level. */
  function ParseOnce(level: Level, left: Expr, ts: seq<Token>): (r: Parsed)
    requires Input(ts) && (level == RANGE || level == POWER)
    ensures Input(r.1) && |r.1| <= |ts|
    decreases |ts|, 0, 0
  {
    if LevelOf(ts[0]) != level then (Some(left), ts)
    else match Parse(RightLevel(level), ts[1..])
      case (None, t1) => (None, t1)
      case (Some(right), t1) => (Some(Joined(ts[0], left, right)), t1)
  }

  /** Operators of one level, one after the other, to the left. */
  function ParseLoop(level: Level, left: Expr, ts: seq<Token>): (r: Parsed)
    requires Input(ts) && TERNARY < level < PRIMARY && level != RANGE && level != POWER
    ensures Input(r.1) && |r.1| <= |ts|
    decreases |ts|, 0, 0
  {
    if LevelOf(ts[0]) != level then (Some(left), ts)
    else match Parse(level + 1, ts[1..])
      case (None, t1) => (None, t1)
      case (Some(right), t1) => ParseLoop(level, Joined(ts[0], left, right), t1)
  }

  // ---------------------------------------------------------------- what is written is read

  // What a tighter level reads, a looser level reads too, if the next token does not continue it.
  lemma {:induction false} Descend(level: Level, k: Level, ts: seq<Token>, e: Expr, rest: seq<Token>)
    requires level <= k && Input(ts) && Parse(k, ts) == (Some(e), rest) && LevelOf(rest[0]) < level
    requires forall j: Level :: level <= j < k ==> PrefixOf(j, ts[0]).None?
    ensures Parse(level, ts) == (Some(e), rest)
    decreases k - level
  {
    if level < k {
      Descend(level + 1, k, ts, e, rest);
    }
  }

  // A writing above a level does not begin with a prefix operator of that level.
  lemma {:induction false} NoPrefix(w: Writing, j: Level)
    requires Legal(w) && j < LevelOfWriting(w)
    ensures PrefixOf(j, Tokens(w)[0]).None?
  {
    if w.Infix? {
      NoPrefix(w.left, j);
    }
  }

  lemma {:induction false} ReadsAt(w: Writing, level: Level, rest: seq<Token>)
    requires Legal(w) && Input(rest) && level <= LevelOfWriting(w) && LevelOf(rest[0]) < level
    ensures Input(Tokens(w) + rest) && Parse(level, Tokens(w) + rest) == (Some(Tree(w)), rest)
    decreases w, 2
  {
    Reads(w, rest);
    forall j: Level | level <= j < LevelOfWriting(w)
      ensures PrefixOf(j, (Tokens(w) + rest)[0]).None?
    {
      NoPrefix(w, j);
    }
    Descend(level, LevelOfWriting(w), Tokens(w) + rest, Tree(w), rest);
  }

  lemma {:induction false} Reads(w: Writing, rest: seq<Token>)
    requires Legal(w) && Input(rest) && LevelOf(rest[0]) < LevelOfWriting(w)
    ensures Input(Tokens(w) + rest) && Parse(LevelOfWriting(w), Tokens(w) + rest) == (Some(Tree(w)), rest)
    decreases w, 1
  {
    match w
    case Leaf(_) =>
    case Paren(inner) =>
      assert Tokens(w) + rest == [LParen] + (Tokens(inner) + ([RParen] + rest));
      ReadsAt(inner, TERNARY, [RParen] + rest);
    case Prefix(_, _) => ReadsPrefix(w, rest);
    case Infix(_, t, _) =>
      if LevelOf(t) == RANGE || LevelOf(t) == POWER {
        ReadsOnce(w, rest);
      } else {
        ReadsInto(w, rest);
      }
    case Conditional(_, _, _) => ReadsTernary(w, rest);
  }

  lemma {:induction false} ReadsPrefix(w: Writing, rest: seq<Token>)
    requires w.Prefix? && Legal(w) && Input(rest) && LevelOf(rest[0]) < LevelOfWriting(w)
    ensures Input(Tokens(w) + rest) && Parse(LevelOfWriting(w), Tokens(w) + rest) == (Some(Tree(w)), rest)
    decreases w, 0
  {
    hide LevelOf, OperatorOf, Joined, ParseLoop, ParseOnce;
    assert Tokens(w) + rest == [w.tok] + (Tokens(w.operand) + rest);
    ReadsAt(w.operand, LevelOfWriting(w), rest);
  }

  lemma {:induction false} ReadsTernary(w: Writing, rest: seq<Token>)
    requires w.Conditional? && Legal(w) && Input(rest) && LevelOf(rest[0]) < TERNARY
    ensures Input(Tokens(w) + rest) && Parse(TERNARY, Tokens(w) + rest) == (Some(Tree(w)), rest)
    decreases w, 0
  {
    hide OperatorOf, PrefixOf, Joined, ParseLoop, ParseOnce, ParsePrimary;
    var t3 := [Colon] + (Tokens(w.no) + rest);
    var t1 := [Question] + (Tokens(w.yes) + t3);
    assert Tokens(w) + rest == Tokens(w.cond) + t1;
    ReadsAt(w.no, TERNARY, rest);
    ReadsAt(w.yes, TERNARY, t3);
    ReadsAt(w.cond, 1, t1);
  }

  lemma InfixTokens(w: Writing, rest: seq<Token>)
    requires w.Infix?
    ensures Tokens(w) + rest == Tokens(w.left) + ([w.tok] + (Tokens(w.right) + rest))
  {
  }

  // No level has both prefix and infix operators.
  lemma NoPrefixAtInfixLevel(t: Token)
    ensures LevelOf(t) <= POWER && LevelOf(t) != NOT
    ensures LevelOf(t) >= 1 ==> forall x :: PrefixOf(LevelOf(t), x).None?
  {
  }

  lemma {:induction false} ReadsOnce(w: Writing, rest: seq<Token>)
    requires w.Infix? && Legal(w) && Input(rest) && (LevelOf(w.tok) == RANGE || LevelOf(w.tok) == POWER)
    requires LevelOf(rest[0]) < LevelOf(w.tok)
    ensures Input(Tokens(w) + rest) && Parse(LevelOf(w.tok), Tokens(w) + rest) == (Some(Tree(w)), rest)
    decreases w, 0
  {
    hide LevelOf, OperatorOf, PrefixOf, Joined, ParseLoop, ParseTernary, ParsePrimary, Tokens;
    NoPrefixAtInfixLevel(w.tok);
    var level: Level := LevelOf(w.tok);
    var tail := [w.tok] + (Tokens(w.right) + rest);
    InfixTokens(w, rest);
    ReadsAt(w.right, RightLevel(level), rest);
    ReadsAt(w.left, level + 1, tail);
    assert ParseOnce(level, Tree(w.left), tail) == (Some(Tree(w)), rest) by {
      assert tail[1..] == Tokens(w.right) + rest;
    }
  }

  // After an operation at a level that associates to the left, the loop goes on with the whole of it.
  lemma {:induction false} ReadsInto(w: Writing, rest: seq<Token>)
    requires w.Infix? && Legal(w) && Input(rest) && LevelOf(w.tok) != RANGE && LevelOf(w.tok) != POWER
    requires LevelOf(rest[0]) <= LevelOf(w.tok)
    ensures Input(Tokens(w) + rest)
    ensures Parse(LevelOf(w.tok), Tokens(w) + rest) == ParseLoop(LevelOf(w.tok), Tree(w), rest)
    decreases w, 0
  {
    hide LevelOf, OperatorOf, PrefixOf, Joined, ParseLoop, ParseOnce, ParseTernary, ParsePrimary, Parse,
         LevelOfWriting, Tokens;
    NoPrefixAtInfixLevel(w.tok);
    var level: Level := LevelOf(w.tok);
    var tail := [w.tok] + (Tokens(w.right) + rest);
    InfixTokens(w, rest);
    ReadsAt(w.right, level + 1, rest);
    if LevelOfWriting(w.left) == level {
      InfixAtItsLevel(w.left);
      ReadsInto(w.left, tail);
    } else {
      ReadsAt(w.left, level + 1, tail);
      EntersLoop(level, Tokens(w.left) + tail, w.tok, Tree(w.left), tail);
    }
    LoopTakesOne(level, Tree(w.left), w.tok, Tokens(w.right) + rest, Tree(w.right), rest);
  }

  lemma InfixAtItsLevel(w: Writing)
    requires Legal(w) && 1 <= LevelOfWriting(w) <= POWER && LevelOfWriting(w) != NOT
    ensures w.Infix? && LevelOf(w.tok) == LevelOfWriting(w)
  {
  }

  lemma EntersLoop(level: Level, ts: seq<Token>, t: Token, left: Expr, tail: seq<Token>)
    requires LevelOf(t) == level >= 1 && level != RANGE && level != POWER && Input(ts)
    requires Parse(level + 1, ts) == (Some(left), tail)
    ensures Parse(level, ts) == ParseLoop(level, left, tail)
  {
    hide LevelOf, OperatorOf, PrefixOf, ParseLoop, ParseOnce, ParseTernary, ParsePrimary;
    NoPrefixAtInfixLevel(t);
  }

  lemma LoopTakesOne(level: Level, left: Expr, t: Token, ts: seq<Token>, right: Expr, rest: seq<Token>)
    requires LevelOf(t) == level >= 1 && level != RANGE && level != POWER && Input(ts)
    requires Parse(level + 1, ts) == (Some(right), rest)
    ensures ParseLoop(level, left, [t] + ts) == ParseLoop(level, Joined(t, left, right), rest)
  {
    hide OperatorOf, PrefixOf, Joined, Parse;
    NoPrefixAtInfixLevel(t);
    assert ([t] + ts)[1..] == ts;
  }

  // ---------------------------------------------------------------- what is read is written

  lemma PrefixIsLegal(level: Level, t: Token, x: Writing)
    requires PrefixOf(level, t).Some? && Legal(x) && LevelOfWriting(x) >= level
    ensures var w := Prefix(t, x);
            Legal(w) && LevelOfWriting(w) == level && Tree(w) == UnaryOp(PrefixOf(level, t).value, Tree(x))
  {
    hide LevelOf;
  }

  lemma InfixIsLegal(level: Level, left: Writing, t: Token, right: Writing)
    requires LevelOf(t) == level >= 1 && Legal(left) && Legal(right)
    requires LevelOfWriting(left) >= LeftLevel(level) && LevelOfWriting(right) >= RightLevel(level)
    ensures var w := Infix(left, t, right);
            Legal(w) && LevelOfWriting(w) == level && Tree(w) == Joined(t, Tree(left), Tree(right))
  {
    hide LevelOf, Joined;
  }

  lemma {:induction false} Recognizes(level: Level, ts: seq<Token>) returns (w: Writing)
    requires Input(ts) && Parse(level, ts).0.Some?
    ensures Legal(w) && LevelOfWriting(w) >= level
    ensures Tree(w) == Parse(level, ts).0.value && ts == Tokens(w) + Parse(level, ts).1
    decreases |ts|, PRIMARY - level, 1
  {
    hide LevelOf, OperatorOf, PrefixOf, Joined, Legal, LevelOfWriting, ParseTernary, ParsePrimary, ParseLoop, ParseOnce;
    if level == TERNARY {
      w := RecognizesTernary(ts);
    } else if level == PRIMARY {
      w := RecognizesPrimary(ts);
    } else if PrefixOf(level, ts[0]).Some? {
      var x := Recognizes(level, ts[1..]);
      w := Prefix(ts[0], x);
      PrefixIsLegal(level, ts[0], x);
      assert ts == [ts[0]] + ts[1..];
    } else {
      var left := Recognizes(level + 1, ts);
      var t1 := Parse(level + 1, ts).1;
      if level == RANGE || level == POWER {
        w := RecognizesOnce(level, left, t1);
      } else {
        w := RecognizesLoop(level, left, t1);
      }
    }
  }

  lemma {:induction false} RecognizesOnce(level: Level, left: Writing, ts: seq<Token>) returns (w: Writing)
    requires Input(ts) && (level == RANGE || level == POWER)
    requires Legal(left) && LevelOfWriting(left) >= level + 1 && ParseOnce(level, Tree(left), ts).0.Some?
    ensures Legal(w) && LevelOfWriting(w) >= level
    ensures Tree(w) == ParseOnce(level, Tree(left), ts).0.value
    ensures Tokens(left) + ts == Tokens(w) + ParseOnce(level, Tree(left), ts).1
    decreases |ts|, 0, 0
  {
    hide LevelOf, OperatorOf, PrefixOf, Joined, Legal, LevelOfWriting, Parse, Tokens;
    w := left;
    if LevelOf(ts[0]) == level {
      var right := Recognizes(RightLevel(level), ts[1..]);
      w := Infix(left, ts[0], right);
      InfixIsLegal(level, left, ts[0], right);
      InfixTokens(w, Parse(RightLevel(level), ts[1..]).1);
      assert ts == [ts[0]] + ts[1..];
    }
  }

  lemma {:induction false} RecognizesLoop(level: Level, left: Writing, ts: seq<Token>) returns (w: Writing)
    requires Input(ts) && TERNARY < level < PRIMARY && level != RANGE && level != POWER
    requires Legal(left) && LevelOfWriting(left) >= level && ParseLoop(level, Tree(left), ts).0.Some?
    ensures Legal(w) && LevelOfWriting(w) >= level
    ensures Tree(w) == ParseLoop(level, Tree(left), ts).0.value
    ensures Tokens(left) + ts == Tokens(w) + ParseLoop(level, Tree(left), ts).1
    decreases |ts|, 0, 0
  {
    hide LevelOf, OperatorOf, PrefixOf, Joined, Legal, LevelOfWriting, Parse, Tokens;
    w := left;
    if LevelOf(ts[0]) == level {
      var right := Recognizes(level + 1, ts[1..]);
      var more := Infix(left, ts[0], right);
      InfixIsLegal(level, left, ts[0], right);
      InfixTokens(more, Parse(level + 1, ts[1..]).1);
      w := RecognizesLoop(level, more, Parse(level + 1, ts[1..]).1);
      assert ts == [ts[0]] + ts[1..];
    }
  }

  lemma {:induction false} RecognizesTernary(ts: seq<Token>) returns (w: Writing)
    requires Input(ts) && ParseTernary(ts).0.Some?
    ensures Legal(w) && Tree(w) == ParseTernary(ts).0.value && ts == Tokens(w) + ParseTernary(ts).1
    decreases |ts|, PRIMARY - TERNARY, 0
  {
    hide LevelOf, OperatorOf, PrefixOf, Joined, LevelOfWriting, Parse;
    var cond := Recognizes(1, ts);
    var t1 := Parse(1, ts).1;
    w := cond;
    if t1[0] == Question {
      var yes := Recognizes(TERNARY, t1[1..]);
      var t2 := Parse(TERNARY, t1[1..]).1;
      var no := Recognizes(TERNARY, t2[1..]);
      w := Conditional(cond, yes, no);
      assert t1 == [Question] + t1[1..] && t2 == [Colon] + t2[1..];
      ThreeParts(ts, Tokens(cond), Tokens(yes), Tokens(no), t1, t2, Parse(TERNARY, t2[1..]).1);
    }
  }

  lemma ThreeParts(ts: seq<Token>, c: seq<Token>, y: seq<Token>, n: seq<Token>, t1: seq<Token>, t2: seq<Token>,
                   t3: seq<Token>)
    requires ts == c + t1 && t1 == [Question] + (y + t2) && t2 == [Colon] + (n + t3)
    ensures ts == c + [Question] + y + [Colon] + n + t3
  {
  }

  lemma {:induction false} RecognizesPrimary(ts: seq<Token>) returns (w: Writing)
    requires Input(ts) && ParsePrimary(ts).0.Some?
    ensures Legal(w) && LevelOfWriting(w) == PRIMARY
    ensures Tree(w) == ParsePrimary(ts).0.value && ts == Tokens(w) + ParsePrimary(ts).1
    decreases |ts|, 0, 0
  {
    assert ts == [ts[0]] + ts[1..];
    if ts[0] == LParen {
      var inner := Recognizes(TERNARY, ts[1..]);
      var t1 := Parse(TERNARY, ts[1..]).1;
      w := Paren(inner);
      assert t1 == [RParen] + t1[1..];
    } else {
      w := Leaf(ts[0]);
    }
  }

  // ---------------------------------------------------------------- the main results

  // Up to a token that continues no expression, the parser returns a tree exactly if the tokens are
  // one of the legal writings of that tree.
  lemma ParsesExactly(ts: seq<Token>, e: Expr, rest: seq<Token>)
    requires Input(ts) && Input(rest) && LevelOf(rest[0]) < 0
    ensures Parse(TERNARY, ts) == (Some(e), rest) <==> exists w :: Legal(w) && Tree(w) == e && ts == Tokens(w) + rest
  {
    if Parse(TERNARY, ts) == (Some(e), rest) {
      var w := Recognizes(TERNARY, ts);
    }
    if w :| Legal(w) && Tree(w) == e && ts == Tokens(w) + rest {
      ReadsAt(w, TERNARY, rest);
    }
  }

  // The grammar is unambiguous.
  lemma SameTokensSameTree(v: Writing, w: Writing)
    requires Legal(v) && Legal(w) && Tokens(v) == Tokens(w)
    ensures Tree(v) == Tree(w)
  {
    ReadsAt(v, TERNARY, [Eof]);
    ReadsAt(w, TERNARY, [Eof]);
  }

  // Printing with no parentheses but those the levels demand, and parsing, gives the tree back and
  // consumes exactly what was printed.
  lemma PrintParse(e: Expr, rest: seq<Token>)
    requires Input(rest) && LevelOf(rest[0]) < 0
    ensures Input(Tokens(Write(e)) + rest) && Parse(TERNARY, Tokens(Write(e)) + rest) == (Some(e), rest)
  {
    WriteIsLegal(e);
    ReadsAt(Write(e), TERNARY, rest);
  }

  // ---------------------------------------------------------------- the parser, with its position

  class TokenParser {
    const tokens: seq<Token>
    var pos: nat
    var diagnostics: nat

    ghost predicate Valid()
      reads this
    {
      pos < |tokens| && tokens[|tokens| - 1] == Eof
    }

    function Left(): (ts: seq<Token>)
      requires Valid()
      reads this
      ensures Input(ts)
    {
      tokens[pos..]
    }

    constructor (tokens: seq<Token>)
      requires Input(tokens)
      ensures Valid() && Left() == tokens && diagnostics == 0
    {
      this.tokens, pos, diagnostics := tokens, 0, 0;
    }

    method Advance()
      requires Valid() && tokens[pos] != Eof
      modifies this`pos
      ensures Valid() && Left() == old(Left())[1..] && pos == old(pos) + 1
    {
      pos := pos + 1;
    }

    method Expect(t: Token) returns (ok: bool)
      requires Valid() && t != Eof
      modifies this
      ensures Valid() && ok == (old(Left())[0] == t)
      ensures Left() == (if ok then old(Left())[1..] else old(Left()))
      ensures diagnostics == old(diagnostics) + if ok then 0 else 1
    {
      ok := tokens[pos] == t;
      if ok {
        Advance();
      } else {
        diagnostics := diagnostics + 1;
      }
    }

    // Each level computes the specification, and reports one diagnostic exactly if it fails.
    method ParseLevel(level: Level) returns (r: Option<Expr>)
      requires Valid()
      modifies this
      ensures Valid() && (r, Left()) == Parse(level, old(Left()))
      ensures diagnostics == old(diagnostics) + if r.Some? then 0 else 1
      decreases |tokens| - pos, PRIMARY - level, 1
    {
      hide LevelOf, OperatorOf, PrefixOf, Joined, Syntax.LevelOfWriting;
      if level == TERNARY {
        r := ParseTernaryExpr();
      } else if level == PRIMARY {
        r := ParsePrimaryExpr();
      } else if PrefixOf(level, tokens[pos]).Some? {
        var op := PrefixOf(level, tokens[pos]).value;
        PrefixIsNoEnd(level);
        Advance();
        var x := ParseLevel(level);
        r := if x.Some? then Some(UnaryOp(op, x.value)) else None;
      } else {
        r := ParseLevel(level + 1);
        if r.Some? {
          if level == RANGE || level == POWER {
            r := ParseRangeOrPower(level, r.value);
          } else {
            r := ParseOperators(level, r.value);
          }
        }
      }
    }

    method ParseOperators(level: Level, first: Expr) returns (r: Option<Expr>)
      requires Valid() && TERNARY < level < PRIMARY && level != RANGE && level != POWER
      modifies this
      ensures Valid() && (r, Left()) == ParseLoop(level, first, old(Left()))
      ensures diagnostics == old(diagnostics) + if r.Some? then 0 else 1
      decreases |tokens| - pos, 0, 0
    {
      hide LevelOf, OperatorOf, PrefixOf, Joined, Parse;
      var left := first;
      EofHasNoLevel();
      while LevelOf(tokens[pos]) == level
        invariant Valid() && old(pos) <= pos && diagnostics == old(diagnostics)
        invariant ParseLoop(level, left, Left()) == ParseLoop(level, first, old(Left()))
        decreases |tokens| - pos
      {
        var t := tokens[pos];
        Advance();
        var right := ParseLevel(level + 1);
        if right.None? {
          return None;
        }
        left := Joined(t, left, right.value);
      }
      return Some(left);
    }

    method ParseRangeOrPower(level: Level, left: Expr) returns (r: Option<Expr>)
      requires Valid() && (level == RANGE || level == POWER)
      modifies this
      ensures Valid() && (r, Left()) == ParseOnce(level, left, old(Left()))
      ensures diagnostics == old(diagnostics) + if r.Some? then 0 else 1
      decreases |tokens| - pos, 0, 0
    {
      hide LevelOf, OperatorOf, PrefixOf, Joined, Parse;
      EofHasNoLevel();
      r := Some(left);
      if LevelOf(tokens[pos]) == level {
        var t := tokens[pos];
        Advance();
        var right := ParseLevel(RightLevel(level));
        r := if right.Some? then Some(Joined(t, left, right.value)) else None;
      }
    }

    method ParseTernaryExpr() returns (r: Option<Expr>)
      requires Valid()
      modifies this
      ensures Valid() && (r, Left()) == ParseTernary(old(Left()))
      ensures diagnostics == old(diagnostics) + if r.Some? then 0 else 1
      decreases |tokens| - pos, PRIMARY - TERNARY, 0
    {
      hide LevelOf, OperatorOf, PrefixOf, Joined, Parse;
      r := ParseLevel(TERNARY + 1);
      if r.Some? && tokens[pos] == Question {
        Advance();
        var yes := ParseLevel(TERNARY);
        if yes.None? {
          return None;
        }
        var ok := Expect(Colon);
        if !ok {
          return None;
        }
        var no := ParseLevel(TERNARY);
        r := if no.Some? then Some(Ternary(r.value, yes.value, no.value)) else None;
      }
    }

    method ParsePrimaryExpr() returns (r: Option<Expr>)
      requires Valid()
      modifies this
      ensures Valid() && (r, Left()) == ParsePrimary(old(Left()))
      ensures diagnostics == old(diagnostics) + if r.Some? then 0 else 1
      decreases |tokens| - pos, 0, 0, 1
    {
      hide LevelOf, OperatorOf, PrefixOf, Joined, Parse, ParseTernary, ParseLoop, ParseOnce, ParsePrimary;
      ghost var ts := Left();
      assert ts[0] == tokens[pos];
      if tokens[pos] == LParen {
        r := ParseParenthesized();
      } else if tokens[pos].Integer? || tokens[pos].InstanceVar? {
        r := Some(LeafOf(tokens[pos]));
        Advance();
      } else {
        diagnostics := diagnostics + 1;
        r := None;
      }
      if ts[0] != LParen {
        LeavesOfPrimary(ts);
      }
    }

    method ParseParenthesized() returns (r: Option<Expr>)
      requires Valid() && tokens[pos] == LParen
      modifies this
      ensures Valid() && (r, Left()) == ParsePrimary(old(Left()))
      ensures diagnostics == old(diagnostics) + if r.Some? then 0 else 1
      decreases |tokens| - pos, 0, 0, 0
    {
      hide LevelOf, OperatorOf, PrefixOf, Joined, Parse, ParseTernary, ParseLoop, ParseOnce;
      Advance();
      r := ParseLevel(TERNARY);
      if r.Some? {
        var ok := Expect(RParen);
        r := if ok then r else None;
      }
    }
  }

  lemma LeavesOfPrimary(ts: seq<Token>)
    requires Input(ts) && ts[0] != LParen
    ensures ParsePrimary(ts)
            == if ts[0].Integer? || ts[0].InstanceVar? then (Some(LeafOf(ts[0])), ts[1..]) else (None, ts)
  {
  }

  lemma EofHasNoLevel()
    ensures LevelOf(Eof) < 0
  {
  }

  lemma PrefixIsNoEnd(level: Level)
    ensures PrefixOf(level, Eof).None?
  {
  }
}
