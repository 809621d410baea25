/**
  The operator expressions of the language: tokens, trees, and the grammar between them. Levels run
  from the ternary operator, which binds least, to the leaves.
 */
module Syntax {
  import opened Options

  datatype Token =
    | Integer(value: nat) | InstanceVar(name: string)
    | LParen | RParen | Question | Colon
    | PipePipe | KwOr | AmpAmp | KwAnd | Bang | KwNot
    | EqualEqual | BangEqual | Less | Greater | LessEqual | GreaterEqual | Spaceship | TripleEqual | Match | NotMatch
    | DotDot | DotDotDot
    | Pipe | Caret | Amp | LessLess | GreaterGreater | Plus | Minus | Star | Slash | Percent | DoubleStar | Tilde
    | Newline | Eof

  datatype BinOperator =
    | Or | And | Eq | NotEq | Lt | Gt | LtEq | GtEq | Cmp | CaseEq | Matches | NotMatches
    | BitOr | BitXor | BitAnd | Shl | Shr | Add | Sub | Mul | Div | Mod | Pow

  datatype UnOperator = Not | Neg | Pos | BitNot

  datatype Expr =
    | IntegerLit(value: nat)
    | InstanceVarExpr(name: string)
    | BinaryOp(op: BinOperator, left: Expr, right: Expr)
    | UnaryOp(uop: UnOperator, operand: Expr)
    | RangeLit(start: Expr, end: Expr, exclusive: bool)
    | Ternary(condition: Expr, thenExpr: Expr, elseExpr: Expr)

  type Level = l: nat | l <= 14

  const TERNARY: Level := 0
  const NOT: Level := 3
  const RANGE: Level := 5
  const POWER: Level := 12
  const UNARY: Level := 13
  const PRIMARY: Level := 14

  /** The level at which a token goes on with an expression; -1 if it never does. */
  function LevelOf(t: Token): int {
    match t
    case Question => 0
    case PipePipe => 1 case KwOr => 1
    case AmpAmp => 2 case KwAnd => 2
    case EqualEqual => 4 case BangEqual => 4 case Less => 4 case Greater => 4 case LessEqual => 4
    case GreaterEqual => 4 case Spaceship => 4 case TripleEqual => 4 case Match => 4 case NotMatch => 4
    case DotDot => 5 case DotDotDot => 5
    case Pipe => 6
    case Caret => 7
    case Amp => 8
    case LessLess => 9 case GreaterGreater => 9
    case Plus => 10 case Minus => 10
    case Star => 11 case Slash => 11 case Percent => 11
    case DoubleStar => 12
    case _ => -1
  }

  /** The binary operator a token stands for, ranges aside. */
  function OperatorOf(t: Token): Option<BinOperator> {
    match t
    case PipePipe => Some(Or) case KwOr => Some(Or)
    case AmpAmp => Some(And) case KwAnd => Some(And)
    case EqualEqual => Some(Eq) case BangEqual => Some(NotEq) case Less => Some(Lt) case Greater => Some(Gt)
    case LessEqual => Some(LtEq) case GreaterEqual => Some(GtEq) case Spaceship => Some(Cmp)
    case TripleEqual => Some(CaseEq) case Match => Some(Matches) case NotMatch => Some(NotMatches)
    case Pipe => Some(BitOr) case Caret => Some(BitXor) case Amp => Some(BitAnd)
    case LessLess => Some(Shl) case GreaterGreater => Some(Shr)
    case Plus => Some(Add) case Minus => Some(Sub)
    case Star => Some(Mul) case Slash => Some(Div) case Percent => Some(Mod)
    case DoubleStar => Some(Pow)
    case _ => None
  }

  /** The prefix operator a token stands for at a level. */
  function PrefixOf(level: Level, t: Token): Option<UnOperator> {
    if level == NOT then if t == Bang || t == KwNot then Some(Not) else None
    else if level == UNARY then
      match t
      case Minus => Some(Neg)
      case Plus => Some(Pos)
      case Tilde => Some(BitNot)
      case _ => None
    else None
  }

  // ---------------------------------------------------------------- the grammar

  /** How an expression is written: with parentheses, and with one of the tokens for each operator. */
  datatype Writing =
    | Leaf(tok: Token)
    | Paren(inner: Writing)
    | Prefix(tok: Token, operand: Writing)
    | Infix(left: Writing, tok: Token, right: Writing)
    | Conditional(cond: Writing, yes: Writing, no: Writing)

  function LevelOfWriting(w: Writing): Level {
    match w
    case Leaf(_) => PRIMARY
    case Paren(_) => PRIMARY
    case Prefix(t, _) => if t == Bang || t == KwNot then NOT else UNARY
    case Infix(_, t, _) => if LevelOf(t) >= 0 then LevelOf(t) else PRIMARY
    case Conditional(_, _, _) => TERNARY
  }

  /** The level the left operand of an operator needs: the operator's own if it associates to the left. */
  function LeftLevel(level: Level): Level {
    if level == RANGE || level == POWER then level + 1 else level
  }

  function RightLevel(level: Level): Level {
    if level == POWER || level == PRIMARY then level else level + 1
  }

  /** Every operand binds at least as tightly as its place demands. */
  predicate Legal(w: Writing) {
    match w
    case Leaf(t) => t.Integer? || t.InstanceVar?
    case Paren(inner) => Legal(inner)
    case Prefix(t, x) => PrefixOf(LevelOfWriting(w), t).Some? && Legal(x) && LevelOfWriting(x) >= LevelOfWriting(w)
    case Infix(l, t, r) =>
      && LevelOf(t) >= 1 && Legal(l) && Legal(r)
      && LevelOfWriting(l) >= LeftLevel(LevelOf(t)) && LevelOfWriting(r) >= RightLevel(LevelOf(t))
    case Conditional(c, y, n) => Legal(c) && Legal(y) && Legal(n) && LevelOfWriting(c) >= 1
  }

  function Tokens(w: Writing): (ts: seq<Token>)
    ensures ts != []
  {
    match w
    case Leaf(t) => [t]
    case Paren(inner) => [LParen] + Tokens(inner) + [RParen]
    case Prefix(t, x) => [t] + Tokens(x)
    case Infix(l, t, r) => Tokens(l) + [t] + Tokens(r)
    case Conditional(c, y, n) => Tokens(c) + [Question] + Tokens(y) + [Colon] + Tokens(n)
  }

  function Joined(t: Token, l: Expr, r: Expr): Expr
    requires LevelOf(t) >= 1
  {
    if t == DotDot || t == DotDotDot then RangeLit(l, r, t == DotDotDot) else BinaryOp(OperatorOf(t).value, l, r)
  }

  /** What a writing means. */
  function Tree(w: Writing): Expr
    requires Legal(w)
  {
    match w
    case Leaf(Integer(v)) => IntegerLit(v)
    case Leaf(InstanceVar(n)) => InstanceVarExpr(n)
    case Paren(inner) => Tree(inner)
    case Prefix(t, x) => UnaryOp(PrefixOf(LevelOfWriting(w), t).value, Tree(x))
    case Infix(l, t, r) => Joined(t, Tree(l), Tree(r))
    case Conditional(c, y, n) => Ternary(Tree(c), Tree(y), Tree(n))
  }

  // ---------------------------------------------------------------- a printer

  lemma OperatorsHaveLevels(t: Token)
    ensures OperatorOf(t).Some? ==> LevelOf(t) >= 1
  {
  }

  function TokenOf(op: BinOperator): (t: Token)
    ensures OperatorOf(t) == Some(op)
  {
    match op
    case Or => PipePipe case And => AmpAmp
    case Eq => EqualEqual case NotEq => BangEqual case Lt => Less case Gt => Greater case LtEq => LessEqual
    case GtEq => GreaterEqual case Cmp => Spaceship case CaseEq => TripleEqual
    case Matches => Match case NotMatches => NotMatch
    case BitOr => Pipe case BitXor => Caret case BitAnd => Amp case Shl => LessLess case Shr => GreaterGreater
    case Add => Plus case Sub => Minus case Mul => Star case Div => Slash case Mod => Percent case Pow => DoubleStar
  }

  function PrefixToken(op: UnOperator): Token {
    match op
    case Not => Bang
    case Neg => Minus
    case Pos => Plus
    case BitNot => Tilde
  }

  /** Parentheses, if the place demands more than the writing has. */
  function Fitted(w: Writing, level: Level): Writing {
    if LevelOfWriting(w) < level then Paren(w) else w
  }

  /** Write an expression with parentheses only where the place of an operand demands them. */
  function Write(e: Expr): Writing {
    match e
    case IntegerLit(v) => Leaf(Integer(v))
    case InstanceVarExpr(n) => Leaf(InstanceVar(n))
    case BinaryOp(op, l, r) =>
      var t := TokenOf(op);
      OperatorsHaveLevels(t);
      Infix(Fitted(Write(l), LeftLevel(LevelOf(t))), t, Fitted(Write(r), RightLevel(LevelOf(t))))
    case UnaryOp(op, x) =>
      Prefix(PrefixToken(op), Fitted(Write(x), if op == Not then NOT else UNARY))
    case RangeLit(a, b, exclusive) =>
      Infix(Fitted(Write(a), 6), if exclusive then DotDotDot else DotDot, Fitted(Write(b), 6))
    case Ternary(c, y, n) => Conditional(Fitted(Write(c), 1), Write(y), Write(n))
  }

  lemma FittedIsLegal(w: Writing, level: Level)
    requires Legal(w)
    ensures Legal(Fitted(w, level)) && Tree(Fitted(w, level)) == Tree(w) && LevelOfWriting(Fitted(w, level)) >= level
  {
  }

  lemma InfixIsLegal(l: Writing, t: Token, r: Writing)
    requires Legal(l) && Legal(r) && LevelOf(t) >= 1
    ensures var w := Infix(Fitted(l, LeftLevel(LevelOf(t))), t, Fitted(r, RightLevel(LevelOf(t))));
            Legal(w) && Tree(w) == Joined(t, Tree(l), Tree(r))
  {
    FittedIsLegal(l, LeftLevel(LevelOf(t)));
    FittedIsLegal(r, RightLevel(LevelOf(t)));
    hide LevelOf, OperatorOf, Joined, Fitted, LevelOfWriting;
  }

  lemma BinaryIsLegal(op: BinOperator, l: Writing, r: Writing)
    requires Legal(l) && Legal(r)
    ensures LevelOf(TokenOf(op)) >= 1
    ensures var t := TokenOf(op);
            var w := Infix(Fitted(l, LeftLevel(LevelOf(t))), t, Fitted(r, RightLevel(LevelOf(t))));
            Legal(w) && Tree(w) == BinaryOp(op, Tree(l), Tree(r))
  {
    OperatorsHaveLevels(TokenOf(op));
    InfixIsLegal(l, TokenOf(op), r);
    hide Fitted;
  }

  lemma RangeIsLegal(l: Writing, r: Writing, exclusive: bool)
    requires Legal(l) && Legal(r)
    ensures var w := Infix(Fitted(l, 6), if exclusive then DotDotDot else DotDot, Fitted(r, 6));
            Legal(w) && Tree(w) == RangeLit(Tree(l), Tree(r), exclusive)
  {
    InfixIsLegal(l, if exclusive then DotDotDot else DotDot, r);
    hide Fitted;
  }

  lemma PrefixIsLegal(op: UnOperator, x: Writing)
    requires Legal(x)
    ensures var w := Prefix(PrefixToken(op), Fitted(x, if op == UnOperator.Not then NOT else UNARY));
            Legal(w) && Tree(w) == UnaryOp(op, Tree(x))
  {
    FittedIsLegal(x, if op == UnOperator.Not then NOT else UNARY);
    hide Fitted;
  }

  // The printer's writing is legal and means the tree.
  lemma {:induction false} WriteIsLegal(e: Expr)
    ensures Legal(Write(e)) && Tree(Write(e)) == e
  {
    hide OperatorOf, LevelOf, LevelOfWriting, Fitted, Joined, PrefixOf, Legal, TokenOf;
    match e
    case BinaryOp(op, l, r) =>
      WriteIsLegal(l);
      WriteIsLegal(r);
      BinaryIsLegal(op, Write(l), Write(r));
    case UnaryOp(op, x) =>
      WriteIsLegal(x);
      PrefixIsLegal(op, Write(x));
    case RangeLit(a, b, exclusive) =>
      WriteIsLegal(a);
      WriteIsLegal(b);
      RangeIsLegal(Write(a), Write(b), exclusive);
    case Ternary(c, y, n) =>
      WriteIsLegal(c);
      WriteIsLegal(y);
      WriteIsLegal(n);
      TernaryIsLegal(Write(c), Write(y), Write(n));
    case _ => LeafIsLegal(e);
  }

  lemma TernaryIsLegal(c: Writing, y: Writing, n: Writing)
    requires Legal(c) && Legal(y) && Legal(n)
    ensures var w := Conditional(Fitted(c, 1), y, n); Legal(w) && Tree(w) == Ternary(Tree(c), Tree(y), Tree(n))
  {
    FittedIsLegal(c, 1);
    hide Fitted;
  }

  lemma LeafIsLegal(e: Expr)
    requires e.IntegerLit? || e.InstanceVarExpr?
    ensures Legal(Write(e)) && Tree(Write(e)) == e
  {
  }

  // ---------------------------------------------------------------- no legal writing is shorter

  /** What the printer writes for the tree of w is no longer than w, and at the same level unless w is parenthesized. */
  predicate Beaten(w: Writing)
    requires Legal(w)
  {
    var best := Write(Tree(w));
    if w.Paren? then |Tokens(best)| + 2 <= |Tokens(w)|
    else |Tokens(best)| <= |Tokens(w)| && LevelOfWriting(best) == LevelOfWriting(w)
  }

  lemma FittedIsShort(w: Writing, level: Level)
    requires Legal(w) && Beaten(w) && level <= LevelOfWriting(w)
    ensures |Tokens(Fitted(Write(Tree(w)), level))| <= |Tokens(w)|
  {
    hide Write, Tree, Legal;
  }

  // All tokens for one operator are at one level.
  lemma TokensShareLevel(t: Token)
    requires OperatorOf(t).Some?
    ensures LevelOf(TokenOf(OperatorOf(t).value)) == LevelOf(t)
  {
  }

  lemma InfixIsBeaten(w: Writing)
    requires w.Infix? && Legal(w) && Beaten(w.left) && Beaten(w.right)
    ensures Beaten(w)
  {
    FittedIsShort(w.left, LeftLevel(LevelOf(w.tok)));
    FittedIsShort(w.right, RightLevel(LevelOf(w.tok)));
    if w.tok != DotDot && w.tok != DotDotDot {
      TokensShareLevel(w.tok);
    }
    hide Fitted, Beaten;
  }

  lemma PrefixIsBeaten(w: Writing)
    requires w.Prefix? && Legal(w) && Beaten(w.operand)
    ensures Beaten(w)
  {
    FittedIsShort(w.operand, LevelOfWriting(w));
    hide Fitted, LevelOf;
  }

  lemma ConditionalIsBeaten(w: Writing)
    requires w.Conditional? && Legal(w) && Beaten(w.cond) && Beaten(w.yes) && Beaten(w.no)
    ensures Beaten(w)
  {
    FittedIsShort(w.cond, 1);
    FittedIsShort(w.yes, TERNARY);
    FittedIsShort(w.no, TERNARY);
    hide Fitted, LevelOf;
  }

  lemma {:induction false} WritingIsBeaten(w: Writing)
    requires Legal(w)
    ensures Beaten(w)
  {
    hide LevelOf, OperatorOf, TokenOf, Fitted, PrefixOf;
    match w
    case Leaf(_) =>
    case Paren(inner) => WritingIsBeaten(inner);
    case Prefix(t, x) =>
      WritingIsBeaten(x);
      PrefixIsBeaten(w);
    case Infix(l, _, r) =>
      WritingIsBeaten(l);
      WritingIsBeaten(r);
      InfixIsBeaten(w);
    case Conditional(c, y, n) =>
      WritingIsBeaten(c);
      WritingIsBeaten(y);
      WritingIsBeaten(n);
      ConditionalIsBeaten(w);
  }

  // Of all legal writings of a tree, the printer's is a shortest: it has no parentheses to spare.
  lemma WriteIsShortest(e: Expr, w: Writing)
    requires Legal(w) && Tree(w) == e
    ensures |Tokens(Write(e))| <= |Tokens(w)|
  {
    WritingIsBeaten(w);
  }
}
