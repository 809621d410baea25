/**
  The texts of the tokens, kind by kind, and that the lexer reads each of them back as what it is: a source
  made of any such texts with blanks between them has exactly these tokens.
 */
module Lexemes {
  import opened Lexer

  // The classes of characters, one by one.
  lemma LettersListed(c: char)
    ensures IsLower(c) <==> c in "abcdefghijklmnopqrstuvwxyz"
    ensures IsUpper(c) <==> c in "ABCDEFGHIJKLMNOPQRSTUVWXYZ"
    ensures IsDigit(c) <==> c in "0123456789"
    ensures IsIdentContinue(c) <==> IsLower(c) || IsUpper(c) || IsDigit(c) || c == '_'
  {
  }

  lemma DigitsListed(c: char)
    ensures IsDigitOrUnderscore(c) <==> c in "0123456789_"
    ensures IsHexDigit(c) <==> c in "0123456789abcdefABCDEF_"
    ensures IsOctalDigit(c) <==> c in "01234567_"
    ensures IsBinaryDigit(c) <==> c in "01_"
    ensures IsBlank(c) <==> c in " \t\r"
  {
  }

  predicate All(p: char -> bool, w: string) {
    forall k :: 0 <= k < |w| ==> p(w[k])
  }

  /** Letters, digits and underscores, the first of them no digit. */
  predicate IsWord(w: string) {
    w != "" && All(IsIdentContinue, w) && !IsDigit(w[0])
  }

  /** A word, possibly with a question or exclamation mark at its end. */
  predicate IsName(w: string) {
    IsWord(w) || (w != "" && w[|w| - 1] in {'?', '!'} && IsWord(w[..|w| - 1]))
  }

  predicate IsDecimal(w: string) {
    w != "" && IsDigit(w[0]) && All(IsDigitOrUnderscore, w)
  }

  /** Decimal digits, or 0x, 0b or 0o and digits of that base; with underscores anywhere but in front. */
  predicate IsInteger(w: string) {
    || IsDecimal(w)
    || (|w| >= 2 && w[0] == '0' && w[1] in {'x', 'X'} && All(IsHexDigit, w[2..]))
    || (|w| >= 2 && w[0] == '0' && w[1] in {'b', 'B'} && All(IsBinaryDigit, w[2..]))
    || (|w| >= 2 && w[0] == '0' && w[1] in {'o', 'O'} && All(IsOctalDigit, w[2..]))
  }

  predicate IsExponent(w: string) {
    w != "" && w[0] in {'e', 'E'}
    && (All(IsDigitOrUnderscore, w[1..]) || (|w| >= 2 && w[1] in {'+', '-'} && All(IsDigitOrUnderscore, w[2..])))
  }

  /** A decimal with a fraction, an exponent, or both. */
  ghost predicate IsFloat(w: string) {
    exists a, b, e :: w == a + b + e && FloatParts(a, b, e)
  }

  predicate FloatParts(whole: string, fraction: string, exponent: string) {
    && IsDecimal(whole) && (fraction != "" || exponent != "")
    && (fraction != "" ==> fraction[0] == '.' && IsDecimal(fraction[1..]))
    && (exponent != "" ==> IsExponent(exponent))
  }

  // ---------------------------------------------------------------- strings

  /** What stands between the braces of an interpolation: braces in pairs. */
  datatype Part = Plain(c: char) | Escaped(c: char) | Braces(parts: seq<Part>)

  datatype Piece = Char(c: char) | Escape(c: char) | Interpolation(parts: seq<Part>)

  function PartText(p: Part): string {
    match p
    case Plain(c) => [c]
    case Escaped(c) => ['\\', c]
    case Braces(parts) => "{" + PartsText(parts) + "}"
  }

  function PartsText(parts: seq<Part>): string {
    if parts == [] then "" else PartText(parts[0]) + PartsText(parts[1..])
  }

  predicate PartFits(p: Part) {
    match p
    case Plain(c) => c !in {'{', '}', '\\'}
    case Escaped(_) => true
    case Braces(parts) => forall k :: 0 <= k < |parts| ==> PartFits(parts[k])
  }

  function PieceText(p: Piece): string {
    match p
    case Char(c) => [c]
    case Escape(c) => ['\\', c]
    case Interpolation(parts) => "#{" + PartsText(parts) + "}"
  }

  function PiecesText(pieces: seq<Piece>): string {
    if pieces == [] then "" else PieceText(pieces[0]) + PiecesText(pieces[1..])
  }

  predicate PieceFits(quote: char, interpolates: bool, p: Piece) {
    match p
    case Char(c) => c != quote && c != '\\'
    case Escape(_) => true
    case Interpolation(parts) => interpolates && forall k :: 0 <= k < |parts| ==> PartFits(parts[k])
  }

  /** The inside of a string: a quote only after a backslash, and #{ only as the beginning of an interpolation. */
  predicate Inside(quote: char, interpolates: bool, pieces: seq<Piece>) {
    && (forall k :: 0 <= k < |pieces| ==> PieceFits(quote, interpolates, pieces[k]))
    && (interpolates ==> forall k :: 0 < k < |pieces| && pieces[k] == Char('{') ==> pieces[k - 1] != Char('#'))
  }

  ghost predicate IsQuoted(quote: char, interpolates: bool, w: string) {
    exists pieces :: Inside(quote, interpolates, pieces) && w == [quote] + PiecesText(pieces) + [quote]
  }

  // ---------------------------------------------------------------- the texts of each kind

  ghost predicate Spells(kind: Kind, w: string) {
    match kind
    case Newline => w == "\n"
    case Identifier => IsName(w) && !IsUpper(w[0]) && w !in KEYWORDS
    case Keyword => IsName(w) && !IsUpper(w[0]) && w in KEYWORDS
    case Constant => IsWord(w) && IsUpper(w[0])
    case InstanceVariable => w != "" && w[0] == '@' && IsWord(w[1..])
    case ClassVariable => |w| >= 2 && w[0] == w[1] == '@' && All(IsIdentContinue, w[2..])
    case GlobalVariable =>
      |w| >= 2 && w[0] == '$' && (IsWord(w[1..]) || (|w| == 2 && w[1] in "!@;,./\\*<>$?~&`'+0123456789"))
    case SymbolName => w != "" && w[0] == ':' && (IsName(w[1..]) || IsQuoted('"', false, w[1..]))
    case IntegerNumber => IsInteger(w)
    case FloatNumber => IsFloat(w)
    case StringDouble => IsQuoted('"', true, w)
    case StringSingle => IsQuoted('\'', false, w)
    case At => w == "@"
    case Operator => SpellsOperator(w)
    case _ => false
  }

  /** The text w at i, with a blank or the end of the source after it. */
  predicate Apart(s: string, i: nat, w: string) {
    i <= |s| && StartsWith(s, i, w) && (i + |w| == |s| || IsBlank(s[i + |w|]))
  }

  lemma CharAt(s: string, i: nat, w: string, k: nat)
    requires i <= |s| && StartsWith(s, i, w) && k < |w|
    ensures s[i + k] == w[k]
  {
    assert s[i..i + |w|][k] == w[k];
  }

  lemma Chars(s: string, i: nat, w: string)
    requires i <= |s| && StartsWith(s, i, w)
    ensures forall k :: i <= k < i + |w| ==> s[k] == w[k - i]
  {
    forall k | i <= k < i + |w|
      ensures s[k] == w[k - i]
    {
      CharAt(s, i, w, k - i);
    }
  }

  lemma {:induction false} WhileExact(p: char -> bool, s: string, i: nat, n: nat)
    requires i <= n <= |s| && (forall k :: i <= k < n ==> p(s[k])) && (n == |s| || !p(s[n]))
    ensures While(p, s, i) == n
    decreases n - i
  {
    if i < n {
      WhileExact(p, s, i + 1, n);
    }
  }

  lemma {:induction false} StartsWithBoth(s: string, i: nat, a: string, b: string)
    requires i <= |s|
    ensures StartsWith(s, i, a + b) <==> StartsWith(s, i, a) && StartsWith(s, i + |a|, b)
  {
    var w := a + b;
    if StartsWith(s, i, w) {
      Chars(s, i, w);
      assert s[i..i + |a|] == a && s[i + |a|..i + |a| + |b|] == b;
    }
    if StartsWith(s, i, a) && StartsWith(s, i + |a|, b) {
      assert s[i..i + |w|] == s[i..i + |a|] + s[i + |a|..i + |a| + |b|];
    }
  }

  // ---------------------------------------------------------------- names

  lemma NameScans(s: string, i: nat, j: nat, n: nat)
    requires i < j <= n <= |s| && IsName(s[i..n]) && (n == |s| || IsBlank(s[n]))
    requires j == i + 1
    ensures NameEnd(s, j) == n && (IsAlpha(s[i]) || s[i] == '_')
  {
    var w := s[i..n];
    assert forall k :: i <= k < n ==> s[k] == w[k - i];
    if IsWord(w) {
      WhileExact(IsIdentContinue, s, j, n);
    } else {
      assert forall k :: 0 <= k < |w| - 1 ==> w[..|w| - 1][k] == w[k];
      assert s[n - 1] == w[|w| - 1];
      WhileExact(IsIdentContinue, s, j, n - 1);
    }
  }

  lemma NamesRead(s: string, i: nat, kind: Kind, w: string)
    requires kind in {Identifier, Keyword, Constant} && Spells(kind, w) && Apart(s, i, w)
    ensures i < |s| && Scan(s, i) == (kind, i + |w|)
  {
    hide While, StringEnd, InterpolationEnd, NumberEnd, GlobalEnd, BlockCommentEnd, OperatorLength, BlockCommentBegins;
    Chars(s, i, w);
    assert s[i..i + |w|] == w;
    if kind == Constant {
      WhileExact(IsIdentContinue, s, i + 1, i + |w|);
    } else {
      NameScans(s, i, i + 1, i + |w|);
    }
  }

  lemma VariablesRead(s: string, i: nat, kind: Kind, w: string)
    requires kind in {InstanceVariable, ClassVariable, GlobalVariable} && Spells(kind, w) && Apart(s, i, w)
    ensures i < |s| && Scan(s, i) == (kind, i + |w|)
  {
    hide While, StringEnd, InterpolationEnd, NumberEnd, NameEnd, BlockCommentEnd, OperatorLength, BlockCommentBegins;
    Chars(s, i, w);
    assert forall k :: 1 <= k < |w| ==> w[1..][k - 1] == w[k];
    if kind == InstanceVariable {
      WhileExact(IsIdentContinue, s, i + 1, i + |w|);
    } else if kind == ClassVariable {
      assert forall k :: 2 <= k < |w| ==> w[2..][k - 2] == w[k];
      WhileExact(IsIdentContinue, s, i + 2, i + |w|);
    } else {
      GlobalsRead(s, i + 1, w[1..]);
    }
  }

  lemma GlobalsRead(s: string, i: nat, w: string)
    requires w != "" && i + |w| <= |s| && (forall k :: i <= k < i + |w| ==> s[k] == w[k - i])
    requires i + |w| == |s| || IsBlank(s[i + |w|])
    requires IsWord(w) || (|w| == 1 && w[0] in "!@;,./\\*<>$?~&`'+0123456789")
    ensures GlobalEnd(s, i) == i + |w|
  {
    if IsWord(w) {
      WhileExact(IsIdentContinue, s, i, i + |w|);
      WhileExact(IsIdentContinue, s, i + 1, i + |w|);
    }
  }

  // ---------------------------------------------------------------- numbers

  lemma IntegersRead(s: string, i: nat, w: string)
    requires IsInteger(w) && Apart(s, i, w)
    ensures i < |s| && Scan(s, i) == (IntegerNumber, i + |w|)
  {
    hide While, StringEnd, InterpolationEnd, NameEnd, GlobalEnd, BlockCommentEnd, OperatorLength, BlockCommentBegins,
         NumberEnd;
    CharAt(s, i, w, 0);
    if IsDecimal(w) {
      DecimalIntegersRead(s, i, w);
    } else {
      BasedIntegersRead(s, i, w);
    }
  }

  lemma DecimalIntegersRead(s: string, i: nat, w: string)
    requires IsDecimal(w) && Apart(s, i, w)
    ensures i < |s| && NumberEnd(s, i) == (IntegerNumber, i + |w|)
  {
    hide While;
    Chars(s, i, w);
    WhileExact(IsDigitOrUnderscore, s, i + 1, i + |w|);
  }

  lemma BasedIntegersRead(s: string, i: nat, w: string)
    requires IsInteger(w) && !IsDecimal(w) && Apart(s, i, w)
    ensures i < |s| && NumberEnd(s, i) == (IntegerNumber, i + |w|)
  {
    hide While, DecimalEnd;
    Chars(s, i, w);
    assert forall k :: 2 <= k < |w| ==> w[2..][k - 2] == w[k];
    if w[1] in {'x', 'X'} {
      WhileExact(IsHexDigit, s, i + 2, i + |w|);
    } else if w[1] in {'b', 'B'} {
      WhileExact(IsBinaryDigit, s, i + 2, i + |w|);
    } else {
      WhileExact(IsOctalDigit, s, i + 2, i + |w|);
    }
  }

  lemma ExponentRead(s: string, i: nat, e: string)
    requires IsExponent(e) && Apart(s, i, e)
    ensures i < |s| && ExponentEnd(s, i) == i + |e|
  {
    Chars(s, i, e);
    assert forall k :: 1 <= k < |e| ==> e[1..][k - 1] == e[k];
    if All(IsDigitOrUnderscore, e[1..]) {
      WhileExact(IsDigitOrUnderscore, s, i + 1, i + |e|);
    } else {
      assert forall k :: 2 <= k < |e| ==> e[2..][k - 2] == e[k];
      WhileExact(IsDigitOrUnderscore, s, i + 2, i + |e|);
    }
  }

  lemma FloatsRead(s: string, i: nat, w: string)
    requires IsFloat(w) && Apart(s, i, w)
    ensures i < |s| && Scan(s, i) == (FloatNumber, i + |w|)
  {
    hide While, StringEnd, InterpolationEnd, NameEnd, GlobalEnd, BlockCommentEnd, OperatorLength, BlockCommentBegins,
         DecimalEnd, ExponentEnd;
    var a, b, e :| w == a + b + e && FloatParts(a, b, e);
    Chars(s, i, w);
    DecimalsRead(s, i, w, a, b, e);
    assert s[i] == a[0];
    if |w| > 1 {
      assert s[i + 1] == w[1];
      SecondOfFloat(w, a, b, e);
    }
  }

  lemma SecondOfFloat(w: string, a: string, b: string, e: string)
    requires w == a + b + e && FloatParts(a, b, e)
    ensures |w| > 1 && (IsDigitOrUnderscore(w[1]) || w[1] in {'.', 'e', 'E'})
  {
    if |a| > 1 {
      assert w[1] == a[1];
    } else if b != "" {
      assert w[1] == b[0];
    } else {
      assert w[1] == e[0];
    }
  }

  lemma DecimalsRead(s: string, i: nat, w: string, a: string, b: string, e: string)
    requires w == a + b + e && FloatParts(a, b, e) && Apart(s, i, w)
    ensures DecimalEnd(s, i + 1) == (FloatNumber, i + |w|)
  {
    hide While, ExponentEnd, DecimalEnd, FloatParts, StartsWith, Apart, IsDecimal, IsExponent;
    ThreeTexts(s, i, a, b, e);
    PartsOfFloat(a, b, e);
    WholeRead(s, i, a, b, e);
    if b != "" {
      FractionRead(s, i + |a|, b, e);
    }
    ExponentEndsIt(s, i + |a| + |b|, e);
    DecimalEnds(s, i + 1, i + |a|, i + |a| + |b|, i + |w|);
  }

  lemma ThreeTexts(s: string, i: nat, a: string, b: string, e: string)
    requires Apart(s, i, a + b + e)
    ensures i + |a| + |b| + |e| <= |s| && StartsWith(s, i, a) && StartsWith(s, i + |a|, b)
    ensures Apart(s, i + |a| + |b|, e)
  {
    StartsWithBoth(s, i, a + b, e);
    StartsWithBoth(s, i, a, b);
  }

  lemma PartsOfFloat(a: string, b: string, e: string)
    requires FloatParts(a, b, e)
    ensures a != "" && (b != "" || e != "") && (e != "" ==> IsExponent(e))
    ensures b != "" ==> |b| > 1 && b[0] == '.' && IsDecimal(b[1..])
  {
  }

  // The digits end at whole; a fraction, if there is one, at fraction; and an exponent, if there is one, at end.
  lemma DecimalEnds(s: string, i: nat, whole: nat, fraction: nat, end: nat)
    requires i <= whole <= fraction <= end <= |s| && While(IsDigitOrUnderscore, s, i) == whole < end
    requires whole < fraction ==> whole + 1 < fraction && s[whole] == '.' && IsDigit(s[whole + 1])
                                  && While(IsDigitOrUnderscore, s, whole + 1) == fraction
    requires if fraction < end then s[fraction] in {'e', 'E'} && ExponentEnd(s, fraction) == end
             else Peek(s, fraction) !in {'e', 'E', '.'}
    ensures DecimalEnd(s, i) == (FloatNumber, end)
  {
    hide While, ExponentEnd;
  }

  lemma ExponentEndsIt(s: string, i: nat, e: string)
    requires (e != "" ==> IsExponent(e)) && Apart(s, i, e)
    ensures if e != "" then i < |s| && s[i] in {'e', 'E'} && ExponentEnd(s, i) == i + |e|
            else Peek(s, i) !in {'e', 'E', '.'}
  {
    hide ExponentEnd;
    if e != "" {
      ExponentRead(s, i, e);
      CharAt(s, i, e, 0);
      ExponentBegins(e);
    }
  }

  lemma ExponentBegins(e: string)
    requires IsExponent(e)
    ensures e[0] in {'e', 'E'}
  {
  }

  lemma WholeRead(s: string, i: nat, a: string, b: string, e: string)
    requires FloatParts(a, b, e) && i <= |s| && StartsWith(s, i, a)
    requires StartsWith(s, i + |a|, b) && StartsWith(s, i + |a| + |b|, e)
    ensures While(IsDigitOrUnderscore, s, i + 1) == i + |a|
  {
    Chars(s, i, a);
    if b != "" {
      CharAt(s, i + |a|, b, 0);
    } else {
      CharAt(s, i + |a|, e, 0);
      ExponentBegins(e);
    }
    WhileExact(IsDigitOrUnderscore, s, i + 1, i + |a|);
  }

  lemma FractionRead(s: string, i: nat, b: string, e: string)
    requires b != "" && b[0] == '.' && IsDecimal(b[1..]) && (e != "" ==> IsExponent(e))
    requires i <= |s| && StartsWith(s, i, b) && Apart(s, i + |b|, e)
    ensures s[i] == '.' && IsDigit(s[i + 1]) && While(IsDigitOrUnderscore, s, i + 1) == i + |b|
  {
    Chars(s, i, b);
    assert forall k :: 1 <= k < |b| ==> b[1..][k - 1] == b[k];
    if e != "" {
      CharAt(s, i + |b|, e, 0);
      ExponentBegins(e);
    }
    WhileExact(IsDigitOrUnderscore, s, i + 1, i + |b|);
  }

  // ---------------------------------------------------------------- strings

  // Over the text between braces the depth ends as it began.
  lemma {:induction false} PartsPass(s: string, i: nat, parts: seq<Part>, depth: nat)
    requires i <= |s| && StartsWith(s, i, PartsText(parts)) && depth > 0
    requires forall k :: 0 <= k < |parts| ==> PartFits(parts[k])
    ensures InterpolationEnd(s, i, depth) == InterpolationEnd(s, i + |PartsText(parts)|, depth)
    decreases parts, 0
  {
    if parts != [] {
      StartsWithBoth(s, i, PartText(parts[0]), PartsText(parts[1..]));
      PartPasses(s, i, parts[0], depth);
      PartsPass(s, i + |PartText(parts[0])|, parts[1..], depth);
    }
  }

  lemma {:induction false} PartPasses(s: string, i: nat, p: Part, depth: nat)
    requires i <= |s| && StartsWith(s, i, PartText(p)) && PartFits(p) && depth > 0
    ensures InterpolationEnd(s, i, depth) == InterpolationEnd(s, i + |PartText(p)|, depth)
    decreases p, 1
  {
    hide InterpolationEnd, PartsText;
    Chars(s, i, PartText(p));
    InterpolationStep(s, i, depth);
    if p.Braces? {
      var text := PartsText(p.parts);
      assert "{" + text + "}" == "{" + (text + "}");
      StartsWithBoth(s, i, "{", text + "}");
      StartsWithBoth(s, i + 1, text, "}");
      PartsPass(s, i + 1, p.parts, depth + 1);
      InterpolationStep(s, i + 1 + |text|, depth + 1);
    }
  }

  lemma InterpolationStep(s: string, i: nat, depth: nat)
    requires i < |s| && depth > 0
    ensures InterpolationEnd(s, i, depth)
            == if s[i] == '{' then InterpolationEnd(s, i + 1, depth + 1)
               else if s[i] == '}' then InterpolationEnd(s, i + 1, depth - 1)
               else if s[i] == '\\' then InterpolationEnd(s, PastEscape(s, i), depth)
               else InterpolationEnd(s, i + 1, depth)
  {
  }

  // Inside a string, its text is passed over; what comes after it must not make an interpolation of a last #.
  lemma {:induction false} PiecesPass(s: string, i: nat, quote: char, interpolates: bool, pieces: seq<Piece>)
    requires quote == '"' || quote == '\''
    requires i <= |s| && StartsWith(s, i, PiecesText(pieces)) && Inside(quote, interpolates, pieces)
    requires Peek(s, i + |PiecesText(pieces)|) != '{'
    ensures StringEnd(quote, interpolates, s, i) == StringEnd(quote, interpolates, s, i + |PiecesText(pieces)|)
    decreases |pieces|
  {
    hide StringEnd, InterpolationEnd, PieceText, Inside;
    if pieces != [] {
      var p, rest := pieces[0], pieces[1..];
      StartsWithBoth(s, i, PieceText(p), PiecesText(rest));
      NextBegins(s, i + |PieceText(p)|, pieces);
      RestInside(quote, interpolates, pieces);
      PiecePasses(s, i, quote, interpolates, p);
      PiecesPass(s, i + |PieceText(p)|, quote, interpolates, rest);
    }
  }

  lemma RestInside(quote: char, interpolates: bool, pieces: seq<Piece>)
    requires Inside(quote, interpolates, pieces) && pieces != []
    ensures Inside(quote, interpolates, pieces[1..]) && PieceFits(quote, interpolates, pieces[0])
    ensures interpolates && |pieces| > 1 && pieces[1] == Char('{') ==> pieces[0] != Char('#')
  {
    hide PieceFits;
  }

  // After the first piece a brace follows only if it is the next piece.
  lemma NextBegins(s: string, i: nat, pieces: seq<Piece>)
    requires pieces != [] && i <= |s| && StartsWith(s, i, PiecesText(pieces[1..]))
    requires Peek(s, i + |PiecesText(pieces[1..])|) != '{'
    ensures Peek(s, i) == '{' ==> |pieces| > 1 && pieces[1] == Char('{')
  {
    if |pieces| > 1 {
      var w := PiecesText(pieces[1..]);
      assert pieces[1..][0] == pieces[1] && w[0] == PieceText(pieces[1])[0];
      CharAt(s, i, w, 0);
    }
  }

  lemma PiecePasses(s: string, i: nat, quote: char, interpolates: bool, p: Piece)
    requires quote == '"' || quote == '\''
    requires i <= |s| && StartsWith(s, i, PieceText(p)) && PieceFits(quote, interpolates, p)
    requires interpolates && p == Char('#') ==> Peek(s, i + |PieceText(p)|) != '{'
    ensures StringEnd(quote, interpolates, s, i) == StringEnd(quote, interpolates, s, i + |PieceText(p)|)
  {
    hide InterpolationEnd, PartsText, PartFits;
    if p.Interpolation? {
      InterpolationPasses(s, i, quote, p.parts);
    } else {
      hide StringEnd;
      Chars(s, i, PieceText(p));
      OneCharPasses(s, i, quote, interpolates);
    }
  }

  lemma OneCharPasses(s: string, i: nat, quote: char, interpolates: bool)
    requires i < |s| && s[i] != quote && !(interpolates && s[i] == '#' && Peek(s, i + 1) == '{')
    ensures s[i] != '\\' ==> StringEnd(quote, interpolates, s, i) == StringEnd(quote, interpolates, s, i + 1)
    ensures s[i] == '\\' && i + 2 <= |s| ==>
              StringEnd(quote, interpolates, s, i) == StringEnd(quote, interpolates, s, i + 2)
  {
    hide InterpolationEnd;
  }

  lemma InterpolationPasses(s: string, i: nat, quote: char, parts: seq<Part>)
    requires (quote == '"' || quote == '\'') && forall k :: 0 <= k < |parts| ==> PartFits(parts[k])
    requires i <= |s| && StartsWith(s, i, "#{" + PartsText(parts) + "}")
    ensures StringEnd(quote, true, s, i) == StringEnd(quote, true, s, i + 3 + |PartsText(parts)|)
  {
    hide PartFits, PartsText;
    var text := PartsText(parts);
    assert "#{" + text + "}" == "#{" + (text + "}");
    StartsWithBoth(s, i, "#{", text + "}");
    StartsWithBoth(s, i + 2, text, "}");
    Chars(s, i, "#{");
    Chars(s, i + 2 + |text|, "}");
    PartsPass(s, i + 2, parts, 1);
    assert InterpolationEnd(s, i + 2 + |text|, 1) == i + 3 + |text|;
    hide InterpolationEnd;
  }

  // A string ends at the first quote that belongs neither to an escape nor to an interpolation.
  lemma QuotedRead(s: string, i: nat, kind: Kind, quote: char, interpolates: bool, w: string)
    requires quote == '"' || quote == '\''
    requires IsQuoted(quote, interpolates, w) && i <= |s| && StartsWith(s, i, w)
    ensures i < |s| && s[i] == quote && Quoted(kind, quote, interpolates, s, i + 1) == (kind, i + |w|)
  {
    hide Inside, PiecesText, Quoted, StartsWith;
    var pieces :| Inside(quote, interpolates, pieces) && w == [quote] + PiecesText(pieces) + [quote];
    StringRead(s, i, kind, quote, interpolates, pieces);
  }

  lemma StringRead(s: string, i: nat, kind: Kind, quote: char, interpolates: bool, pieces: seq<Piece>)
    requires (quote == '"' || quote == '\'') && Inside(quote, interpolates, pieces)
    requires i <= |s| && StartsWith(s, i, [quote] + PiecesText(pieces) + [quote])
    ensures i < |s| && s[i] == quote
    ensures Quoted(kind, quote, interpolates, s, i + 1) == (kind, i + |PiecesText(pieces)| + 2)
  {
    hide Inside, PiecesText, StringEnd;
    var text := PiecesText(pieces);
    QuotesAround(s, i, quote, text);
    PiecesPass(s, i + 1, quote, interpolates, pieces);
    QuoteEnds(s, i + 1 + |text|, quote, interpolates);
    hide StartsWith;
  }

  lemma QuotesAround(s: string, i: nat, quote: char, text: string)
    requires i <= |s| && StartsWith(s, i, [quote] + text + [quote])
    ensures i + |text| + 2 <= |s| && s[i] == s[i + 1 + |text|] == quote && StartsWith(s, i + 1, text)
  {
    var w := [quote] + text + [quote];
    Chars(s, i, w);
    assert s[i] == w[0] && s[i + 1 + |text|] == w[|text| + 1];
    assert w == [quote] + (text + [quote]);
    StartsWithBoth(s, i, [quote], text + [quote]);
    StartsWithBoth(s, i + 1, text, [quote]);
  }

  lemma QuoteEnds(s: string, i: nat, quote: char, interpolates: bool)
    requires i < |s| && s[i] == quote
    ensures StringEnd(quote, interpolates, s, i) == i
  {
  }

  // A string that is not closed is an error, and extends over the rest of the source.
  lemma UnclosedIsError(s: string, i: nat, quote: char, pieces: seq<Piece>)
    requires quote == '"' || quote == '\''
    requires Inside(quote, quote == '"', pieces) && i < |s| && s[i..] == [quote] + PiecesText(pieces)
    ensures Scan(s, i) == (Error, |s|)
  {
    hide While, InterpolationEnd, NumberEnd, NameEnd, GlobalEnd, BlockCommentEnd, OperatorLength, BlockCommentBegins,
         StringEnd, IsOperator1, PiecesText, Inside;
    assert s[i] == s[i..][0] == quote;
    UnclosedRunsOn(s, i + 1, quote, quote == '"', pieces);
  }

  lemma UnclosedRunsOn(s: string, i: nat, quote: char, interpolates: bool, pieces: seq<Piece>)
    requires quote == '"' || quote == '\''
    requires Inside(quote, interpolates, pieces) && 0 < i <= |s| && s[i - 1..] == [quote] + PiecesText(pieces)
    ensures StringEnd(quote, interpolates, s, i) == |s|
  {
    hide Inside, PiecesText, StringEnd;
    assert s[i..i + |PiecesText(pieces)|] == s[i - 1..][1..] == PiecesText(pieces);
    PiecesPass(s, i, quote, interpolates, pieces);
    NothingLeft(s, quote, interpolates);
  }

  lemma NothingLeft(s: string, quote: char, interpolates: bool)
    ensures StringEnd(quote, interpolates, s, |s|) == |s|
  {
  }

  lemma StringsRead(s: string, i: nat, kind: Kind, w: string)
    requires kind in {StringDouble, StringSingle, SymbolName} && Spells(kind, w) && Apart(s, i, w)
    ensures i < |s| && Scan(s, i) == (kind, i + |w|)
  {
    hide While, StringEnd, InterpolationEnd, NumberEnd, GlobalEnd, BlockCommentEnd, OperatorLength, BlockCommentBegins,
         Quoted, NameEnd;
    Chars(s, i, w);
    if kind == StringDouble {
      QuotedRead(s, i, StringDouble, '"', true, w);
    } else if kind == StringSingle {
      QuotedRead(s, i, StringSingle, '\'', false, w);
    } else {
      assert w == [w[0]] + w[1..];
      StartsWithBoth(s, i, [w[0]], w[1..]);
      if IsName(w[1..]) {
        assert s[i + 1..i + |w|] == w[1..];
        SymbolScans(s, i, w);
      } else {
        QuotedRead(s, i + 1, SymbolName, '"', false, w[1..]);
      }
    }
  }

  lemma SymbolScans(s: string, i: nat, w: string)
    requires w != "" && w[0] == ':' && IsName(w[1..]) && Apart(s, i, w)
    ensures |w| > 1 && NameEnd(s, i + 1) == i + |w| && (IsAlpha(s[i + 1]) || s[i + 1] == '_')
  {
    Chars(s, i, w);
    assert s[i + 1..i + |w|] == w[1..];
    assert s[i + 1] == w[1..][0];
    NameScans(s, i + 1, i + 2, i + |w|);
    assert IsIdentContinue(s[i + 1]);
  }

  // ---------------------------------------------------------------- operators

  const OPERATORS1 := {
    '+', '-', '*', '/', '%', '^', '~', '=', '!', '<', '>', '&', '|', '.', ':', '(', ')', '[', ']', '{', '}', ',',
    ';', '?'
  }

  const OPERATORS2 := {
    ('+', '='), ('-', '='), ('-', '>'), ('*', '='), ('*', '*'), ('/', '='), ('%', '='), ('^', '='), ('=', '='),
    ('=', '~'), ('=', '>'), ('!', '='), ('!', '~'), ('<', '='), ('<', '<'), ('>', '='), ('>', '>'), ('&', '='),
    ('&', '&'), ('|', '='), ('|', '|'), ('.', '.'), (':', ':')
  }

  const OPERATORS3 := {
    ('*', '*', '='), ('=', '=', '='), ('<', '=', '>'), ('<', '<', '='), ('>', '>', '='), ('&', '&', '='),
    ('|', '|', '='), ('.', '.', '.')
  }

  // The operators, one by one.
  lemma OperatorsListed(a: char, b: char, c: char)
    ensures SpellsOperator([a]) <==> a in OPERATORS1
    ensures SpellsOperator([a, b]) <==> (a, b) in OPERATORS2
    ensures SpellsOperator([a, b, c]) <==> (a, b, c) in OPERATORS3
  {
  }

  lemma OperatorsRead(s: string, i: nat, w: string)
    requires SpellsOperator(w) && Apart(s, i, w)
    ensures i < |s| && Scan(s, i) == (Operator, i + |w|)
  {
    hide While, StringEnd, InterpolationEnd, NumberEnd, NameEnd, GlobalEnd, BlockCommentEnd;
    Chars(s, i, w);
    if BlockCommentBegins(s, i) {
      CharAt(s, i + 1, "begin", 0);
    }
  }

  lemma RestRead(s: string, i: nat, kind: Kind, w: string)
    requires (kind == At && Apart(s, i, w)) || (kind == Newline && i <= |s| && StartsWith(s, i, w))
    requires Spells(kind, w)
    ensures i < |s| && Scan(s, i) == (kind, i + |w|)
  {
    Chars(s, i, w);
  }

  // ---------------------------------------------------------------- keywords

  const DEFINING := {"def", "class", "module", "end", "begin", "do", "then", "alias", "defined?"}
  const BRANCHING := {"if", "elsif", "else", "unless", "case", "when", "in", "while", "until", "for"}
  const LEAVING := {"rescue", "ensure", "raise", "retry", "break", "next", "redo", "return", "yield"}
  const VALUES := {"self", "super", "nil", "true", "false", "and", "or", "not"}
  const MODULES := {"require", "require_relative", "load", "include", "extend", "prepend", "freeze"}
  const ATTRIBUTES := {"attr_reader", "attr_writer", "attr_accessor", "public", "private", "protected"}
  const CALLS := {"lambda", "proc", "puts", "print", "p"}

  lemma DefiningWords(w: string)
    requires w in DEFINING
    ensures w in KEYWORDS && IsName(w) && !IsUpper(w[0])
  {
  }

  lemma BranchingWords(w: string)
    requires w in BRANCHING
    ensures w in KEYWORDS && IsName(w) && !IsUpper(w[0])
  {
  }

  lemma LeavingWords(w: string)
    requires w in LEAVING
    ensures w in KEYWORDS && IsName(w) && !IsUpper(w[0])
  {
  }

  lemma ValuesWords(w: string)
    requires w in VALUES
    ensures w in KEYWORDS && IsName(w) && !IsUpper(w[0])
  {
  }

  lemma ModulesWords(w: string)
    requires w in MODULES
    ensures w in KEYWORDS && IsName(w) && !IsUpper(w[0])
  {
  }

  lemma AttributesWords(w: string)
    requires w in ATTRIBUTES
    ensures w in KEYWORDS && IsName(w) && !IsUpper(w[0])
  {
  }

  lemma CallsWords(w: string)
    requires w in CALLS
    ensures w in KEYWORDS && IsName(w) && !IsUpper(w[0])
  {
  }

  // Each of these words is read as a keyword, whatever it is for.
  lemma KeywordsRead(s: string, i: nat, w: string)
    requires w in DEFINING + BRANCHING + LEAVING + VALUES + MODULES + ATTRIBUTES + CALLS && Apart(s, i, w)
    ensures i < |s| && Scan(s, i) == (Keyword, i + |w|)
  {
    hide IsName, Apart, Scan, StartsWith, KEYWORDS, DEFINING, BRANCHING, LEAVING, VALUES, MODULES, ATTRIBUTES, CALLS;
    if w in DEFINING {
      DefiningWords(w);
    } else if w in BRANCHING {
      BranchingWords(w);
    } else if w in LEAVING {
      LeavingWords(w);
    } else if w in VALUES {
      ValuesWords(w);
    } else if w in MODULES {
      ModulesWords(w);
    } else if w in ATTRIBUTES {
      AttributesWords(w);
    } else {
      CallsWords(w);
    }
    NamesRead(s, i, Keyword, w);
  }

  // ---------------------------------------------------------------- comments

  // A comment ends before the next newline.
  lemma CommentsRead(s: string, i: nat, n: nat)
    requires i < n <= |s| && s[i] == '#' && (forall k :: i < k < n ==> s[k] != '\n') && (n == |s| || s[n] == '\n')
    ensures Scan(s, i) == (Comment, n)
  {
    WhileExact(IsNotNewline, s, i + 1, n);
  }

  // A block comment begins at the start of a line, and ends with the first line that begins with =end.
  lemma BlockCommentsRead(s: string, i: nat, k: nat, n: nat)
    requires i + 6 <= k < n <= |s| && StartsWith(s, i, "=begin") && (i == 0 || s[i - 1] == '\n')
    requires EndLine(s, k) && (forall j :: i + 6 <= j < k ==> !EndLine(s, j))
    requires (forall j :: k < j < n ==> s[j] != '\n') && (n == |s| || s[n] == '\n')
    ensures Scan(s, i) == (Comment, n)
  {
    Chars(s, i, "=begin");
    assert s[i + 1..i + 6] == "begin";
    LineIsPassed(s, k, n);
    EndLineFound(s, i + 6, k);
    hide While, StringEnd, InterpolationEnd, NumberEnd, NameEnd, GlobalEnd, OperatorLength, BlockCommentEnd;
  }

  lemma LineIsPassed(s: string, k: nat, n: nat)
    requires k < n <= |s| && EndLine(s, k) && (forall j :: k < j < n ==> s[j] != '\n') && (n == |s| || s[n] == '\n')
    ensures k + 5 <= n && While(IsNotNewline, s, k + 5) == n
  {
    Chars(s, k + 1, "=end");
    assert n >= k + 5;
    WhileExact(IsNotNewline, s, k + 5, n);
  }

  lemma {:induction false} EndLineFound(s: string, i: nat, k: nat)
    requires i <= k && EndLine(s, k) && (forall j :: i <= j < k ==> !EndLine(s, j))
    ensures k + 5 <= |s| && BlockCommentEnd(s, i) == While(IsNotNewline, s, k + 5)
    decreases k - i
  {
    if i < k {
      assert !EndLine(s, i);
      EndLineFound(s, i + 1, k);
    }
  }

  // ---------------------------------------------------------------- sources made of tokens

  lemma TextRead(s: string, i: nat, kind: Kind, w: string)
    requires Spells(kind, w) && Apart(s, i, w)
    ensures i < |s| && Scan(s, i) == (kind, i + |w|) && kind != Eof && kind != Error
  {
    hide Scan, Apart, IsFloat, IsInteger, IsQuoted, IsName, IsWord, SpellsOperator;
    if kind in {Identifier, Keyword, Constant} {
      NamesRead(s, i, kind, w);
    } else if kind in {InstanceVariable, ClassVariable, GlobalVariable} {
      VariablesRead(s, i, kind, w);
    } else if kind in {StringDouble, StringSingle, SymbolName} {
      StringsRead(s, i, kind, w);
    } else {
      OtherTextRead(s, i, kind, w);
    }
  }

  lemma OtherTextRead(s: string, i: nat, kind: Kind, w: string)
    requires kind !in {Identifier, Keyword, Constant, InstanceVariable, ClassVariable, GlobalVariable}
    requires kind !in {StringDouble, StringSingle, SymbolName} && Spells(kind, w) && Apart(s, i, w)
    ensures i < |s| && Scan(s, i) == (kind, i + |w|)
  {
    hide Scan, IsFloat, IsInteger, SpellsOperator;
    if kind == IntegerNumber {
      IntegersRead(s, i, w);
    } else if kind == FloatNumber {
      FloatsRead(s, i, w);
    } else if kind == Operator {
      OperatorsRead(s, i, w);
    } else {
      RestRead(s, i, kind, w);
    }
  }

  datatype Word = Word(kind: Kind, text: string)

  /** The texts with a blank after each. */
  function Written(words: seq<Word>): string {
    if words == [] then "" else words[0].text + " " + Written(words[1..])
  }

  /** The tokens they are, if the first stands at i. */
  function TokensOf(words: seq<Word>, i: nat): seq<Token> {
    if words == [] then [Token(Eof, "", i, i)]
    else
      var w := words[0];
      [Token(w.kind, w.text, i, i + |w.text|)] + TokensOf(words[1..], i + |w.text| + 1)
  }

  lemma BlankSkipped(s: string, i: nat)
    requires i < |s| && s[i] == ' '
    ensures Tokenize(s, i) == Tokenize(s, i + 1)
  {
    assert NextToken(s, i) == NextToken(s, i + 1);
  }

  // A source of texts with blanks between them has exactly the tokens that they spell.
  lemma {:induction false} WrittenIsRead(s: string, i: nat, words: seq<Word>)
    requires i <= |s| && s[i..] == Written(words) && forall w | w in words :: Spells(w.kind, w.text)
    ensures Tokenize(s, i) == TokensOf(words, i)
    decreases |words|
  {
    hide Scan, Spells, NextToken, Apart, Written, Tokenize;
    if words == [] {
      NothingWritten(s, i);
      AtTheEnd(s, i);
    } else {
      var w := words[0];
      var n := i + |w.text|;
      FirstWritten(s, i, words);
      TextRead(s, i, w.kind, w.text);
      NextIsRead(s, i, w.kind, n);
      BlankSkipped(s, n);
      assert forall v | v in words[1..] :: v in words;
      WrittenIsRead(s, n + 1, words[1..]);
    }
  }

  lemma NothingWritten(s: string, i: nat)
    requires i <= |s| && s[i..] == Written([])
    ensures i == |s|
  {
  }

  // The first text stands at i, a blank after it, and then the others.
  lemma FirstWritten(s: string, i: nat, words: seq<Word>)
    requires words != [] && i <= |s| && s[i..] == Written(words)
    ensures var n := i + |words[0].text|;
            && n < |s| && s[i..n] == words[0].text && s[n] == ' ' && s[n + 1..] == Written(words[1..])
            && Apart(s, i, words[0].text)
  {
    var text, rest := words[0].text, Written(words[1..]);
    var n := i + |text|;
    assert s[i..] == text + ([' '] + rest);
    assert s[i..n] == s[i..][..|text|] == text;
    assert s[n] == s[i..][|text|] == ' ';
    assert s[n + 1..] == s[i..][|text| + 1..] == rest;
  }

  lemma AtTheEnd(s: string, i: nat)
    requires i == |s|
    ensures Tokenize(s, i) == [Token(Eof, "", i, i)]
  {
  }

  lemma NextIsRead(s: string, i: nat, kind: Kind, n: nat)
    requires i < n <= |s| && Scan(s, i) == (kind, n) && kind != Eof && kind != Error
    ensures Tokenize(s, i) == [Token(kind, s[i..n], i, n)] + Tokenize(s, n)
  {
    if IsBlank(s[i]) {
      BlanksBeginNothing(s, i);
    }
    hide Scan;
  }

  lemma BlanksBeginNothing(s: string, i: nat)
    requires i < |s| && IsBlank(s[i])
    ensures Scan(s, i).0 == Error
  {
  }
}
