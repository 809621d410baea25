/** The lexer: what each kind of token extends over, and that the tokens tile the source. */
module Lexer {

  datatype Kind =
    | Eof | Error | Newline | Comment
    | StringDouble | StringSingle | IntegerNumber | FloatNumber
    | SymbolName | InstanceVariable | ClassVariable | GlobalVariable
    | Identifier | Keyword | Constant
    | At | Operator

  datatype Token = Token(kind: Kind, lexeme: string, start: nat, end: nat)

  // ---------------------------------------------------------------- characters

  predicate IsBlank(c: char) {
    c == ' ' || c == '\t' || c == '\r'
  }

  predicate IsDigit(c: char) {
    '0' <= c <= '9'
  }

  predicate IsLower(c: char) {
    'a' <= c <= 'z'
  }

  predicate IsUpper(c: char) {
    'A' <= c <= 'Z'
  }

  predicate IsAlpha(c: char) {
    IsLower(c) || IsUpper(c)
  }

  predicate IsIdentContinue(c: char) {
    IsAlpha(c) || IsDigit(c) || c == '_'
  }

  predicate IsDigitOrUnderscore(c: char) {
    IsDigit(c) || c == '_'
  }

  predicate IsHexDigit(c: char) {
    IsDigit(c) || 'a' <= c <= 'f' || 'A' <= c <= 'F' || c == '_'
  }

  predicate IsBinaryDigit(c: char) {
    c == '0' || c == '1' || c == '_'
  }

  predicate IsOctalDigit(c: char) {
    '0' <= c <= '7' || c == '_'
  }

  predicate IsNotNewline(c: char) {
    c != '\n'
  }

  // ---------------------------------------------------------------- extents

  /** The character at i, or the character 0 past the end. */
  function Peek(s: string, i: nat): char {
    if i < |s| then s[i] else '\0'
  }

  /** The first place from i on where p fails. */
  function While(p: char -> bool, s: string, i: nat): (end: nat)
    requires i <= |s|
    ensures i <= end <= |s| && (forall k :: i <= k < end ==> p(s[k])) && (end < |s| ==> !p(s[end]))
    decreases |s| - i
  {
    if i < |s| && p(s[i]) then While(p, s, i + 1) else i
  }

  /** One step, or two over an escaped character. */
  function PastEscape(s: string, i: nat): (end: nat)
    requires i < |s|
    ensures i < end <= |s|
  {
    if i + 2 <= |s| then i + 2 else |s|
  }

  /** Past the brace that closes an interpolation of the given depth, or the end of the source. */
  function InterpolationEnd(s: string, i: nat, depth: nat): (end: nat)
    requires i <= |s|
    ensures i <= end <= |s|
    decreases |s| - i
  {
    if i == |s| || depth == 0 then i
    else if s[i] == '{' then InterpolationEnd(s, i + 1, depth + 1)
    else if s[i] == '}' then InterpolationEnd(s, i + 1, depth - 1)
    else if s[i] == '\\' then InterpolationEnd(s, PastEscape(s, i), depth)
    else InterpolationEnd(s, i + 1, depth)
  }

  /** The closing quote of a string whose inside begins at i, or the end of the source. */
  function StringEnd(quote: char, interpolates: bool, s: string, i: nat): (end: nat)
    requires i <= |s|
    ensures i <= end <= |s| && (end < |s| ==> s[end] == quote)
    decreases |s| - i
  {
    if i == |s| || s[i] == quote then i
    else if s[i] == '\\' then StringEnd(quote, interpolates, s, PastEscape(s, i))
    else if interpolates && s[i] == '#' && Peek(s, i + 1) == '{'
    then StringEnd(quote, interpolates, s, InterpolationEnd(s, i + 2, 1))
    else StringEnd(quote, interpolates, s, i + 1)
  }

  function ExponentEnd(s: string, i: nat): (end: nat)
    requires i < |s|
    ensures i < end <= |s|
  {
    While(IsDigitOrUnderscore, s, if Peek(s, i + 1) == '+' || Peek(s, i + 1) == '-' then i + 2 else i + 1)
  }

  /** Past a decimal number whose first digit is just before i. */
  function DecimalEnd(s: string, i: nat): (r: (Kind, nat))
    requires i <= |s|
    ensures i <= r.1 <= |s| && (r.0 == IntegerNumber || r.0 == FloatNumber)
  {
    var whole := While(IsDigitOrUnderscore, s, i);
    if Peek(s, whole) == '.' && IsDigit(Peek(s, whole + 1)) then
      var fraction := While(IsDigitOrUnderscore, s, whole + 1);
      (FloatNumber, if Peek(s, fraction) == 'e' || Peek(s, fraction) == 'E' then ExponentEnd(s, fraction) else fraction)
    else if Peek(s, whole) == 'e' || Peek(s, whole) == 'E' then (FloatNumber, ExponentEnd(s, whole))
    else (IntegerNumber, whole)
  }

  function NumberEnd(s: string, start: nat): (r: (Kind, nat))
    requires start < |s|
    ensures start < r.1 <= |s| && (r.0 == IntegerNumber || r.0 == FloatNumber)
  {
    var i := start + 1;
    var c := Peek(s, i);
    if s[start] == '0' && (c == 'x' || c == 'X') then (IntegerNumber, While(IsHexDigit, s, i + 1))
    else if s[start] == '0' && (c == 'b' || c == 'B') then (IntegerNumber, While(IsBinaryDigit, s, i + 1))
    else if s[start] == '0' && (c == 'o' || c == 'O') then (IntegerNumber, While(IsOctalDigit, s, i + 1))
    else DecimalEnd(s, i)
  }

  /** Names of methods and symbols may end in a question or exclamation mark. */
  function NameEnd(s: string, i: nat): (end: nat)
    requires i <= |s|
    ensures i <= end <= |s|
  {
    var end := While(IsIdentContinue, s, i);
    if Peek(s, end) == '?' || Peek(s, end) == '!' then end + 1 else end
  }

  const SPECIAL_GLOBALS := "!@;,./\\*<>$?~&`'+0123456789_"

  function GlobalEnd(s: string, i: nat): (end: nat)
    requires i <= |s|
    ensures i <= end <= |s|
  {
    if i == |s| then i
    else if s[i] in SPECIAL_GLOBALS then if s[i] == '_' then While(IsIdentContinue, s, i + 1) else i + 1
    else if IsAlpha(s[i]) then While(IsIdentContinue, s, i)
    else i
  }

  predicate StartsWith(s: string, i: nat, word: string)
    requires i <= |s|
  {
    i + |word| <= |s| && s[i..i + |word|] == word
  }

  /** Past the line that begins with =end, or the end of the source. */
  function BlockCommentEnd(s: string, i: nat): (end: nat)
    requires i <= |s|
    ensures i <= end <= |s|
    decreases |s| - i
  {
    if i == |s| then i
    else if s[i] == '\n' && StartsWith(s, i + 1, "=end") then While(IsNotNewline, s, i + 5)
    else BlockCommentEnd(s, i + 1)
  }

  // ---------------------------------------------------------------- operators

  /** Operators that have a form with an equals sign. */
  predicate TakesEquals(a: char) {
    || a == '+' || a == '-' || a == '*' || a == '/' || a == '%' || a == '^'
    || a == '=' || a == '!' || a == '<' || a == '>' || a == '&' || a == '|'
  }

  /** Operators that can be doubled. */
  predicate Doubles(a: char) {
    a == '*' || a == '=' || a == '<' || a == '>' || a == '&' || a == '|' || a == '.' || a == ':'
  }

  predicate IsDelimiter(a: char) {
    a == '(' || a == ')' || a == '[' || a == ']' || a == '{' || a == '}' || a == ',' || a == ';' || a == '?' || a == '~'
  }

  predicate IsOperator1(a: char) {
    TakesEquals(a) || Doubles(a) || IsDelimiter(a)
  }

  predicate IsOperator2(a: char, b: char) {
    || (b == '=' && TakesEquals(a))
    || (b == a && Doubles(a))
    || (b == '>' && (a == '-' || a == '='))
    || (b == '~' && (a == '=' || a == '!'))
  }

  predicate IsOperator3(a: char, b: char, c: char) {
    || (c == '=' && b == a && Doubles(a) && TakesEquals(a))
    || (a == '<' && b == '=' && c == '>')
    || (a == '.' && b == '.' && c == '.')
  }

  predicate SpellsOperator(op: string) {
    || (|op| == 1 && IsOperator1(op[0]))
    || (|op| == 2 && IsOperator2(op[0], op[1]))
    || (|op| == 3 && IsOperator3(op[0], op[1], op[2]))
  }

  /** The length of the longest operator at i. */
  function OperatorLength(s: string, i: nat): (n: nat)
    requires i < |s|
    ensures 1 <= n && i + n <= |s|
  {
    if i + 3 <= |s| && IsOperator3(s[i], s[i + 1], s[i + 2]) then 3
    else if i + 2 <= |s| && IsOperator2(s[i], s[i + 1]) then 2
    else 1
  }

  // No operator at i is longer, and what is taken is one.
  lemma LongestOperator(s: string, i: nat, op: string)
    requires i < |s| && IsOperator1(s[i])
    ensures SpellsOperator(s[i..i + OperatorLength(s, i)])
    ensures SpellsOperator(op) && StartsWith(s, i, op) ==> |op| <= OperatorLength(s, i)
  {
    if SpellsOperator(op) && StartsWith(s, i, op) {
      assert forall k :: 0 <= k < |op| ==> op[k] == s[i..i + |op|][k] == s[i + k];
    }
  }

  const KEYWORDS := {
    "def", "end", "class", "module", "if", "elsif", "else", "unless", "case", "when", "in", "while", "until", "for",
    "do",
    "begin", "rescue", "ensure", "raise", "return", "yield", "self", "super", "nil", "true", "false", "and", "or",
    "not",
    "then", "require", "require_relative", "load", "include", "extend", "prepend", "attr_reader", "attr_writer",
    "attr_accessor", "public", "private", "protected", "lambda", "proc", "puts", "print", "p", "alias", "defined?",
    "break", "next", "redo", "retry", "freeze"
  }

  // ---------------------------------------------------------------- one token

  /** The kind and the end of the token that begins at a character that is not blank. */
  function Scan(s: string, start: nat): (r: (Kind, nat))
    requires start < |s|
    ensures start < r.1 <= |s| && r.0 != Eof
  {
    var c, i := s[start], start + 1;
    if c == '\n' then (Newline, i)
    else if c == '#' then (Comment, While(IsNotNewline, s, i))
    else if c == '"' then Quoted(StringDouble, '"', true, s, i)
    else if c == '\'' then Quoted(StringSingle, '\'', false, s, i)
    else if IsDigit(c) then NumberEnd(s, start)
    else if c == ':' && (IsAlpha(Peek(s, i)) || Peek(s, i) == '_') then (SymbolName, NameEnd(s, i))
    else if c == ':' && Peek(s, i) == '"' then Quoted(SymbolName, '"', false, s, i + 1)
    else if c == '@' then
      if Peek(s, i) == '@' then (ClassVariable, While(IsIdentContinue, s, i + 1))
      else if IsAlpha(Peek(s, i)) || Peek(s, i) == '_' then (InstanceVariable, While(IsIdentContinue, s, i))
      else (At, i)
    else if c == '$' then (GlobalVariable, GlobalEnd(s, i))
    else if IsLower(c) || c == '_' then
      var end := NameEnd(s, i);
      (if s[start..end] in KEYWORDS then Keyword else Identifier, end)
    else if IsUpper(c) then (Constant, While(IsIdentContinue, s, i))
    else if BlockCommentBegins(s, start) then (Comment, BlockCommentEnd(s, i + 5))
    else if IsOperator1(c) then (Operator, start + OperatorLength(s, start))
    else (Error, i)
  }

  function Quoted(kind: Kind, quote: char, interpolates: bool, s: string, i: nat): (r: (Kind, nat))
    requires i <= |s|
    ensures i <= r.1 <= |s| && (r.0 == kind || r.0 == Error)
  {
    var end := StringEnd(quote, interpolates, s, i);
    if end == |s| then (Error, end) else (kind, end + 1)
  }

  /** =begin at the start of a line. */
  predicate BlockCommentBegins(s: string, start: nat)
    requires start < |s|
  {
    s[start] == '=' && (start == 0 || s[start - 1] == '\n') && StartsWith(s, start + 1, "begin")
  }

  /** A line that begins with =end follows. */
  predicate EndLine(s: string, k: nat) {
    k < |s| && s[k] == '\n' && StartsWith(s, k + 1, "=end")
  }

  /** A block comment whose inside begins at i has an end. */
  predicate Closed(s: string, i: nat) {
    exists k :: i <= k < |s| && EndLine(s, k)
  }

  /** A token is complained about if it is an error, or a block comment that is not closed. */
  predicate Faulty(s: string, kind: Kind, start: nat)
    requires start < |s|
  {
    kind == Error || (kind == Comment && s[start] == '=' && !Closed(s, start + 6))
  }

  /** The spans of the faulty tokens, in order. */
  function Complaints(s: string, ts: seq<Token>): seq<(nat, nat)> {
    if ts == [] then []
    else
      var t := ts[0];
      (if t.start < |s| && Faulty(s, t.kind, t.start) then [(t.start, t.end)] else []) + Complaints(s, ts[1..])
  }

  function NextToken(s: string, i: nat): (t: Token)
    requires i <= |s|
    ensures i <= t.start <= t.end <= |s| && t.lexeme == s[t.start..t.end]
    ensures (forall k :: i <= k < t.start ==> IsBlank(s[k])) && (t.start < |s| ==> !IsBlank(s[t.start]))
    ensures if t.kind == Eof then t.start == t.end == |s| else t.start < t.end
  {
    var start := While(IsBlank, s, i);
    if start == |s| then Token(Eof, "", start, start)
    else
      var (kind, end) := Scan(s, start);
      Token(kind, s[start..end], start, end)
  }

  /** All tokens from i on, up to and with the end of the source. */
  function Tokenize(s: string, i: nat): (ts: seq<Token>)
    requires i <= |s|
    ensures ts != []
    decreases |s| - i
  {
    var t := NextToken(s, i);
    if t.kind == Eof then [t] else [t] + Tokenize(s, t.end)
  }

  // ---------------------------------------------------------------- the tiling

  /** Tokens in order from i on: non-empty, equal to their slices, with only blanks between them. */
  ghost predicate Tiles(s: string, i: nat, ts: seq<Token>) {
    && ts != [] && i <= |s|
    && (forall k :: 0 <= k < |ts| ==> TokenFits(s, if k == 0 then i else ts[k - 1].end, ts[k], k == |ts| - 1))
  }

  ghost predicate TokenFits(s: string, i: int, t: Token, last: bool) {
    && 0 <= i <= t.start <= t.end <= |s| && t.lexeme == s[t.start..t.end]
    && (forall k :: i <= k < t.start ==> IsBlank(s[k]))
    && (last <==> t.kind == Eof)
    && if last then t.start == t.end == |s| else t.start < t.end
  }

  lemma {:induction false} TokensTile(s: string, i: nat)
    requires i <= |s|
    ensures Tiles(s, i, Tokenize(s, i))
    decreases |s| - i
  {
    hide NextToken;
    var t, ts := NextToken(s, i), Tokenize(s, i);
    if t.kind == Eof {
      assert TokenFits(s, i, t, true);
    } else {
      TokensTile(s, t.end);
      var rest := Tokenize(s, t.end);
      assert TokenFits(s, i, t, false);
      forall k | 0 <= k < |ts|
        ensures TokenFits(s, if k == 0 then i else ts[k - 1].end, ts[k], k == |ts| - 1)
      {
        if k > 0 {
          var j := k - 1;
          assert ts[k] == rest[j] && TokenFits(s, if j == 0 then t.end else rest[j - 1].end, rest[j], j == |rest| - 1);
        }
      }
    }
  }

  /** The source put together again, with the text between the tokens. */
  function Spelled(s: string, i: nat, ts: seq<Token>): string
    decreases |ts|
  {
    if ts == [] then ""
    else (if i <= ts[0].start <= |s| then s[i..ts[0].start] else "") + ts[0].lexeme + Spelled(s, ts[0].end, ts[1..])
  }

  // Nothing is lost: tokens and the blanks between them spell the source.
  lemma {:induction false} TokensSpellSource(s: string, i: nat)
    requires i <= |s|
    ensures Spelled(s, i, Tokenize(s, i)) == s[i..]
    decreases |s| - i
  {
    hide NextToken;
    var t := NextToken(s, i);
    if t.kind != Eof {
      TokensSpellSource(s, t.end);
      var rest := Tokenize(s, t.end);
      assert ([t] + rest)[1..] == rest;
      assert s[i..] == s[i..t.start] + s[t.start..t.end] + s[t.end..];
    } else {
      assert [t][1..] == [] && Spelled(s, t.end, []) == "";
      assert s[i..|s|] + "" + "" == s[i..];
    }
  }

  // An identifier, keyword or constant ends where no identifier character follows.
  lemma NamesAreMaximal(s: string, i: nat)
    requires i <= |s|
    ensures var t := NextToken(s, i);
            t.kind == Constant || ((t.kind == Identifier || t.kind == Keyword) && IsIdentContinue(s[t.end - 1]))
            ==> t.end == |s| || !IsIdentContinue(s[t.end])
  {
  }

  lemma NoComplaints(s: string)
    ensures Complaints(s, []) == []
  {
  }

  lemma BlockCommentsBeginAlike(s: string, start: nat)
    requires start < |s| && BlockCommentBegins(s, start)
    ensures s[start] == '='
  {
  }

  lemma {:induction false} ComplaintsAdd(s: string, ts: seq<Token>, t: Token)
    ensures Complaints(s, ts + [t]) == Complaints(s, ts) + Complaints(s, [t])
  {
    if ts == [] {
      assert [] + [t] == [t];
    } else {
      assert (ts + [t])[1..] == ts[1..] + [t];
      ComplaintsAdd(s, ts[1..], t);
    }
  }

  // ---------------------------------------------------------------- the lexer, with its position

  class SourceLexer {
    const source: string
    var pos: nat
    var diagnostics: seq<(nat, nat)>  // the spans complained about

    ghost predicate Valid()
      reads this
    {
      pos <= |source|
    }

    constructor (source: string)
      ensures Valid() && this.source == source && pos == 0 && diagnostics == []
    {
      this.source, pos, diagnostics := source, 0, [];
    }

    method Advance() returns (c: char)
      requires pos < |source|
      modifies this`pos
      ensures Valid() && pos == old(pos) + 1 && c == source[old(pos)]
    {
      c := source[pos];
      pos := pos + 1;
    }

    /** Take the next character if it is c. */
    method Eat(c: char) returns (ok: bool)
      requires Valid() && c != '\0'
      modifies this`pos
      ensures Valid() && ok == (Peek(source, old(pos)) == c) && pos == old(pos) + if ok then 1 else 0
    {
      ok := pos < |source| && source[pos] == c;
      if ok {
        pos := pos + 1;
      }
    }

    method AdvanceWhile(p: char -> bool)
      requires Valid()
      modifies this`pos
      ensures Valid() && pos == While(p, source, old(pos))
    {
      while pos < |source| && p(source[pos])
        invariant Valid() && While(p, source, pos) == While(p, source, old(pos))
        decreases |source| - pos
      {
        pos := pos + 1;
      }
    }

    /** Over a backslash, and over the character after it if there is one. */
    method SkipEscape()
      requires pos < |source|
      modifies this`pos
      ensures Valid() && pos == PastEscape(source, old(pos))
    {
      var backslash := Advance();
      if pos < |source| {
        var escaped := Advance();
      }
    }

    method SkipInterpolation()
      requires Valid()
      modifies this`pos
      ensures Valid() && pos == InterpolationEnd(source, old(pos), 1)
    {
      var depth := 1;
      while pos < |source| && depth > 0
        invariant Valid() && depth >= 0
        invariant InterpolationEnd(source, pos, depth) == InterpolationEnd(source, old(pos), 1)
        decreases |source| - pos
      {
        if source[pos] == '\\' {
          SkipEscape();
        } else {
          depth := if source[pos] == '{' then depth + 1 else if source[pos] == '}' then depth - 1 else depth;
          pos := pos + 1;
        }
      }
    }

    // One diagnostic for a string that is not closed.
    method LexQuoted(kind: Kind, quote: char, interpolates: bool, start: nat) returns (k: Kind)
      requires Valid() && start <= pos && kind != Error && kind != Comment
      modifies this
      ensures Valid() && (k, pos) == Quoted(kind, quote, interpolates, source, old(pos)) && (k == kind || k == Error)
      ensures diagnostics == old(diagnostics) + if k == Error then [(start, pos)] else []
    {
      while pos < |source| && source[pos] != quote
        invariant Valid() && diagnostics == old(diagnostics)
        invariant StringEnd(quote, interpolates, source, pos) == StringEnd(quote, interpolates, source, old(pos))
        decreases |source| - pos
      {
        if source[pos] == '\\' {
          SkipEscape();
        } else if interpolates && source[pos] == '#' && Peek(source, pos + 1) == '{' {
          pos := pos + 2;
          SkipInterpolation();
        } else {
          pos := pos + 1;
        }
      }
      if pos == |source| {
        diagnostics := diagnostics + [(start, pos)];
        return Error;
      }
      pos := pos + 1;
      return kind;
    }

    method LexExponent()
      requires pos < |source|
      modifies this`pos
      ensures Valid() && pos == ExponentEnd(source, old(pos))
    {
      var e := Advance();
      if Peek(source, pos) == '+' || Peek(source, pos) == '-' {
        pos := pos + 1;
      }
      AdvanceWhile(IsDigitOrUnderscore);
    }

    method LexNumber(start: nat) returns (kind: Kind)
      requires Valid() && pos == start + 1
      modifies this`pos
      ensures Valid() && (kind, pos) == NumberEnd(source, start)
    {
      hide DecimalEnd;
      var c := Peek(source, pos);
      if source[start] == '0' && (c == 'x' || c == 'X') {
        pos := pos + 1;
        AdvanceWhile(IsHexDigit);
        return IntegerNumber;
      } else if source[start] == '0' && (c == 'b' || c == 'B') {
        pos := pos + 1;
        AdvanceWhile(IsBinaryDigit);
        return IntegerNumber;
      } else if source[start] == '0' && (c == 'o' || c == 'O') {
        pos := pos + 1;
        AdvanceWhile(IsOctalDigit);
        return IntegerNumber;
      }
      kind := LexDecimal();
    }

    method LexDecimal() returns (kind: Kind)
      requires Valid()
      modifies this`pos
      ensures Valid() && (kind, pos) == DecimalEnd(source, old(pos))
    {
      AdvanceWhile(IsDigitOrUnderscore);
      if Peek(source, pos) == '.' && IsDigit(Peek(source, pos + 1)) {
        pos := pos + 1;
        AdvanceWhile(IsDigitOrUnderscore);
        if Peek(source, pos) == 'e' || Peek(source, pos) == 'E' {
          LexExponent();
        }
        return FloatNumber;
      }
      if Peek(source, pos) == 'e' || Peek(source, pos) == 'E' {
        LexExponent();
        return FloatNumber;
      }
      return IntegerNumber;
    }

    method LexName()
      requires Valid()
      modifies this`pos
      ensures Valid() && pos == NameEnd(source, old(pos))
    {
      AdvanceWhile(IsIdentContinue);
      if Peek(source, pos) == '?' || Peek(source, pos) == '!' {
        pos := pos + 1;
      }
    }

    method LexGlobal()
      requires Valid()
      modifies this`pos
      ensures Valid() && pos == GlobalEnd(source, old(pos))
    {
      if pos == |source| {
        return;
      }
      if source[pos] in SPECIAL_GLOBALS {
        var c := Advance();
        if c == '_' {
          AdvanceWhile(IsIdentContinue);
        }
      } else if IsAlpha(source[pos]) {
        AdvanceWhile(IsIdentContinue);
      }
    }

    method SkipWord(i: nat, word: string)
      requires pos == i <= |source| && StartsWith(source, i, word)
      modifies this`pos
      ensures Valid() && pos == i + |word|
    {
      pos := pos + |word|;
    }

    method LexBlockComment(start: nat)
      requires start < |source| && pos == start + 1 && BlockCommentBegins(source, start)
      modifies this
      ensures Valid() && pos == BlockCommentEnd(source, start + 6)
      ensures diagnostics == old(diagnostics) + if Closed(source, start + 6) then [] else [(start, pos)]
    {
      hide While, StartsWith;
      SkipWord(start + 1, "begin");
      var done := false;
      while !done
        invariant Valid() && start + 6 <= pos
        invariant !done ==> diagnostics == old(diagnostics) && forall k :: start + 6 <= k < pos ==> !EndLine(source, k)
        invariant done ==>
                    diagnostics == old(diagnostics) + if Closed(source, start + 6) then [] else [(start, pos)]
        invariant if done then pos == BlockCommentEnd(source, start + 6)
                  else BlockCommentEnd(source, pos) == BlockCommentEnd(source, start + 6)
        decreases |source| - pos, !done
      {
        if pos == |source| {
          diagnostics := diagnostics + [(start, pos)];
          done := true;
        } else {
          var c := Advance();
          if c == '\n' && StartsWith(source, pos, "=end") {
            assert EndLine(source, pos - 1);
            SkipWord(pos, "=end");
            AdvanceWhile(IsNotNewline);
            done := true;
          }
        }
      }
    }

    // The nested tests take the longest operator.
    method LexOperator(start: nat)
      requires Valid() && pos == start + 1 && IsOperator1(source[start])
      modifies this`pos
      ensures Valid() && pos == start + OperatorLength(source, start)
    {
      var c := source[start];
      if c == '=' || c == '!' || c == '<' || c == '>' {
        LexComparison(start);
      } else if c == '*' || c == '&' || c == '|' {
        LexDoubled(c);
        if pos == start + 1 {
          var ok := Eat('=');
        }
      } else if c == '.' || c == ':' {
        var ok := Eat(c);
        if ok && c == '.' {
          ok := Eat(c);
        }
      } else if TakesEquals(c) {
        var ok := Eat('=');
        if !ok && c == '-' {
          ok := Eat('>');
        }
      }
    }

    method LexComparison(start: nat)
      requires Valid() && pos == start + 1
      requires source[start] == '=' || source[start] == '!' || source[start] == '<' || source[start] == '>'
      modifies this`pos
      ensures Valid() && pos == start + OperatorLength(source, start)
    {
      var c := source[start];
      var ok := Eat('=');
      if c == '=' {
        if ok {
          ok := Eat('=');
        } else {
          ok := Eat('~');
          if !ok {
            ok := Eat('>');
          }
        }
      } else if c == '!' {
        if !ok {
          ok := Eat('~');
        }
      } else if ok {
        if c == '<' {
          ok := Eat('>');
        }
      } else {
        LexDoubled(c);
      }
    }

    /** A doubled character, and an equals sign after it. */
    method LexDoubled(c: char)
      requires Valid() && c != '\0'
      modifies this`pos
      ensures Valid()
      ensures pos
              == old(pos) + if Peek(source, old(pos)) != c then 0
                            else if Peek(source, old(pos) + 1) != '=' then 1 else 2
    {
      var ok := Eat(c);
      if ok {
        ok := Eat('=');
      }
    }

    method ScanToken(start: nat) returns (kind: Kind)
      requires Valid() && pos == start < |source|
      modifies this
      ensures Valid() && (kind, pos) == Scan(source, start)
      ensures diagnostics == old(diagnostics) + if Faulty(source, kind, start) then [(start, pos)] else []
    {
      hide While, StringEnd, InterpolationEnd, NumberEnd, NameEnd, GlobalEnd, BlockCommentEnd, OperatorLength,
           IsOperator1, BlockCommentBegins, Closed, Quoted;
      var c := Advance();
      if c == '\n' {
        return Newline;
      } else if c == '#' {
        AdvanceWhile(IsNotNewline);
        return Comment;
      } else if c == '"' {
        kind := LexQuoted(StringDouble, '"', true, start);
        return;
      } else if c == '\'' {
        kind := LexQuoted(StringSingle, '\'', false, start);
        return;
      } else if IsDigit(c) {
        kind := LexNumber(start);
        return;
      } else if c == ':' && (IsAlpha(Peek(source, pos)) || Peek(source, pos) == '_') {
        LexName();
        return SymbolName;
      } else if c == ':' && Peek(source, pos) == '"' {
        pos := pos + 1;
        kind := LexQuoted(SymbolName, '"', false, start);
        return;
      } else if c == '@' {
        kind := LexAt();
        return;
      } else if c == '$' {
        LexGlobal();
        return GlobalVariable;
      } else if IsLower(c) || c == '_' {
        LexName();
        return if source[start..pos] in KEYWORDS then Keyword else Identifier;
      } else if IsUpper(c) {
        AdvanceWhile(IsIdentContinue);
        return Constant;
      } else if BlockCommentBegins(source, start) {
        BlockCommentsBeginAlike(source, start);
        LexBlockComment(start);
        return Comment;
      } else if IsOperator1(c) {
        LexOperator(start);
        return Operator;
      }
      diagnostics := diagnostics + [(start, pos)];
      return Error;
    }

    method LexAt() returns (kind: Kind)
      requires Valid()
      modifies this`pos
      ensures Valid()
      ensures (kind, pos) == if Peek(source, old(pos)) == '@'
                             then (ClassVariable, While(IsIdentContinue, source, old(pos) + 1))
                             else if IsAlpha(Peek(source, old(pos))) || Peek(source, old(pos)) == '_'
                             then (InstanceVariable, While(IsIdentContinue, source, old(pos)))
                             else (At, old(pos))
    {
      if Peek(source, pos) == '@' {
        pos := pos + 1;
        AdvanceWhile(IsIdentContinue);
        return ClassVariable;
      } else if IsAlpha(Peek(source, pos)) || Peek(source, pos) == '_' {
        AdvanceWhile(IsIdentContinue);
        return InstanceVariable;
      }
      return At;
    }

    method ReadToken() returns (t: Token)
      requires Valid()
      modifies this
      ensures Valid() && t == NextToken(source, old(pos)) && pos == t.end
      ensures diagnostics == old(diagnostics) + Complaints(source, [t])
    {
      AdvanceWhile(IsBlank);
      if pos == |source| {
        return Token(Eof, "", pos, pos);
      }
      var start := pos;
      var kind := ScanToken(start);
      return Token(kind, source[start..pos], start, pos);
    }

    method ReadAll() returns (ts: seq<Token>)
      requires Valid()
      modifies this
      ensures Valid() && ts == Tokenize(source, old(pos))
      ensures diagnostics == old(diagnostics) + Complaints(source, ts)
    {
      hide Complaints, NextToken;
      NoComplaints(source);
      ts := [];
      var done := false;
      while !done
        invariant Valid() && diagnostics == old(diagnostics) + Complaints(source, ts)
        invariant if done then ts == Tokenize(source, old(pos))
                  else ts + Tokenize(source, pos) == Tokenize(source, old(pos))
        decreases |source| - pos, !done
      {
        var before := ts;
        var t := ReadToken();
        ComplaintsAdd(source, ts, t);
        ts := ts + [t];
        done := t.kind == Eof;
      }
    }
  }
}
