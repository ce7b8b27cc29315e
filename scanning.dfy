/**
 * What the jox lexer computes (jox/Parsing/Lexer.cs), as functions of the
 * source text: one step of `LexToken` from a cursor, the scan loop of `Lex`,
 * and the token list with its end-of-file token. The imperative `Lexer` class
 * in module Lexing is proved to compute exactly these.
 */
module Scanning {
  import opened Wrappers
  import opened Values
  import opened Tokens

  /** A report the lexer makes through its error hook: a line and a message. */
  datatype LexError = LexError(line: nat, message: string)

  /** The two messages the lexer reports. */
  const UnterminatedMessage: string := "Unterminated string."

  function UnexpectedMessage(c: char): string {
    "Unexpected character '" + [c] + "'"
  }

  /** The effect of one `LexToken` call started at a cursor. */
  datatype Lexed = Lexed(next: nat, line: nat, token: Option<Token>, error: Option<LexError>)

  /** The scan loop's output from a cursor to the end of the text. */
  datatype Scan = Scan(tokens: seq<Token>, errors: seq<LexError>, line: nat)

  // ASCII stand-ins for char.IsDigit and char.IsLetter.
  predicate IsDigit(c: char) { '0' <= c <= '9' }
  predicate IsAlpha(c: char) { 'a' <= c <= 'z' || 'A' <= c <= 'Z' || c == '_' }
  predicate IsAlphaNumeric(c: char) { IsAlpha(c) || IsDigit(c) }

  /** The character classes the lexer's scanning loops run over. */
  datatype CharClass = Digits | Word | NotNewline | NotQuote

  predicate InClass(cls: CharClass, c: char) {
    match cls
    case Digits => IsDigit(c)
    case Word => IsAlphaNumeric(c)
    case NotNewline => c != '\n'
    case NotQuote => c != '"'
  }

  /** `Peek`: the character at `i`, or '\0' at and past the end. */
  function CharAt(src: string, i: nat): (c: char)
    ensures i < |src| ==> c == src[i]
    ensures i >= |src| ==> c == '\0'
  {
    if i < |src| then src[i] else '\0'
  }

  /** The number of newline characters in `s`. */
  function Newlines(s: string): nat {
    if s == [] then 0 else (if s[0] == '\n' then 1 else 0) + Newlines(s[1..])
  }

  lemma {:induction false} NewlinesAppend(a: string, b: string)
    ensures Newlines(a + b) == Newlines(a) + Newlines(b)
  {
    if a == [] {
      assert a + b == b;
    } else {
      assert (a + b)[1..] == a[1..] + b;
      NewlinesAppend(a[1..], b);
    }
  }

  lemma NewlinesOne(c: char)
    ensures Newlines([c]) == if c == '\n' then 1 else 0
  {
    assert [c][1..] == [];
  }

  lemma NewlinesSplit(s: string, i: nat, j: nat, k: nat)
    requires i <= j <= k <= |s|
    ensures Newlines(s[i..k]) == Newlines(s[i..j]) + Newlines(s[j..k])
  {
    assert s[i..k] == s[i..j] + s[j..k];
    NewlinesAppend(s[i..j], s[j..k]);
  }

  /**
   * Where a loop `while (InClass(cls, Peek()) && !AtEof()) EatChar();` started
   * at `i` stops: the first position from `i` on that is the end or is outside `cls`.
   */
  function Span(src: string, i: nat, cls: CharClass): (j: nat)
    requires i <= |src|
    ensures i <= j <= |src|
    ensures j == |src| || !InClass(cls, src[j])
    decreases |src| - i
  {
    if i == |src| || !InClass(cls, src[i]) then i else Span(src, i + 1, cls)
  }

  /** Every character `Span` passes over is in the class. */
  lemma {:induction false} SpanRun(src: string, i: nat, cls: CharClass)
    requires i <= |src|
    ensures forall k :: i <= k < Span(src, i, cls) ==> InClass(cls, src[k])
    decreases |src| - i
  {
    if i < |src| && InClass(cls, src[i]) {
      SpanRun(src, i + 1, cls);
    }
  }

  /** `Span` is the first stopping position: a run of `p` up to `j` that stops at `j` ends there. */
  lemma {:induction false} SpanStopsAt(src: string, i: nat, j: nat, cls: CharClass)
    requires i <= j <= |src|
    requires forall k :: i <= k < j ==> InClass(cls, src[k])
    requires j == |src| || !InClass(cls, src[j])
    ensures Span(src, i, cls) == j
    decreases j - i
  {
    if i < j {
      SpanStopsAt(src, i + 1, j, cls);
    }
  }

  /** A slice of only digits, only letters, or no newline has no newline. */
  lemma NoNewlines(src: string, i: nat, j: nat, cls: CharClass)
    requires i <= j <= |src|
    requires forall k :: i <= k < j ==> InClass(cls, src[k])
    requires !InClass(cls, '\n')
    ensures Newlines(src[i..j]) == 0
    decreases j - i
  {
    if i < j {
      assert src[i..j][1..] == src[i + 1..j];
      NoNewlines(src, i + 1, j, cls);
    }
  }

  /** `Trim('"')`: strip every leading and every trailing double quote. */
  function TrimQuotes(s: string): string {
    TrimTrailingQuotes(TrimLeadingQuotes(s))
  }

  function TrimLeadingQuotes(s: string): string {
    if |s| > 0 && s[0] == '"' then TrimLeadingQuotes(s[1..]) else s
  }

  function TrimTrailingQuotes(s: string): string {
    if |s| > 0 && s[|s| - 1] == '"' then TrimTrailingQuotes(s[..|s| - 1]) else s
  }

  /** Trimming the lexeme of a string literal leaves exactly the text between its quotes. */
  lemma {:induction false} TrimQuotedText(inner: string)
    requires forall k :: 0 <= k < |inner| ==> inner[k] != '"'
    ensures TrimQuotes(['"'] + inner + ['"']) == inner
  {
    var s := ['"'] + inner + ['"'];
    assert s[1..] == inner + ['"'];
    if inner == [] {
      assert s[1..] == ['"'] && s[1..][1..] == [];
      assert TrimLeadingQuotes(s) == TrimLeadingQuotes(s[1..][1..]) == [];
    } else {
      assert (inner + ['"'])[0] == inner[0];
      assert TrimLeadingQuotes(s) == inner + ['"'];
      assert (inner + ['"'])[..|inner|] == inner;
      assert inner[|inner| - 1] != '"';
      assert TrimTrailingQuotes(inner + ['"']) == TrimTrailingQuotes(inner) == inner;
    }
  }

  /** Trimming a string literal's lexeme from `pos` to its closing quote leaves the text between. */
  lemma TrimStringLexeme(src: string, pos: nat, close: nat)
    requires pos < close < |src| && src[pos] == '"' && close == Span(src, pos + 1, NotQuote)
    ensures TrimQuotes(src[pos..close + 1]) == src[pos + 1..close]
  {
    SpanRun(src, pos + 1, NotQuote);
    var inner := src[pos + 1..close];
    assert src[pos..close + 1] == ['"'] + inner + ['"'];
    TrimQuotedText(inner);
  }

  /** The value of a digit character. */
  function DigitValue(c: char): (d: nat)
    ensures d < 10
  {
    if IsDigit(c) then c as int - '0' as int else 0
  }

  /** The value of a string of decimal digits. */
  function DigitsValue(s: string): nat {
    if s == [] then 0 else 10 * DigitsValue(s[..|s| - 1]) + DigitValue(s[|s| - 1])
  }

  /** The value of the digits after a decimal point: 0.d1d2... */
  function FractionValue(s: string): (r: real)
    ensures 0.0 <= r <= 1.0
  {
    if s == [] then 0.0 else (DigitValue(s[0]) as real + FractionValue(s[1..])) / 10.0
  }

  /** The index of the first '.' in `s`, or |s|. */
  function DotIndex(s: string): (d: nat)
    ensures d <= |s|
  {
    if s == [] then 0 else if s[0] == '.' then 0 else 1 + DotIndex(s[1..])
  }

  /**
   * `double.Parse` of a number lexeme `digits` or `digits.digits`, as the
   * exact decimal value (the rounding to a double is not modelled).
   */
  function NumberValue(s: string): real {
    var d := DotIndex(s);
    if d == |s| then DigitsValue(s) as real
    else DigitsValue(s[..d]) as real + FractionValue(s[d + 1..])
  }

  /** `AddToken`: a token whose lexeme is the slice [start, end) of the source. */
  function Emit(src: string, start: nat, end: nat, line: nat, kind: TokenType, literal: Value): Lexed
    requires start <= end <= |src|
  {
    Lexed(end, line, Some(Token(kind, src[start..end], literal, line)), None)
  }

  /** The characters that start a one- or two-character operator. */
  predicate IsOperatorStart(c: char) {
    c == '!' || c == '=' || c == '<' || c == '>'
  }

  /** The kind of `!`, `=`, `<` or `>`, with or without a following `=`. */
  function OperatorKind(c: char, withEqual: bool): TokenType
    requires IsOperatorStart(c)
  {
    match c
    case '!' => if withEqual then BANG_EQUAL else BANG
    case '=' => if withEqual then EQUAL_EQUAL else EQUAL
    case '<' => if withEqual then LESS_EQUAL else LESS
    case '>' => if withEqual then GREATER_EQUAL else GREATER
  }

  /** `LexToken` started at `pos` with the line counter at `line`. */
  function Step(src: string, pos: nat, line: nat): (r: Lexed)
    requires pos < |src|
    ensures pos < r.next <= |src|
  {
    var c := src[pos];
    var p := pos + 1;
    match c
    case '(' => Emit(src, pos, p, line, LEFT_PAREN, Nil)
    case ')' => Emit(src, pos, p, line, RIGHT_PAREN, Nil)
    case '{' => Emit(src, pos, p, line, LEFT_BRACE, Nil)
    case '}' => Emit(src, pos, p, line, RIGHT_BRACE, Nil)
    case ',' => Emit(src, pos, p, line, COMMA, Nil)
    case '.' => Emit(src, pos, p, line, DOT, Nil)
    case ';' => Emit(src, pos, p, line, SEMICOLON, Nil)
    case '+' => Emit(src, pos, p, line, PLUS, Nil)
    case '-' => Emit(src, pos, p, line, MINUS, Nil)
    case '*' => Emit(src, pos, p, line, STAR, Nil)
    case '!' => OperatorStep(src, pos, line)
    case '=' => OperatorStep(src, pos, line)
    case '<' => OperatorStep(src, pos, line)
    case '>' => OperatorStep(src, pos, line)
    case '/' =>
      if p < |src| && src[p] == '/' then Lexed(Span(src, p + 1, NotNewline), line, None, None)
      else Emit(src, pos, p, line, SLASH, Nil)
    case ' ' => Lexed(p, line, None, None)
    case '\r' => Lexed(p, line, None, None)
    case '\t' => Lexed(p, line, None, None)
    case '\n' => Lexed(p, line + 1, None, None)
    case '"' => StringStep(src, pos, line)
    case _ =>
      if IsDigit(c) then NumberStep(src, pos, line)
      else if IsAlpha(c) then IdentifierStep(src, pos, line)
      else Lexed(p, line, None, Some(LexError(line, UnexpectedMessage(c))))
  }

  /** One of `!`, `=`, `<`, `>`, taking a following `=` along (`MatchNext('=')`). */
  function OperatorStep(src: string, pos: nat, line: nat): (r: Lexed)
    requires pos < |src| && IsOperatorStart(src[pos])
    ensures pos < r.next <= |src|
  {
    var withEqual := pos + 1 < |src| && src[pos + 1] == '=';
    Emit(src, pos, if withEqual then pos + 2 else pos + 1, line, OperatorKind(src[pos], withEqual), Nil)
  }

  /**
   * `HandleString` after the opening quote at `pos`. The literal is the source's
   * `Trim('"')` of the lexeme, which is the text between the quotes (`TrimStringLexeme`).
   */
  function StringStep(src: string, pos: nat, line: nat): (r: Lexed)
    requires pos < |src| && src[pos] == '"'
    ensures pos < r.next <= |src|
  {
    var close := Span(src, pos + 1, NotQuote);
    var endLine := line + Newlines(src[pos + 1..close]);
    if close == |src| then Lexed(close, endLine, None, Some(LexError(endLine, UnterminatedMessage)))
    else Emit(src, pos, close + 1, endLine, STRING, Str(src[pos + 1..close]))
  }

  /** Where `HandleNumber` stops: digits, then `.digits` only if a digit follows the dot. */
  function NumberEnd(src: string, pos: nat): (end: nat)
    requires pos < |src|
    ensures pos < end <= |src|
  {
    var intEnd := Span(src, pos + 1, Digits);
    if CharAt(src, intEnd) == '.' && IsDigit(CharAt(src, intEnd + 1)) then Span(src, intEnd + 1, Digits)
    else intEnd
  }

  /** `HandleNumber` after the first digit at `pos`. */
  function NumberStep(src: string, pos: nat, line: nat): (r: Lexed)
    requires pos < |src| && IsDigit(src[pos])
    ensures pos < r.next <= |src|
  {
    var end := NumberEnd(src, pos);
    Emit(src, pos, end, line, NUMBER, Num(NumberValue(src[pos..end])))
  }

  /** `HandleIdentifier` after the first letter at `pos`: the whole word, then the keyword lookup. */
  function IdentifierStep(src: string, pos: nat, line: nat): (r: Lexed)
    requires pos < |src| && IsAlpha(src[pos])
    ensures pos < r.next <= |src|
  {
    var end := Span(src, pos + 1, Word);
    Emit(src, pos, end, line, IdentifierKind(src[pos..end]), Nil)
  }

  /**
   * What every step promises: the line counter moves by the newlines passed
   * over, a token's lexeme is exactly the text consumed, its line is the line
   * reached, its kind is never EOF, and a step yields a token or a report, not both.
   */
  ghost predicate StepWellFormed(src: string, pos: nat, line: nat, r: Lexed)
    requires pos < r.next <= |src|
  {
    && r.line == line + Newlines(src[pos..r.next])
    && (r.token.Some? ==> r.token.value.lexeme == src[pos..r.next])
    && (r.token.Some? ==> r.token.value.kind != EOF && r.token.value.line == r.line)
    && (r.token.Some? ==> r.error.None?)
  }

  lemma OperatorStepFacts(src: string, pos: nat, line: nat)
    requires pos < |src| && IsOperatorStart(src[pos])
    ensures StepWellFormed(src, pos, line, OperatorStep(src, pos, line))
  {
    var end := OperatorStep(src, pos, line).next;
    NoNewlines(src, pos, end, NotNewline);
  }

  lemma StringStepFacts(src: string, pos: nat, line: nat)
    requires pos < |src| && src[pos] == '"'
    ensures StepWellFormed(src, pos, line, StringStep(src, pos, line))
  {
    var close := Span(src, pos + 1, NotQuote);
    assert src[pos..pos + 1] == ['"'];
    NewlinesSplit(src, pos, pos + 1, close);
    if close < |src| {
      NewlinesSplit(src, pos, close, close + 1);
      assert src[close..close + 1] == ['"'];
    }
  }

  lemma NumberStepFacts(src: string, pos: nat, line: nat)
    requires pos < |src| && IsDigit(src[pos])
    ensures StepWellFormed(src, pos, line, NumberStep(src, pos, line))
  {
    var intEnd := Span(src, pos + 1, Digits);
    var end := NumberEnd(src, pos);
    SpanRun(src, pos + 1, Digits);
    NoNewlines(src, pos, intEnd, Digits);
    if end != intEnd {
      SpanRun(src, intEnd + 1, Digits);
      NewlinesSplit(src, intEnd, intEnd + 1, end);
      assert src[intEnd..intEnd + 1] == ['.'];
      NoNewlines(src, intEnd + 1, end, Digits);
    }
    NewlinesSplit(src, pos, intEnd, end);
  }

  lemma IdentifierStepFacts(src: string, pos: nat, line: nat)
    requires pos < |src| && IsAlpha(src[pos])
    ensures StepWellFormed(src, pos, line, IdentifierStep(src, pos, line))
  {
    SpanRun(src, pos + 1, Word);
    NoNewlines(src, pos, Span(src, pos + 1, Word), Word);
  }

  lemma StepFacts(src: string, pos: nat, line: nat)
    requires pos < |src|
    ensures StepWellFormed(src, pos, line, Step(src, pos, line))
  {
    var c := src[pos];
    assert src[pos..pos + 1] == [c];
    NewlinesOne(c);
    if IsOperatorStart(c) {
      OperatorStepFacts(src, pos, line);
    } else if c == '/' && pos + 1 < |src| && src[pos + 1] == '/' {
      SpanRun(src, pos + 2, NotNewline);
      NoNewlines(src, pos, Span(src, pos + 2, NotNewline), NotNewline);
    } else if c == '"' {
      StringStepFacts(src, pos, line);
    } else if IsDigit(c) {
      NumberStepFacts(src, pos, line);
    } else if IsAlpha(c) {
      IdentifierStepFacts(src, pos, line);
    }
  }

  /**
   * The `while (!AtEof())` loop of `Lex` from cursor `pos`: its tokens and
   * reports in order, and the line counter when it ends.
   */
  function ScanFrom(src: string, pos: nat, line: nat): (r: Scan)
    requires pos <= |src|
    decreases |src| - pos
  {
    if pos == |src| then Scan([], [], line)
    else
      var s := Step(src, pos, line);
      var rest := ScanFrom(src, s.next, s.line);
      Scan(Elements(s.token) + rest.tokens, Elements(s.error) + rest.errors, rest.line)
  }

  /** The scan ends on the line of the last newline, and it never produces EOF. */
  lemma {:induction false} ScanFromFacts(src: string, pos: nat, line: nat)
    requires pos <= |src|
    ensures ScanFrom(src, pos, line).line == line + Newlines(src[pos..])
    ensures forall i :: 0 <= i < |ScanFrom(src, pos, line).tokens| ==> ScanFrom(src, pos, line).tokens[i].kind != EOF
    decreases |src| - pos
  {
    if pos < |src| {
      var s := Step(src, pos, line);
      StepFacts(src, pos, line);
      ScanFromFacts(src, s.next, s.line);
      NewlinesSplit(src, pos, s.next, |src|);
      assert src[pos..|src|] == src[pos..] && src[s.next..|src|] == src[s.next..];
    } else {
      assert src[pos..] == [];
    }
  }

  /**
   * The scan loop of `Lex` as the source runs it, appending to the token list
   * and the report log as it goes, then adding the EOF token.
   */
  function ScanLoop(src: string, pos: nat, line: nat, tokens: seq<Token>, errors: seq<LexError>): (r: LexResult)
    requires pos <= |src|
    decreases |src| - pos
  {
    if pos == |src| then LexResult(tokens + [Token(EOF, "", Nil, line)], errors)
    else
      var s := Step(src, pos, line);
      ScanLoop(src, s.next, s.line, tokens + Elements(s.token), errors + Elements(s.error))
  }

  /** The accumulating loop computes `ScanFrom` after what it has already collected. */
  lemma {:induction false} ScanLoopIsScanFrom(src: string, pos: nat, line: nat, tokens: seq<Token>, errors: seq<LexError>)
    requires pos <= |src|
    ensures var rest := ScanFrom(src, pos, line);
      ScanLoop(src, pos, line, tokens, errors) == LexResult(tokens + rest.tokens + [Token(EOF, "", Nil, rest.line)], errors + rest.errors)
    decreases |src| - pos
  {
    if pos < |src| {
      var s := Step(src, pos, line);
      var rest := ScanFrom(src, s.next, s.line);
      ScanLoopIsScanFrom(src, s.next, s.line, tokens + Elements(s.token), errors + Elements(s.error));
      assert tokens + Elements(s.token) + rest.tokens == tokens + (Elements(s.token) + rest.tokens);
      assert errors + Elements(s.error) + rest.errors == errors + (Elements(s.error) + rest.errors);
    }
  }

  /** The token list `Lex` returns and the reports it makes. */
  datatype LexResult = LexResult(tokens: seq<Token>, errors: seq<LexError>)

  function Lex(src: string): LexResult {
    var s := ScanFrom(src, 0, 1);
    LexResult(s.tokens + [Token(EOF, "", Nil, s.line)], s.errors)
  }

  /** `Lex` is the scan loop started on an empty token list and an empty log. */
  lemma LexIsScanLoop(src: string)
    ensures Lex(src) == ScanLoop(src, 0, 1, [], [])
  {
    ScanLoopIsScanFrom(src, 0, 1, [], []);
    assert [] + ScanFrom(src, 0, 1).tokens == ScanFrom(src, 0, 1).tokens;
    assert [] + ScanFrom(src, 0, 1).errors == ScanFrom(src, 0, 1).errors;
  }

  /**
   * The token list ends with exactly one EOF token; it has an empty lexeme,
   * no literal, and its line is one more than the number of newlines.
   */
  lemma LexEndsWithEof(src: string)
    ensures var ts := Lex(src).tokens;
      && |ts| >= 1
      && ts[|ts| - 1] == Token(EOF, "", Nil, 1 + Newlines(src))
      && forall i :: 0 <= i < |ts| - 1 ==> ts[i].kind != EOF
  {
    ScanFromFacts(src, 0, 1);
    assert src[0..] == src;
  }
}

/** What the lexer promises, stated over the functions of module Scanning. */
module ScanningFacts {
  import opened Wrappers
  import opened Values
  import opened Tokens
  import opened Scanning

  lemma StepIsString(src: string, pos: nat, line: nat)
    requires pos < |src| && src[pos] == '"'
    ensures Step(src, pos, line) == StringStep(src, pos, line)
  {
  }

  lemma StepIsNumber(src: string, pos: nat, line: nat)
    requires pos < |src| && IsDigit(src[pos])
    ensures Step(src, pos, line) == NumberStep(src, pos, line)
  {
  }

  lemma StepIsIdentifier(src: string, pos: nat, line: nat)
    requires pos < |src| && IsAlpha(src[pos])
    ensures Step(src, pos, line) == IdentifierStep(src, pos, line)
  {
  }

  /** When `!`, `=`, `<` or `>` is followed by `=` the two form one token; otherwise the one character does. */
  lemma MaximalMunch(src: string, pos: nat, line: nat)
    requires pos < |src| && IsOperatorStart(src[pos])
    ensures var r := Step(src, pos, line);
      var two := pos + 1 < |src| && src[pos + 1] == '=';
      && r.next == (if two then pos + 2 else pos + 1)
      && r.token == Some(Token(OperatorKind(src[pos], two), src[pos..r.next], Nil, line))
      && r.error == None
  {
  }

  /** `//` starts a comment: no token, and the cursor stops at the next newline, which is left for the next step. */
  lemma CommentRunsToNewline(src: string, pos: nat, line: nat)
    requires pos + 1 < |src| && src[pos] == '/' && src[pos + 1] == '/'
    ensures var r := Step(src, pos, line);
      && r.token == None && r.error == None && r.line == line
      && (r.next == |src| || src[r.next] == '\n')
      && forall k :: pos <= k < r.next ==> src[k] != '\n'
  {
    SpanRun(src, pos + 2, NotNewline);
  }

  /** A lone `/` is SLASH. */
  lemma LoneSlash(src: string, pos: nat, line: nat)
    requires pos < |src| && src[pos] == '/' && (pos + 1 == |src| || src[pos + 1] != '/')
    ensures Step(src, pos, line) == Lexed(pos + 1, line, Some(Token(SLASH, "/", Nil, line)), None)
  {
    assert src[pos..pos + 1] == "/";
  }

  /**
   * A string with a closing quote becomes one STRING token whose literal is the
   * text between the quotes and whose line is the line of the closing quote.
   */
  lemma TerminatedString(src: string, pos: nat, close: nat, line: nat)
    requires pos < close < |src| && src[pos] == '"' && src[close] == '"'
    requires forall k :: pos < k < close ==> src[k] != '"'
    ensures var endLine := line + Newlines(src[pos + 1..close]);
      Step(src, pos, line)
        == Lexed(close + 1, endLine, Some(Token(STRING, src[pos..close + 1], Str(src[pos + 1..close]), endLine)), None)
    ensures TrimQuotes(src[pos..close + 1]) == src[pos + 1..close]
  {
    StepIsString(src, pos, line);
    SpanStopsAt(src, pos + 1, close, NotQuote);
    TrimStringLexeme(src, pos, close);
  }

  /** A string with no closing quote reports "Unterminated string." at the last line and emits no token. */
  lemma UnterminatedString(src: string, pos: nat, line: nat)
    requires pos < |src| && src[pos] == '"'
    requires forall k :: pos < k < |src| ==> src[k] != '"'
    ensures var endLine := line + Newlines(src[pos + 1..]);
      Step(src, pos, line) == Lexed(|src|, endLine, None, Some(LexError(endLine, UnterminatedMessage)))
  {
    StepIsString(src, pos, line);
    var end := Span(src, pos + 1, NotQuote);
    SpanStopsAt(src, pos + 1, |src|, NotQuote);
    assert src[pos + 1..end] == src[pos + 1..];
  }

  /** Any character that starts no token is reported, and scanning goes on with the next one. */
  lemma UnexpectedCharacter(src: string, pos: nat, line: nat)
    requires pos < |src|
    requires src[pos] !in "(){},.;+-*!=<>/ \r\t\n\"" && !IsDigit(src[pos]) && !IsAlpha(src[pos])
    ensures Step(src, pos, line)
      == Lexed(pos + 1, line, None, Some(LexError(line, UnexpectedMessage(src[pos]))))
  {
  }

  /** A number lexeme is a run of digits, then a dot and digits only when a digit follows the dot. */
  lemma NumberShape(src: string, pos: nat, line: nat)
    requires pos < |src| && IsDigit(src[pos])
    ensures var r := Step(src, pos, line);
      && r.token.Some? && r.token.value.kind == NUMBER
      && r.token.value.literal == Num(NumberValue(src[pos..r.next]))
      && (forall k :: pos <= k < r.next ==> IsDigit(src[k]) || src[k] == '.')
      && (r.next == |src| || !IsDigit(src[r.next]))
      && (forall k :: pos <= k < r.next && src[k] == '.' ==> k + 1 < r.next && IsDigit(src[k + 1]))
  {
    StepIsNumber(src, pos, line);
    var intEnd := Span(src, pos + 1, Digits);
    SpanRun(src, pos + 1, Digits);
    if CharAt(src, intEnd) == '.' && IsDigit(CharAt(src, intEnd + 1)) {
      SpanRun(src, intEnd + 1, Digits);
    }
  }

  /** `1.` lexes as NUMBER then DOT: the dot is not taken without a digit after it. */
  lemma NumberThenDot()
    ensures Lex("1.").tokens == [Token(NUMBER, "1", Num(1.0), 1), Token(DOT, ".", Nil, 1), Token(EOF, "", Nil, 1)]
  {
    var src := "1.";
    var s0 := Step(src, 0, 1);
    assert Span(src, 1, Digits) == 1;
    assert src[0..1] == "1";
    assert DotIndex("1") == 1;
    assert DigitsValue("1") == 1 by {
      assert "1"[..0] == [];
    }
    assert s0 == Lexed(1, 1, Some(Token(NUMBER, "1", Num(1.0), 1)), None);
    var s1 := Step(src, 1, 1);
    assert src[1..2] == ".";
    assert s1 == Lexed(2, 1, Some(Token(DOT, ".", Nil, 1)), None);
    assert ScanFrom(src, 2, 1).tokens == [];
  }

  /** A whole identifier is scanned before the keyword lookup: `or` is OR, `orchid` is IDENTIFIER. */
  lemma KeywordNeedsWholeWord()
    ensures Lex("or").tokens == [Token(OR, "or", Nil, 1), Token(EOF, "", Nil, 1)]
    ensures Lex("orchid").tokens == [Token(IDENTIFIER, "orchid", Nil, 1), Token(EOF, "", Nil, 1)]
  {
    StepIsIdentifier("or", 0, 1);
    SpanStopsAt("or", 1, 2, Word);
    assert "or"[0..2] == "or";
    assert Step("or", 0, 1).token == Some(Token(OR, "or", Nil, 1));
    var w := "orchid";
    StepIsIdentifier(w, 0, 1);
    SpanStopsAt(w, 1, 6, Word);
    assert w[0..6] == w;
    assert w !in Keywords;
    assert Step(w, 0, 1).token == Some(Token(IDENTIFIER, w, Nil, 1));
  }

  /**
   * Where the tokens of a scan come from: the slice [start, end) of the
   * source that each token's step consumed.
   */
  ghost function Spans(src: string, pos: nat, line: nat): seq<(nat, nat)>
    requires pos <= |src|
    decreases |src| - pos
  {
    if pos == |src| then []
    else
      var s := Step(src, pos, line);
      (if s.token.Some? then [(pos, s.next)] else []) + Spans(src, s.next, s.line)
  }

  ghost predicate SlicesOf(src: string, from: nat, ts: seq<Token>, sp: seq<(nat, nat)>) {
    && |sp| == |ts|
    && (forall i :: 0 <= i < |sp| ==> from <= sp[i].0 < sp[i].1 <= |src|)
    && (forall i :: 0 <= i < |sp| ==> ts[i].lexeme == src[sp[i].0..sp[i].1])
    && (forall i, j :: 0 <= i < j < |sp| ==> sp[i].1 <= sp[j].0)
  }

  lemma {:induction false} SpansOfScan(src: string, pos: nat, line: nat)
    requires pos <= |src|
    ensures SlicesOf(src, pos, ScanFrom(src, pos, line).tokens, Spans(src, pos, line))
    decreases |src| - pos
  {
    if pos < |src| {
      var s := Step(src, pos, line);
      StepFacts(src, pos, line);
      SpansOfScan(src, s.next, s.line);
      var rest := Spans(src, s.next, s.line);
      var later := ScanFrom(src, s.next, s.line).tokens;
      assert ScanFrom(src, pos, line).tokens == Elements(s.token) + later;
      assert Spans(src, pos, line) == (if s.token.Some? then [(pos, s.next)] else []) + rest;
    }
  }

  /** Every token but the last is a slice of the source, in order and without overlap. */
  lemma TokensAreSlices(src: string)
    ensures var ts := Lex(src).tokens; var sp := Spans(src, 0, 1);
      && |sp| == |ts| - 1
      && (forall i :: 0 <= i < |sp| ==> sp[i].0 < sp[i].1 <= |src| && ts[i].lexeme == src[sp[i].0..sp[i].1])
      && (forall i, j :: 0 <= i < j < |sp| ==> sp[i].1 <= sp[j].0)
  {
    SpansOfScan(src, 0, 1);
  }
}
