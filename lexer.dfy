/**
 * The jox lexer as the source runs it (jox/Parsing/Lexer.cs): a cursor, a
 * lexeme start and a line counter advanced character by character, and a
 * token list appended in place. Every method is proved to have the effect of
 * the corresponding function of module Scanning.
 */
module Lexing {
  import opened Wrappers
  import opened Values
  import opened Tokens
  import opened Scanning

  class Lexer {
    var src: string
    var tokens: seq<Token>
    /** The reports made through the lexer's error hook, oldest first. */
    var errors: seq<LexError>
    var lexemeStart: nat
    var current: nat
    var line: nat

    constructor ()
      ensures src == [] && tokens == [] && errors == []
      ensures lexemeStart == 0 && current == 0 && line == 1
    {
      src, tokens, errors := [], [], [];
      lexemeStart, current, line := 0, 0, 1;
    }

    /**
     * Scan `source` from a fresh cursor. Whatever an earlier call left behind,
     * the tokens and the reports are those of Scanning.Lex.
     */
    method Lex(source: string) returns (result: seq<Token>)
      modifies this
      ensures src == source
      ensures result == tokens == Scanning.Lex(source).tokens
      ensures errors == Scanning.Lex(source).errors
    {
      src := source;
      tokens := [];
      errors := [];
      current := 0;
      line := 1;
      while !AtEof()
        invariant src == source && current <= |source|
        invariant ScanLoop(source, current, line, tokens, errors) == ScanLoop(source, 0, 1, [], [])
        decreases |source| - current
      {
        lexemeStart := current;
        LexToken();
      }
      tokens := tokens + [Token(EOF, "", Nil, line)];
      result := tokens;
      LexIsScanLoop(source);
    }

    /** One token, or none for blanks, comments and errors, from the current cursor. */
    method LexToken()
      requires lexemeStart == current < |src|
      modifies this`current, this`line, this`tokens, this`errors
      ensures var s := Step(src, old(current), old(line));
        && current == s.next && line == s.line
        && tokens == old(tokens) + Elements(s.token)
        && errors == old(errors) + Elements(s.error)
    {
      var c := EatChar();
      match c
      case '(' => AddToken(LEFT_PAREN, Nil);
      case ')' => AddToken(RIGHT_PAREN, Nil);
      case '{' => AddToken(LEFT_BRACE, Nil);
      case '}' => AddToken(RIGHT_BRACE, Nil);
      case ',' => AddToken(COMMA, Nil);
      case '.' => AddToken(DOT, Nil);
      case ';' => AddToken(SEMICOLON, Nil);
      case '+' => AddToken(PLUS, Nil);
      case '-' => AddToken(MINUS, Nil);
      case '*' => AddToken(STAR, Nil);
      case '!' =>
        var m := MatchNext('=');
        AddToken(if m then BANG_EQUAL else BANG, Nil);
      case '=' =>
        var m := MatchNext('=');
        AddToken(if m then EQUAL_EQUAL else EQUAL, Nil);
      case '<' =>
        var m := MatchNext('=');
        AddToken(if m then LESS_EQUAL else LESS, Nil);
      case '>' =>
        var m := MatchNext('=');
        AddToken(if m then GREATER_EQUAL else GREATER, Nil);
      case '/' =>
        var m := MatchNext('/');
        if m {
          EatWhile(NotNewline);
        } else {
          AddToken(SLASH, Nil);
        }
      case ' ' =>
      case '\r' =>
      case '\t' =>
      case '\n' => line := line + 1;
      case '"' => HandleString();
      case _ =>
        if IsDigit(c) {
          HandleNumber();
        } else if IsAlpha(c) {
          HandleIdentifier();
        } else {
          Error(UnexpectedMessage(c));
        }
    }

    /** `AddToken`: the current lexeme as a token on the current line. */
    method AddToken(kind: TokenType, literal: Value)
      requires lexemeStart <= current <= |src|
      modifies this`tokens
      ensures tokens == old(tokens) + [Token(kind, CurrentLexeme(), literal, line)]
    {
      tokens := tokens + [Token(kind, CurrentLexeme(), literal, line)];
    }

    /** The lexer's `Jox.Error(line, message)` hook, kept as a log entry. */
    method Error(message: string)
      modifies this`errors
      ensures errors == old(errors) + [LexError(line, message)]
    {
      errors := errors + [LexError(line, message)];
    }

    method HandleString()
      requires 0 < current <= |src| && lexemeStart == current - 1 && src[lexemeStart] == '"'
      modifies this`current, this`line, this`tokens, this`errors
      ensures var s := StringStep(src, lexemeStart, old(line));
        && current == s.next && line == s.line
        && tokens == old(tokens) + Elements(s.token)
        && errors == old(errors) + Elements(s.error)
    {
      EatStringText();
      if AtEof() {
        Error(UnterminatedMessage);
        return;
      }
      ghost var close := current;
      TrimStringLexeme(src, lexemeStart, close);
      var _ := EatChar();
      AddToken(STRING, Str(TrimQuotes(CurrentLexeme())));
      assert tokens == old(tokens) + [Token(STRING, src[lexemeStart..close + 1], Str(src[lexemeStart + 1..close]), line)];
    }

    /**
     * The loop of `HandleString`: up to the closing quote or the end, counting
     * the newlines it passes.
     */
    method EatStringText()
      requires current <= |src|
      modifies this`current, this`line
      ensures current == Span(src, old(current), NotQuote)
      ensures line == old(line) + Newlines(src[old(current)..current])
    {
      ghost var text, start, startLine := src, current, line;
      while Peek() != '"' && !AtEof()
        invariant start <= current <= |text|
        invariant Span(text, current, NotQuote) == Span(text, start, NotQuote)
        invariant line == startLine + Newlines(text[start..current])
        decreases |text| - current
      {
        NewlinesSplit(text, start, current, current + 1);
        assert text[current..current + 1] == [text[current]];
        if Peek() == '\n' {
          line := line + 1;
        }
        var _ := EatChar();
      }
    }

    method HandleNumber()
      requires 0 < current <= |src| && lexemeStart == current - 1 && IsDigit(src[lexemeStart])
      modifies this`current, this`tokens
      ensures var s := NumberStep(src, lexemeStart, line);
        && current == s.next && tokens == old(tokens) + Elements(s.token)
    {
      EatWhile(Digits);
      ghost var intEnd := current;
      if Peek() == '.' && IsDigit(PeekAt(1)) {
        var _ := EatChar();
        EatWhile(Digits);
        assert current == Span(src, intEnd + 1, Digits);
      }
      assert current == NumberEnd(src, lexemeStart);
      AddToken(NUMBER, Num(NumberValue(CurrentLexeme())));
    }

    method HandleIdentifier()
      requires 0 < current <= |src| && lexemeStart == current - 1 && IsAlpha(src[lexemeStart])
      modifies this`current, this`tokens
      ensures var s := IdentifierStep(src, lexemeStart, line);
        && current == s.next && tokens == old(tokens) + Elements(s.token)
    {
      EatWhile(Word);
      AddToken(IdentifierKind(CurrentLexeme()), Nil);
    }

    /**
     * The loops `while (IsDigit(Peek())) EatChar();`, `while (IsAlphaNumeric(Peek())) EatChar();`
     * and `while (Peek() != '\n' && !AtEof()) EatChar();`: the cursor stops at the end
     * of the run of `cls` characters.
     */
    method EatWhile(cls: CharClass)
      requires current <= |src|
      modifies this`current
      ensures current == Span(src, old(current), cls)
    {
      ghost var text := src;
      ghost var start := current;
      while !AtEof() && InClass(cls, Peek())
        invariant start <= current <= |text|
        invariant Span(text, current, cls) == Span(text, start, cls)
        decreases |text| - current
      {
        var _ := EatChar();
      }
    }

    function CurrentLexeme(): (s: string)
      requires lexemeStart <= current <= |src|
      reads this
      ensures s == src[lexemeStart..current]
    {
      src[lexemeStart..current]
    }

    predicate AtEof()
      reads this
    {
      current >= |src|
    }

    /** Consume the next character when it is `expected`. */
    method MatchNext(expected: char) returns (matched: bool)
      requires current <= |src|
      modifies this`current
      ensures matched == (old(current) < |src| && src[old(current)] == expected)
      ensures current == if matched then old(current) + 1 else old(current)
    {
      if AtEof() {
        return false;
      }
      if Peek() != expected {
        return false;
      }
      var _ := EatChar();
      return true;
    }

    method EatChar() returns (c: char)
      requires current < |src|
      modifies this`current
      ensures c == src[old(current)] && current == old(current) + 1
    {
      c := src[current];
      current := current + 1;
    }

    function Peek(): (c: char)
      reads this
      ensures c == CharAt(src, current)
    {
      if AtEof() then '\0' else src[current]
    }

    function PeekAt(lookAhead: nat): (c: char)
      reads this
      ensures c == CharAt(src, current + lookAhead)
    {
      if current + lookAhead >= |src| then '\0' else src[current + lookAhead]
    }
  }
}
