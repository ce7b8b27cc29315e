/**
 * The error reporting of jox/Jox.cs: the line format of `ReportError` and the
 * two flags the driver consults. Class `Reporter` is the static state of class
 * `Jox` that these members touch; the standard-error stream is the list
 * `diagnostics` of lines written to it.
 */
module Diagnostics {
  import opened Wrappers
  import opened Tokens
  import opened RuntimeErrors

  /** The decimal digits of `n`, as string interpolation writes an `int`. */
  function Decimal(n: nat): (s: string)
    ensures |s| > 0 && AllDigits(s)
    decreases n
  {
    if n < 10 then [DigitChar(n)] else Decimal(n / 10) + [DigitChar(n % 10)]
  }

  function DigitChar(d: nat): (c: char)
    requires d < 10
    ensures '0' <= c <= '9'
  {
    ('0' as int + d) as char
  }

  predicate AllDigits(s: string) {
    forall i :: 0 <= i < |s| ==> '0' <= s[i] <= '9'
  }

  /** The number a string of decimal digits denotes. */
  function DecimalValue(s: string): nat
    requires AllDigits(s)
    decreases |s|
  {
    if |s| == 0 then 0 else 10 * DecimalValue(s[..|s| - 1]) + (s[|s| - 1] as int - '0' as int)
  }

  /** `Decimal` is read back by `DecimalValue`. */
  lemma {:induction false} DecimalRoundTrip(n: nat)
    ensures DecimalValue(Decimal(n)) == n
    decreases n
  {
    if n >= 10 {
      var s := Decimal(n);
      assert s[..|s| - 1] == Decimal(n / 10);
      DecimalRoundTrip(n / 10);
    }
  }

  /** `ReportError(int line, context, where, message)`: the line it writes. */
  function ReportLine(line: nat, context: string, where: string, message: string): string {
    "[line " + Decimal(line) + "] " + context + "Error " + where + ": " + message
  }

  /** `ReportError(token, context, message)`: located at the token's lexeme. */
  function TokenReportLine(token: Token, context: string, message: string): string {
    ReportLine(token.line, context, "at '" + token.lexeme + "'", message)
  }

  /** `ParseError(token, message)`: the end of file names no lexeme. */
  function ParseErrorLine(token: Token, message: string): string {
    if token.kind == EOF then ReportLine(token.line, "Parse", "at end of file", message)
    else TokenReportLine(token, "Parse", message)
  }

  /** `RuntimeError(error)`: located at the error's token. */
  function RuntimeErrorLine(error: RuntimeError): string {
    TokenReportLine(error.token, "Runtime", error.message)
  }

  /**
   * The line number of a report line as a reader of standard error finds it:
   * the digits between the opening "[line " and the "]" that ends them.
   */
  function ReadLineNumber(text: string): (r: Option<nat>) {
    if |text| < 6 || text[..6] != "[line " then None
    else
      var k := DigitRun(text, 6);
      if k == 6 || k == |text| || text[k] != ']' then None
      else Some(DecimalValue(text[6..k]))
  }

  /** The end of the run of digits that starts at `i`. */
  function DigitRun(text: string, i: nat): (k: nat)
    requires i <= |text|
    ensures i <= k <= |text| && AllDigits(text[i..k])
    ensures k < |text| ==> !('0' <= text[k] <= '9')
    decreases |text| - i
  {
    if i < |text| && '0' <= text[i] <= '9' then
      var k := DigitRun(text, i + 1);
      assert text[i..k] == [text[i]] + text[i + 1..k];
      k
    else i
  }

  /** The run of digits found in `d + rest` when `rest` does not start with a digit. */
  lemma {:induction false} DigitRunOver(text: string, i: nat, d: string)
    requires i + |d| <= |text| && text[i..i + |d|] == d && AllDigits(d)
    requires i + |d| < |text| && !('0' <= text[i + |d|] <= '9')
    ensures DigitRun(text, i) == i + |d|
    decreases |d|
  {
    if |d| > 0 {
      assert text[i] == d[0];
      assert text[i + 1..i + |d|] == d[1..];
      DigitRunOver(text, i + 1, d[1..]);
    }
  }

  /** Every report line names its line number in the form a reader can recover. */
  lemma ReportLineNumber(line: nat, context: string, where: string, message: string)
    ensures ReadLineNumber(ReportLine(line, context, where, message)) == Some(line)
  {
    var text := ReportLine(line, context, where, message);
    var d := Decimal(line);
    assert text == "[line " + d + "] " + context + "Error " + where + ": " + message;
    assert text[..6] == "[line ";
    assert text[6..6 + |d|] == d;
    assert text[6 + |d|] == ']';
    DigitRunOver(text, 6, d);
    DecimalRoundTrip(line);
  }

  /**
   * The shape of every report line: "[line N] ", the context, "Error ", the
   * where-clause, ": " and the message.
   */
  lemma ReportLineShape(line: nat, context: string, where: string, message: string)
    ensures var text := ReportLine(line, context, where, message);
      && text[..6] == "[line "
      && text[6 + |Decimal(line)|..6 + |Decimal(line)| + 2] == "] "
      && text[|text| - |message|..] == message
      && text[|text| - |message| - 2..|text| - |message|] == ": "
  {
  }

  /**
   * A parse error names the end of file for an EOF token and the lexeme for
   * any other; either way it is a "Parse" report on the token's line.
   */
  lemma ParseErrorWhere(token: Token, message: string)
    ensures token.kind == EOF ==>
      ParseErrorLine(token, message) == ReportLine(token.line, "Parse", "at end of file", message)
    ensures token.kind != EOF ==>
      ParseErrorLine(token, message) == ReportLine(token.line, "Parse", "at '" + token.lexeme + "'", message)
    ensures ReadLineNumber(ParseErrorLine(token, message)) == Some(token.line)
  {
    if token.kind == EOF {
      ReportLineNumber(token.line, "Parse", "at end of file", message);
    } else {
      ReportLineNumber(token.line, "Parse", "at '" + token.lexeme + "'", message);
    }
  }

  /** The static error state of `Jox`: standard error, and the two flags. */
  class Reporter {
    var diagnostics: seq<string>
    var hadParseError: bool
    var hadRuntimeError: bool

    constructor ()
      ensures diagnostics == [] && !hadParseError && !hadRuntimeError
    {
      diagnostics, hadParseError, hadRuntimeError := [], false, false;
    }

    method ReportError(line: nat, context: string, where: string, message: string)
      modifies this`diagnostics
      ensures diagnostics == old(diagnostics) + [ReportLine(line, context, where, message)]
    {
      diagnostics := diagnostics + [ReportLine(line, context, where, message)];
    }

    /** The overload `ReportError(Token, context, message)`. */
    method ReportTokenError(token: Token, context: string, message: string)
      modifies this`diagnostics
      ensures diagnostics == old(diagnostics) + [TokenReportLine(token, context, message)]
    {
      ReportError(token.line, context, "at '" + token.lexeme + "'", message);
    }

    /** The overload `ParseError(int line, message)`: it leaves both flags alone. */
    method ParseErrorAtLine(line: nat, message: string)
      modifies this`diagnostics
      ensures diagnostics == old(diagnostics) + [ReportLine(line, "Parse", "", message)]
    {
      ReportError(line, "Parse", "", message);
    }

    method ParseError(token: Token, message: string)
      modifies this`diagnostics, this`hadParseError
      ensures diagnostics == old(diagnostics) + [ParseErrorLine(token, message)]
      ensures hadParseError
    {
      if token.kind == EOF {
        ReportError(token.line, "Parse", "at end of file", message);
      } else {
        ReportTokenError(token, "Parse", message);
      }
      hadParseError := true;
    }

    method RuntimeError(error: RuntimeErrors.RuntimeError)
      modifies this`diagnostics, this`hadRuntimeError
      ensures diagnostics == old(diagnostics) + [RuntimeErrorLine(error)]
      ensures hadRuntimeError
    {
      ReportTokenError(error.token, "Runtime", error.message);
      hadRuntimeError := true;
    }
  }
}
