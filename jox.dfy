/**
 * The driver of jox/Jox.cs: `Run` lexes, parses, reports the parse errors and
 * interprets only a program that parsed without one; a prompt line clears the
 * parse-error flag afterwards, and a source file is read as Latin-1 and ends
 * with the exit code of the flag that is set.
 */
module Driver {
  import opened Wrappers
  import opened Values
  import opened Tokens
  import opened Ast
  import Scanning
  import Lexing
  import G = Grammar
  import Parsing
  import GrammarFacts
  import Semantics
  import Runtime
  import Diagnostics
  import Utils

  const ERROR_PARSE_FAILURE: int := 3
  const ERROR_RUNTIME_FAILURE: int := 4

  /** What the parser makes of the lexer's tokens for `source`. */
  function Parsed(source: string): G.Program {
    Scanning.LexEndsWithEof(source);
    G.Parse(Scanning.Lex(source).tokens)
  }

  /**
   * What interpreting the program of `source` does, from the given store and
   * console; `None` when the parser reported an error. A program parsed without
   * a report has no `null` entry, so it can be run.
   */
  function Interpretation(format: Format, fuel: nat, values: map<string, Value>, output: seq<string>, source: string)
    : (r: Option<Semantics.Executed>)
    ensures r.Some? <==> Parsed(source).reports == []
  {
    var p := Parsed(source);
    if p.reports != [] then None
    else
      Scanning.LexEndsWithEof(source);
      GrammarFacts.ParseReportsEveryNull(Scanning.Lex(source).tokens);
      assert Complete(Block(p.statements));
      Some(Semantics.ExecList(format, fuel, values, output, Block(p.statements), 0))
  }

  /** The lines `Jox.ParseError(token, message)` writes for the parser's reports, in order. */
  function ParseErrorLines(reports: seq<G.Report>): (lines: seq<string>)
    ensures |lines| == |reports|
    ensures forall i :: 0 <= i < |reports| ==>
      lines[i] == Diagnostics.ParseErrorLine(reports[i].token, reports[i].message)
    decreases |reports|
  {
    if |reports| == 0 then []
    else
      var last := reports[|reports| - 1];
      ParseErrorLines(reports[..|reports| - 1]) + [Diagnostics.ParseErrorLine(last.token, last.message)]
  }

  /** What a run reads and changes: the variables, standard output, standard error and the two flags. */
  datatype Session = Session(values: map<string, Value>, output: seq<string>, diagnostics: seq<string>,
                             hadParseError: bool, hadRuntimeError: bool)

  /**
   * What `Run(source)` does to a session. The parse errors are written in
   * order and set the flag; once the flag is set nothing is interpreted.
   * Otherwise the program runs, and its fault, if any, is written and sets
   * the runtime flag. Standard error only grows, and the variables and
   * standard output change only when a program ran.
   */
  function RunEffect(format: Format, fuel: nat, s: Session, source: string): (t: Session)
    ensures t.hadParseError == (s.hadParseError || Parsed(source).reports != [])
    ensures s.diagnostics <= t.diagnostics
    ensures t.values != s.values || t.output != s.output ==> !t.hadParseError
    ensures t.hadRuntimeError != s.hadRuntimeError ==> !t.hadParseError
  {
    var p := Parsed(source);
    if s.hadParseError || p.reports != [] then
      s.(diagnostics := s.diagnostics + ParseErrorLines(p.reports), hadParseError := true)
    else
      var r := Interpretation(format, fuel, s.values, s.output, source).value;
      Session(r.values, r.output,
              s.diagnostics + (if r.outcome.Faulted? then [Diagnostics.RuntimeErrorLine(r.outcome.error)] else []),
              false, s.hadRuntimeError || r.outcome.Faulted?)
  }

  /** One line of `RunPrompt`: `Run`, then the parse-error flag, and only it, is cleared. */
  function PromptEffect(format: Format, fuel: nat, s: Session, line: string): (t: Session)
    ensures !t.hadParseError
  {
    RunEffect(format, fuel, s, line).(hadParseError := false)
  }

  /** The exit code `RunFile` ends with. */
  function ExitCode(s: Session): int {
    if s.hadParseError then ERROR_PARSE_FAILURE
    else if s.hadRuntimeError then ERROR_RUNTIME_FAILURE
    else 0
  }

  /**
   * Run on a fresh session, a source file ends with exit code 3 exactly when
   * it does not parse cleanly, 4 exactly when it parses cleanly and its run
   * faults, and 0 exactly when it parses cleanly and runs without a fault.
   */
  lemma FileExitCode(format: Format, fuel: nat, s: Session, source: string)
    requires !s.hadParseError && !s.hadRuntimeError
    ensures var code, i := ExitCode(RunEffect(format, fuel, s, source)), Interpretation(format, fuel, s.values, s.output, source);
      && (code == ERROR_PARSE_FAILURE <==> i.None?)
      && (code == ERROR_RUNTIME_FAILURE <==> i.Some? && i.value.outcome.Faulted?)
      && (code == 0 <==> i.Some? && !i.value.outcome.Faulted?)
  {
  }

  /**
   * A prompt line that does not parse does not stop the next one: whatever
   * the first line was, a second line that parses cleanly is interpreted.
   */
  lemma PromptRecovers(format: Format, fuel: nat, s: Session, first: string, second: string)
    requires Parsed(second).reports == []
    ensures var t := PromptEffect(format, fuel, s, first);
      var u, i := PromptEffect(format, fuel, t, second), Interpretation(format, fuel, t.values, t.output, second);
      i.Some? && u.values == i.value.values && u.output == i.value.output
  {
  }

  class Jox {
    const interpreter: Runtime.Interpreter
    const reporter: Diagnostics.Reporter
    /** The bound on the iterations of any one `while` loop. */
    const fuel: nat

    constructor (format: Format, fuel: nat)
      ensures fresh(interpreter) && fresh(interpreter.currentEnvironment) && fresh(reporter)
      ensures interpreter.format == format && interpreter.output == [] && interpreter.currentEnvironment.values == map[]
      ensures reporter.diagnostics == [] && !reporter.hadParseError && !reporter.hadRuntimeError
      ensures this.fuel == fuel
    {
      interpreter := new Runtime.Interpreter(format);
      reporter := new Diagnostics.Reporter();
      this.fuel := fuel;
    }

    /** The session as the driver's state holds it. */
    function State(): Session
      reads interpreter, interpreter.currentEnvironment, reporter
    {
      Session(interpreter.currentEnvironment.values, interpreter.output, reporter.diagnostics,
              reporter.hadParseError, reporter.hadRuntimeError)
    }

    /**
     * `Run(source)`. The parse errors are reported in order and set the flag;
     * once the flag is set, the interpreter is not called and its state is
     * untouched. Otherwise the program has no `null` entry and is interpreted.
     */
    method Run(source: string)
      modifies interpreter, interpreter.currentEnvironment, reporter
      ensures interpreter.currentEnvironment == old(interpreter.currentEnvironment)
      ensures State() == RunEffect(interpreter.format, fuel, old(State()), source)
      ensures reporter.hadParseError ==> unchanged(interpreter, interpreter.currentEnvironment)
    {
      var lexer := new Lexing.Lexer();
      var tokens := lexer.Lex(source);
      Scanning.LexEndsWithEof(source);
      var parser := new Parsing.Parser(tokens);
      var statements := parser.Parse();
      ReportParseErrors(parser.reports);
      if reporter.hadParseError {
        return;
      }
      GrammarFacts.ParseReportsEveryNull(tokens);
      interpreter.Interpret(statements, fuel, reporter);
    }

    /** The parser's calls of `Jox.ParseError(token, message)`, in the order it made them. */
    method ReportParseErrors(reports: seq<G.Report>)
      modifies reporter
      ensures reporter.diagnostics == old(reporter.diagnostics) + ParseErrorLines(reports)
      ensures reporter.hadParseError == (old(reporter.hadParseError) || |reports| > 0)
      ensures reporter.hadRuntimeError == old(reporter.hadRuntimeError)
    {
      for i := 0 to |reports|
        invariant reporter.diagnostics == old(reporter.diagnostics) + ParseErrorLines(reports[..i])
        invariant reporter.hadParseError == (old(reporter.hadParseError) || i > 0)
        invariant reporter.hadRuntimeError == old(reporter.hadRuntimeError)
      {
        assert reports[..i + 1][..i] == reports[..i];
        reporter.ParseError(reports[i].token, reports[i].message);
      }
      assert reports[..|reports|] == reports;
    }

    /** One line of `RunPrompt`: run it, then clear the parse-error flag and only that. */
    method RunPromptLine(line: string)
      modifies interpreter, interpreter.currentEnvironment, reporter
      ensures interpreter.currentEnvironment == old(interpreter.currentEnvironment)
      ensures State() == PromptEffect(interpreter.format, fuel, old(State()), line)
    {
      Run(line);
      reporter.hadParseError := false;
    }

    /**
     * `RunFile` once the file's bytes are read: the exit code is 3 after a
     * parse error, else 4 after a runtime error, else 0.
     */
    method RunFile(bytes: array<Utils.byte>) returns (exitCode: int)
      modifies interpreter, interpreter.currentEnvironment, reporter
      ensures interpreter.currentEnvironment == old(interpreter.currentEnvironment)
      ensures State() == RunEffect(interpreter.format, fuel, old(State()), Utils.Latin1(bytes[..]))
      ensures exitCode == ExitCode(State())
    {
      var source := Utils.BytesToString(bytes);
      Run(source);
      if reporter.hadParseError {
        return ERROR_PARSE_FAILURE;
      }
      if reporter.hadRuntimeError {
        return ERROR_RUNTIME_FAILURE;
      }
      return 0;
    }
  }
}
