# jox in Dafny

A model of the core of jox, a tree-walking interpreter for a Lox-like
language written in C#. It covers the whole pipeline:

- **Lexer** (module Lexing, specified by module Scanning). It turns source text
  into a token list that ends with EOF. Lexical errors go to a separate log.
- **Parser** (module Parsing, specified by module Grammar). It is a
  recursive-descent parser with panic-mode recovery: an abandoned declaration
  becomes a `null` entry in the statement list, and every error is reported.
- **Environment** (module Environments). It is the variable dictionary, with
  define, look-up and assign.
- **Interpreter** (module Runtime, specified by module Semantics). It evaluates
  expressions and executes statements. A runtime error ends the program run and
  is reported once.
- **Error reporting and driver** (modules Diagnostics and Driver). They cover
  the report-line format, the two error flags, the parse-error gate in `Run`,
  the prompt's flag reset and the exit codes of `RunFile`.
- **AST printer** (module AstPrinting). It renders an expression in
  parenthesized prefix form.
- **Byte decoding** (module Utils). `BytesToString` reads a file's bytes as
  text, one character per byte.

Each class that the source updates in place is modelled as a Dafny `class`:
`Lexer`, `Parser`, `Environment`, `Interpreter`, the static error state of
`Jox` (`Reporter`) and the driver `Jox`. `AstPrinter` changes no state of its
own; it is a class only because the printer's `Parenthesize` loop builds its
text step by step. Each method is proved to
have the effect of a function of the value-level modules: `ensures tokens ==
Scanning.Lex(source).tokens`, `ensures G.Program(statements, reports) ==
G.Parse(tokens)` and `ensures Executed(outcome, values, output) ==
Exec(format, fuel, old(values), old(output), s)`. The properties of the
language are lemmas about those functions:

- maximal munch, comments and string and number shapes, and tokens as slices
  of the source;
- precedence, associativity, assignment, the error productions and recovery;
- every `null` statement is reported;
- operator semantics, short-circuiting and scoping;
- output only grows, and fuel only cuts a run short;
- report lines name their line number, bytes round-trip, and printed
  parentheses balance.

The console and standard error are lists of lines. The host's rendering of
numbers (`double.ToString`) is a parameter `Format`. A `while` loop runs on a
fuel bound: where the source would loop forever, the model stops with the
outcome `OutOfFuel`.

## Model

| member | source | states |
|---|---|---|
| Scanning.CharAt | jox/Parsing/Lexer.cs:217-221 | `Peek` is the character under the cursor, or '\0' at and past the end |
| Scanning.Span | jox/Parsing/Lexer.cs:159-163 | a scanning loop stops at the end or at the first character outside its class, never before its start |
| Scanning.SpanRun | jox/Parsing/Lexer.cs:179 | every character a scanning loop passes over is in its class |
| Scanning.TrimQuotedText | jox/Parsing/Lexer.cs:174 | `Trim('"')` of a quote, quote-free text and a quote is exactly that text |
| Scanning.TrimQuotes | jox/Parsing/Lexer.cs:174 | `Trim('"')`, every leading and trailing quote removed; `TrimStringLexeme` states that on a string lexeme this leaves the text between the quotes |
| Scanning.TrimStringLexeme | jox/Parsing/Lexer.cs:157-175 | trimming a string token's lexeme gives the characters between its quotes |
| Scanning.DigitValue | jox/Parsing/Lexer.cs:188 | a digit's value is below ten |
| Scanning.FractionValue | jox/Parsing/Lexer.cs:181-188 | the digits after the point denote a value between 0 and 1 |
| Scanning.DotIndex | jox/Parsing/Lexer.cs:181-186 | the position of the decimal point lies within the lexeme |
| Scanning.Step | jox/Parsing/Lexer.cs:98-149 | one `LexToken` call consumes at least one character and stays within the text |
| Scanning.OperatorStep | jox/Parsing/Lexer.cs:117-120 | `!`, `=`, `<` and `>` consume one or two characters |
| Scanning.StringStep | jox/Parsing/Lexer.cs:157-175 | `HandleString` consumes at least the opening quote and stays within the text |
| Scanning.NumberEnd | jox/Parsing/Lexer.cs:177-186 | `HandleNumber` stops past the first digit and within the text |
| Scanning.NumberStep | jox/Parsing/Lexer.cs:177-189 | a number lexeme consumes at least its first digit |
| Scanning.IdentifierStep | jox/Parsing/Lexer.cs:191-199 | an identifier lexeme consumes at least its first letter |
| Scanning.OperatorStepFacts | jox/Parsing/Lexer.cs:117-120 | an operator token's lexeme is the text consumed, it is on the current line, and it is not EOF |
| Scanning.StringStepFacts | jox/Parsing/Lexer.cs:157-175 | the line counter advances by the newlines in the string, and the token's lexeme is the whole quoted text on the closing quote's line |
| Scanning.NumberStepFacts | jox/Parsing/Lexer.cs:177-189 | a number token's lexeme is the text consumed, without a newline |
| Scanning.IdentifierStepFacts | jox/Parsing/Lexer.cs:191-199 | an identifier or keyword token's lexeme is the text consumed, without a newline |
| Scanning.StepFacts | jox/Parsing/Lexer.cs:98-155 | every step advances the line counter by the newlines consumed; a token's lexeme is the consumed text on the line reached, its kind is never EOF, and a step gives a token or a report, never both |
| Scanning.ScanFromFacts | jox/Parsing/Lexer.cs:87-92 | the scan ends on line 1 plus the number of newlines, and it produces no EOF token |
| Scanning.ScanLoopIsScanFrom | jox/Parsing/Lexer.cs:87-95 | the accumulating loop of `Lex` appends the scan's tokens and reports to what it had, then the EOF token |
| Scanning.LexIsScanLoop | jox/Parsing/Lexer.cs:80-96 | `Lex` is that loop started on an empty token list at line 1 |
| Scanning.LexEndsWithEof | jox/Parsing/Lexer.cs:94 | the token list ends with exactly one EOF token, which has an empty lexeme, no literal and the last line |
| Scanning.Lex | jox/Parsing/Lexer.cs:80-96 | `LexIsScanLoop`, `LexEndsWithEof` and `TokensAreSlices`; `Lexing.Lexer.Lex` is proved equal to it |
| Scanning.ScanLoop | jox/Parsing/Lexer.cs:87-95 | `ScanLoopIsScanFrom`: the scan's tokens and reports, then the EOF token |
| Scanning.Emit | jox/Parsing/Lexer.cs:151-155 | `StepFacts`: the token's lexeme is the consumed slice, on the current line |
| Scanning.NumberValue | jox/Parsing/Lexer.cs:188 | `NumberShape`: the literal is the decimal value of the lexeme |
| Scanning.IsDigit | jox/Parsing/Lexer.cs:139-140 | `StepIsNumber` and `NumberShape`: a digit starts a number, and a number lexeme is digits with an optional fraction |
| Scanning.IsAlphaNumeric | jox/Parsing/Lexer.cs:202 | the characters an identifier runs over, letters, `_` and digits; `StepIsIdentifier` and `KeywordNeedsWholeWord` state that the identifier takes the whole run |
| Scanning.IsAlpha | jox/Parsing/Lexer.cs:201-202 | `StepIsIdentifier` and `KeywordNeedsWholeWord`: a letter or `_` starts an identifier, which runs to the end of the alphanumeric run |
| ScanningFacts.StepIsString | jox/Parsing/Lexer.cs:136 | a `"` starts a string |
| ScanningFacts.StepIsNumber | jox/Parsing/Lexer.cs:139-140 | a digit starts a number |
| ScanningFacts.StepIsIdentifier | jox/Parsing/Lexer.cs:142-143 | a letter or `_` starts an identifier |
| Scanning.OperatorKind | jox/Parsing/Lexer.cs:117-120 | `MaximalMunch`: the two-character kind exactly when `=` follows the operator character, the one-character kind otherwise |
| ScanningFacts.MaximalMunch | jox/Parsing/Lexer.cs:117-120 | `!=`, `==`, `<=` and `>=` are single tokens; the one-character operator is taken only when no `=` follows |
| ScanningFacts.CommentRunsToNewline | jox/Parsing/Lexer.cs:122-124 | `//` gives no token and no report; it consumes no newline and stops at the next one or at the end |
| ScanningFacts.LoneSlash | jox/Parsing/Lexer.cs:125-126 | a `/` not followed by `/` is a SLASH token |
| ScanningFacts.TerminatedString | jox/Parsing/Lexer.cs:157-175 | a closed string gives one STRING token whose literal is the text between the quotes, on the closing quote's line |
| ScanningFacts.UnterminatedString | jox/Parsing/Lexer.cs:165-169 | an unclosed string reports "Unterminated string." on the last line, gives no token and ends the scan |
| ScanningFacts.UnexpectedCharacter | jox/Parsing/Lexer.cs:145-146 | a character that starts no token is reported with its own text, and scanning resumes after it |
| ScanningFacts.NumberShape | jox/Parsing/Lexer.cs:177-189 | a number lexeme is digits, optionally followed by `.` and digits; no digit follows it; its literal is its decimal value |
| ScanningFacts.NumberThenDot | jox/Parsing/Lexer.cs:181 | `1.` lexes as NUMBER 1, DOT, EOF |
| ScanningFacts.KeywordNeedsWholeWord | jox/Parsing/Lexer.cs:191-199 | `or` lexes as OR, but `orchid` lexes as one IDENTIFIER |
| ScanningFacts.SpansOfScan | jox/Parsing/Lexer.cs:87-92 | the tokens of a scan are slices of the text, in order and without overlap |
| ScanningFacts.TokensAreSlices | jox/Parsing/Lexer.cs:80-96 | every token but EOF is a slice of the source, in order and without overlap |
| Tokens.IdentifierKind | jox/Parsing/Lexer.cs:59-77 | a keyword maps to its own kind; any other word is IDENTIFIER |
| Lexing.Lexer.constructor | jox/Parsing/Lexer.cs:52-57 | the lexer starts with no tokens, cursor 0 and line 1 |
| Lexing.Lexer.Lex | jox/Parsing/Lexer.cs:80-96 | whatever an earlier call left, the returned tokens and the reports are those of `Scanning.Lex(source)` |
| Lexing.Lexer.LexToken | jox/Parsing/Lexer.cs:98-149 | the new cursor, line, tokens and reports are those of `Scanning.Step` |
| Lexing.Lexer.AddToken | jox/Parsing/Lexer.cs:151-155 | appends one token: the current lexeme on the current line |
| Lexing.Lexer.Error | jox/Parsing/Lexer.cs:146 | appends one report on the current line |
| Lexing.Lexer.HandleString | jox/Parsing/Lexer.cs:157-175 | has the effect of `StringStep` |
| Lexing.Lexer.EatStringText | jox/Parsing/Lexer.cs:159-163 | stops at the closing quote or the end, counting the newlines it passes |
| Lexing.Lexer.HandleNumber | jox/Parsing/Lexer.cs:177-189 | has the effect of `NumberStep` |
| Lexing.Lexer.HandleIdentifier | jox/Parsing/Lexer.cs:191-199 | has the effect of `IdentifierStep` |
| Lexing.Lexer.EatWhile | jox/Parsing/Lexer.cs:124 | the cursor stops where `Span` says |
| Lexing.Lexer.CurrentLexeme | jox/Parsing/Lexer.cs:204 | the text from the lexeme start to the cursor |
| Lexing.Lexer.MatchNext | jox/Parsing/Lexer.cs:207-214 | consumes the next character exactly when it is the expected one |
| Lexing.Lexer.EatChar | jox/Parsing/Lexer.cs:216 | returns the character under the cursor and advances by one |
| Lexing.Lexer.AtEof | jox/Parsing/Lexer.cs:205 | the cursor has reached the end of the source; the loops of `Lex`, `EatWhile` and `EatStringText` stop on it, as their contracts state |
| Lexing.Lexer.Peek | jox/Parsing/Lexer.cs:217-221 | agrees with `CharAt` |
| Lexing.Lexer.PeekAt | jox/Parsing/Lexer.cs:223-227 | the character `lookAhead` past the cursor, or '\0' |
| Grammar.Advance | jox/Parsing/Parser.cs:193-197 | `EatToken` moves one token forward, except at EOF |
| Grammar.Expect | jox/Parsing/Parser.cs:361-366 | the expected kind is consumed with no report; any other token abandons the production with the message at that token, and the cursor stays |
| Grammar.Declaration | jox/Parsing/Parser.cs:27-40 | a declaration always gives an entry and moves on; a `null` entry was reported; an entry made without a report has no `null` inside |
| Grammar.VarDeclaration | jox/Parsing/Parser.cs:42-54 | consumes input when it succeeds, keeps earlier reports, reports before abandoning, and gives a complete statement when it makes no report |
| Grammar.Initializer | jox/Parsing/Parser.cs:46-50 | there is no initializer exactly when no `=` follows the name |
| Grammar.Statement | jox/Parsing/Parser.cs:56-64 | dispatches on the keyword, with the same guarantees as the productions |
| Grammar.BlockStatement | jox/Parsing/Parser.cs:66-75 | declarations up to the `}`; its list is complete when no report was made |
| Grammar.ExpressionStatement | jox/Parsing/Parser.cs:77-82 | only the production guarantees (`Moved`, `Quiet`): the cursor advances when it parses, earlier reports are kept, an abandoned parse has reported, and a parse without a report is complete; the shape (an expression and a `;`) is given by the definition alone |
| Grammar.PrintStatement | jox/Parsing/Parser.cs:84-89 | only the production guarantees (`Moved`, `Quiet`): the cursor advances when it parses, earlier reports are kept, an abandoned parse has reported, and a parse without a report is complete; the shape (an expression and a `;` after `print`) is given by the definition alone |
| Grammar.IfStatement | jox/Parsing/Parser.cs:91-106 | only the production guarantees (`Moved`, `Quiet`): the cursor advances when it parses, earlier reports are kept, an abandoned parse has reported, and a parse without a report is complete; the shape (`(condition)` and a then-branch) is given by the definition alone |
| Grammar.ElseBranch | jox/Parsing/Parser.cs:98-105 | only the production guarantees (`Moved`, `Quiet`): the cursor advances when it parses, earlier reports are kept, an abandoned parse has reported, and a parse without a report is complete; that an else-branch is taken exactly after `else` is given by the definition alone |
| Grammar.WhileStatement | jox/Parsing/Parser.cs:108-117 | only the production guarantees (`Moved`, `Quiet`): the cursor advances when it parses, earlier reports are kept, an abandoned parse has reported, and a parse without a report is complete; the shape (`(condition)` and a body) is given by the definition alone |
| Grammar.ForStatement | jox/Parsing/Parser.cs:119-142 | only the production guarantees (`Moved`, `Quiet`): the cursor advances when it parses, earlier reports are kept, an abandoned parse has reported, and a parse without a report is complete; the clauses it reads are given by the definition alone |
| Grammar.ForIncrement | jox/Parsing/Parser.cs:144-174 | only the production guarantees (`Moved`, `Quiet`): the cursor advances when it parses, earlier reports are kept, an abandoned parse has reported, and a parse without a report is complete; the loop it builds is `Desugar`'s, whose shape `GrammarFacts.DesugarShape` states |
| Grammar.ForInitializer | jox/Parsing/Parser.cs:123-135 | only the production guarantees (`Moved`, `Quiet`): the cursor advances when it parses, earlier reports are kept, an abandoned parse has reported, and a parse without a report is complete; the three forms of the clause are given by the definition alone |
| Grammar.OptionalExpression | jox/Parsing/Parser.cs:137-148 | a clause is empty exactly when its terminator comes next |
| Grammar.Desugar | jox/Parsing/Parser.cs:153-172 | the desugared `for` is complete when its body and initializer are; its shape is stated by `GrammarFacts.DesugarShape` |
| GrammarFacts.DesugarShape | jox/Parsing/Parser.cs:153-172 | without an initializer a `for` is a `while` of its condition, or `true` when the clause is empty, over its body followed by the increment when there is one; with an initializer it is a two-statement block running the initializer once before that loop |
| Grammar.Expression | jox/Parsing/Parser.cs:225 | every expression production consumes input when it succeeds, keeps earlier reports and reports before abandoning |
| Grammar.Assignment | jox/Parsing/Parser.cs:227-246 | the same guarantees for an assignment |
| Grammar.AssignmentValue | jox/Parsing/Parser.cs:232-245 | without `=` the left side is the result, with nothing consumed or reported; after `=` and a parsed value, a variable target gives an `Assign` to that variable, and any other target is itself the result, with "Invalid assignment target." at the `=` as the last report |
| Grammar.Operators | jox/Parsing/Parser.cs:252-311 | no binary level treats EOF or `=` as its operator |
| Grammar.Combine | jox/Parsing/Parser.cs:256-312 | `and` and `or` build Logical nodes; the other levels build Binary nodes |
| Grammar.Operand | jox/Parsing/Parser.cs:250-312 | each level's operand parser has the production guarantees |
| Grammar.Level | jox/Parsing/Parser.cs:248-315 | each binary level has the production guarantees, and a parsed level ends only in front of a token that is no operator of the level |
| Grammar.LevelLoop | jox/Parsing/Parser.cs:252-258 | the loop keeps the cursor on a token and only adds reports; with no operator of its level next it returns the expression so far, and it ends only in front of a token that is no operator of its level |
| Grammar.Unary | jox/Parsing/Parser.cs:317-323 | has the production guarantees |
| Grammar.Primary | jox/Parsing/Parser.cs:325-357 | has the production guarantees |
| Grammar.Synchronize | jox/Parsing/Parser.cs:374-397 | recovery moves forward, and moves at least one token unless at EOF |
| Grammar.SyncLoop | jox/Parsing/Parser.cs:378-396 | the recovery loop never moves backward or past EOF |
| Grammar.ParseFrom | jox/Parsing/Parser.cs:19-22 | the loop of `Parse` only appends statements and reports |
| Grammar.Parse | jox/Parsing/Parser.cs:13-25 | `Parse` is the declaration loop started at cursor 0 on an empty list; `ParseReportsEveryNull` and `Parsing.Parser.Parse` state what it promises |
| GrammarFacts.AtomExpr | jox/Parsing/Parser.cs:327-332 | an identifier is a Variable; a number or string is a Literal of the token's literal |
| GrammarFacts.WholeOperand | jox/Parsing/Parser.cs:276-315 | a unary expression followed by no operator of a lower level is a whole operand of every higher level |
| GrammarFacts.ProductBindsTighter | jox/Parsing/Parser.cs:297-315 | `a + b * c` parses as `a + (b * c)` |
| GrammarFacts.DifferenceGroupsLeft | jox/Parsing/Parser.cs:297-305 | `a - b - c` parses as `(a - b) - c` |
| GrammarFacts.AssignmentGroupsRight | jox/Parsing/Parser.cs:227-246 | `a = b = c` parses as `a = (b = c)` |
| GrammarFacts.InvalidTargetKeepsLeft | jox/Parsing/Parser.cs:237-245 | `1 = 2` reports "Invalid assignment target." at the `=`, is not abandoned, and yields the left side |
| GrammarFacts.LoopFolds | jox/Parsing/Parser.cs:252-258 | the loop of a level, entered after the i-th operand of a chain with the fold of the first i operands, ends with the fold of the whole chain |
| GrammarFacts.LevelFoldsLeft | jox/Parsing/Parser.cs:248-315 | at every one of the six levels, any chain of operands of the level below separated by operators of the level parses as their left fold (`FoldLeft`), with only the operands' reports |
| GrammarFacts.AssignmentTarget | jox/Parsing/Parser.cs:227-246 | for any left side: without `=` it is the expression; after `=` an abandoned value abandons, a variable gets `Assign(name, value)`, and any other left side is kept, with "Invalid assignment target." at the `=` after the value's reports |
| GrammarFacts.MissingOperandSkipped | jox/Parsing/Parser.cs:344-354 | a binary operator other than `-` in operand position is reported, and a fresh expression is parsed after it |
| GrammarFacts.MissingOperandRecovers | jox/Parsing/Parser.cs:344-354 | `+ 1;` reports the operator and yields the expression `1` |
| GrammarFacts.StuckOperand | jox/Parsing/Parser.cs:356 | a token that cannot start an expression, EOF included, abandons every operand level with "Expected an Expression." |
| GrammarFacts.ExpectedExpression | jox/Parsing/Parser.cs:356 | the same holds for a whole expression |
| GrammarFacts.SyncLoopStops | jox/Parsing/Parser.cs:378-396 | the recovery loop stops at the first place it may: EOF, just after a `;`, or before a statement keyword |
| GrammarFacts.SynchronizeStops | jox/Parsing/Parser.cs:374-397 | recovery eats one token and then stops at the first place it may |
| GrammarFacts.ParseFromReports | jox/Parsing/Parser.cs:19-39 | every `null` entry added by the loop has at least one report of its own; with no new report, no `null` entry appears |
| GrammarFacts.ParseReportsEveryNull | jox/Parsing/Parser.cs:13-40 | the program has no more `null` entries than reports, and a program parsed without any report has no `null` anywhere |
| Parsing.Parser.constructor | jox/Parsing/Parser.cs:15-17 | a fresh parser is at cursor 0 with no statements or reports |
| Parsing.Parser.Parse | jox/Parsing/Parser.cs:13-25 | the statements and reports are those of `Grammar.Parse` |
| Parsing.Parser.Declaration | jox/Parsing/Parser.cs:27-40 | has the effect of `Grammar.Declaration`; a caught `ParseError` is a `null` entry after recovery |
| Parsing.Parser.VarDeclaration | jox/Parsing/Parser.cs:42-54 | has the effect of `Grammar.VarDeclaration` |
| Parsing.Parser.Initializer | jox/Parsing/Parser.cs:46-50 | has the effect of `Grammar.Initializer` |
| Parsing.Parser.Statement | jox/Parsing/Parser.cs:56-64 | has the effect of `Grammar.Statement` |
| Parsing.Parser.BlockStatement | jox/Parsing/Parser.cs:66-75 | its loop has the effect of `Grammar.BlockStatement` |
| Parsing.Parser.ExpressionStatement | jox/Parsing/Parser.cs:77-82 | has the effect of `Grammar.ExpressionStatement` |
| Parsing.Parser.PrintStatement | jox/Parsing/Parser.cs:84-89 | has the effect of `Grammar.PrintStatement` |
| Parsing.Parser.IfStatement | jox/Parsing/Parser.cs:91-106 | has the effect of `Grammar.IfStatement` |
| Parsing.Parser.ElseBranch | jox/Parsing/Parser.cs:98-105 | has the effect of `Grammar.ElseBranch` |
| Parsing.Parser.WhileStatement | jox/Parsing/Parser.cs:108-117 | has the effect of `Grammar.WhileStatement` |
| Parsing.Parser.ForStatement | jox/Parsing/Parser.cs:119-142 | has the effect of `Grammar.ForStatement` |
| Parsing.Parser.ForIncrement | jox/Parsing/Parser.cs:144-174 | has the effect of `Grammar.ForIncrement` |
| Parsing.Parser.ForInitializer | jox/Parsing/Parser.cs:123-135 | has the effect of `Grammar.ForInitializer` |
| Parsing.Parser.OptionalExpression | jox/Parsing/Parser.cs:137-148 | has the effect of `Grammar.OptionalExpression` |
| Parsing.Parser.Expression | jox/Parsing/Parser.cs:225 | has the effect of `Grammar.Expression` |
| Parsing.Parser.Assignment | jox/Parsing/Parser.cs:227-246 | has the effect of `Grammar.Assignment` |
| Parsing.Parser.AssignmentValue | jox/Parsing/Parser.cs:232-245 | has the effect of `Grammar.AssignmentValue` |
| Parsing.Parser.Operand | jox/Parsing/Parser.cs:250-312 | has the effect of `Grammar.Operand` |
| Parsing.Parser.Level | jox/Parsing/Parser.cs:248-315 | its `while (Match(...))` loop has the effect of `Grammar.Level` for `Or`, `And`, `Equality`, `Comparison`, `Term` and `Factor` |
| Parsing.Parser.Unary | jox/Parsing/Parser.cs:317-323 | has the effect of `Grammar.Unary` |
| Parsing.Parser.Primary | jox/Parsing/Parser.cs:325-357 | has the effect of `Grammar.Primary` |
| Grammar.AtEnd | jox/Parsing/Parser.cs:215-219 | the token under the cursor is EOF |
| Grammar.Check | jox/Parsing/Parser.cs:199-203 | the token under the cursor has the kind and is not EOF |
| Grammar.Matches | jox/Parsing/Parser.cs:179-191 | the token under the cursor is not EOF and has one of the kinds; `Parsing.Parser.Match` consumes it exactly then |
| Parsing.Parser.AtEof | jox/Parsing/Parser.cs:215-219 | agrees with `Grammar.AtEnd` at the cursor |
| Parsing.Parser.CheckPeek | jox/Parsing/Parser.cs:199-203 | agrees with `Grammar.Check` at the cursor |
| Parsing.Parser.Match | jox/Parsing/Parser.cs:179-191 | consumes one token exactly when it is not EOF and is of one of the kinds |
| Parsing.Parser.EatToken | jox/Parsing/Parser.cs:193-197 | advances as `Advance` does and returns the previous token |
| Parsing.Parser.EatExpectedToken | jox/Parsing/Parser.cs:361-366 | has the effect of `Grammar.Expect`, yielding the consumed token |
| Parsing.Parser.Error | jox/Parsing/Parser.cs:368-372 | appends one report for `Jox.ParseError` |
| Parsing.Parser.SynchronizeState | jox/Parsing/Parser.cs:374-397 | its loop leaves the cursor where `Grammar.Synchronize` says |
| Parsing.Parser.Peek | jox/Parsing/Parser.cs:205-208 | the token under the cursor |
| Parsing.Parser.PreviousToken | jox/Parsing/Parser.cs:210-213 | the token before the cursor |
| Environments.Define | jox/Runtime/Environment.cs:11-14 | defining binds the name and keeps every other name |
| Environments.Lookup | jox/Runtime/Environment.cs:16-22 | a failed look-up is "Undefined variable", at the identifier |
| Environments.Undefined | jox/Runtime/Environment.cs:22 | `Lookup` and `Update`: a miss is this fault, "Undefined variable '<lexeme>'." at the identifier |
| Environments.Update | jox/Runtime/Environment.cs:24-33 | a failed assignment is "Undefined variable", at the identifier; a successful one binds no new name |
| Environments.DefineThenLookup | jox/Runtime/Environment.cs:11-22 | a defined name reads back as its value |
| Environments.DefineKeepsOthers | jox/Runtime/Environment.cs:11-14 | defining one name leaves the others' look-ups unchanged |
| Environments.RedefineOverwrites | jox/Runtime/Environment.cs:13 | redefinition: the second definition wins and the first leaves no trace |
| Environments.LookupByLexeme | jox/Runtime/Environment.cs:16-22 | look-up succeeds exactly on a bound lexeme, whatever the token's line |
| Environments.UpdateOnlyBound | jox/Runtime/Environment.cs:24-33 | assignment succeeds exactly on a bound name and then acts as a redefinition |
| Environments.UpdateThenLookup | jox/Runtime/Environment.cs:24-33 | after an assignment the name reads back as the new value |
| Environments.Environment.constructor | jox/Runtime/Environment.cs:9 | a new environment is empty |
| Environments.Environment.DefineVariable | jox/Runtime/Environment.cs:11-14 | the dictionary becomes `Define` of the old one |
| Environments.Environment.GetVariableValue | jox/Runtime/Environment.cs:16-22 | the result is `Lookup` |
| Environments.Environment.AssignVariableValue | jox/Runtime/Environment.cs:24-33 | succeeds exactly when `Update` does and then stores its result; otherwise it returns the fault and leaves the dictionary untouched |
| Semantics.CheckOperandIsNumber | jox/Runtime/Interpreter.cs:163-167 | faults exactly on a non-number, with "Operand must be a number." |
| Semantics.CheckOperandsAreNumbers | jox/Runtime/Interpreter.cs:169-173 | faults exactly unless both are numbers, with "Operands must be numbers." |
| Semantics.TrimPointZero | jox/Runtime/Interpreter.cs:30-32 | a trailing ".0" is removed and nothing else; other text is kept |
| Semantics.Completion | jox/Runtime/Interpreter.cs:177-181 | an expression statement completes normally exactly when its expression does not fault |
| Semantics.IsTruthy | jox/Runtime/Interpreter.cs:156-161 | `SemanticsFacts.Truthiness`: only nil and false are falsy |
| Semantics.ShortCircuits | jox/Runtime/Interpreter.cs:106-113 | `SemanticsFacts.ShortCircuitRule` and `DecidedIgnoresRight`: the deciding left value is the result, and the right side is not evaluated |
| Semantics.BinaryOp | jox/Runtime/Interpreter.cs:42-93 | every fault is located at the operator; `EqualityTotal`, `NumericOperands`, `Division` and `Plus` state each operator's rule |
| Semantics.NumericOp | jox/Runtime/Interpreter.cs:54-83 | on two numbers only `/` by zero faults, with "Division by zero." at the operator |
| Semantics.UnaryOp | jox/Runtime/Interpreter.cs:118-134 | faults exactly for `-` on a non-number, with "Operand must be a number." at the operator; `UnaryOperands` gives the values |
| Values.BoolText | jox/Runtime/Interpreter.cs:37 | the text of a boolean, "True" or "False", as both `Stringify` and the printer's literals give it; `SemanticsFacts.StringifyRules` and `AstPrinting.RendersLeaves` state both uses |
| Semantics.Stringify | jox/Runtime/Interpreter.cs:25-38 | `SemanticsFacts.StringifyRules`: "nil", a number without its trailing ".0", a string as it is, a bool as "True" or "False" |
| Semantics.Eval | jox/Runtime/Interpreter.cs:42-154 | `BinaryOrder`, `ShortCircuitRule` and `EvalKeepsNames`: left before right, the first fault wins, and no binding is added or removed; `Runtime.Interpreter.Evaluate` is proved equal to it |
| Semantics.Exec | jox/Runtime/Interpreter.cs:177-251 | `VarWithoutInitializer`, `PrintWritesOneLine`, `BlockKeepsStore`, `ExecOutputGrows` and `ExecFuelMonotone`; `Runtime.Interpreter.Execute` is proved equal to it |
| Semantics.ExecList | jox/Runtime/Interpreter.cs:232-246 | `StopsAtFirstFault`, `ListOutputGrows` and `ListFuelMonotone`: the first statement that does not end normally ends the list |
| Semantics.Loop | jox/Runtime/Interpreter.cs:222-230 | `LoopOutputGrows` and `LoopFuelMonotone`: output only grows, and more fuel does not change a loop that finished |
| SemanticsFacts.Truthiness | jox/Runtime/Interpreter.cs:156-161 | only nil and false are falsy; 0 and "" are truthy |
| SemanticsFacts.EqualityTotal | jox/Runtime/Interpreter.cs:50-51 | `==` and `!=` never fault and compare structurally; values of different kinds are unequal |
| SemanticsFacts.NumericOperands | jox/Runtime/Interpreter.cs:54-83 | comparison and arithmetic fault exactly unless both operands are numbers, and then compute on them |
| SemanticsFacts.Division | jox/Runtime/Interpreter.cs:75-79 | division by zero faults with "Division by zero."; otherwise the quotient |
| SemanticsFacts.Plus | jox/Runtime/Interpreter.cs:85-88 | `+` succeeds exactly on two numbers (sum) or two strings (concatenation) |
| SemanticsFacts.UnaryOperands | jox/Runtime/Interpreter.cs:118-134 | `-` succeeds exactly on a number and negates it; `!` never faults and negates truthiness |
| SemanticsFacts.BinaryOrder | jox/Runtime/Interpreter.cs:44-45 | the left operand is evaluated first and its fault wins; the right one is evaluated in the store the left one leaves |
| SemanticsFacts.LogicalYieldsOperand | jox/Runtime/Interpreter.cs:102-116 | a successful `or`/`and` yields the left operand's value or the right operand's, never a boolean of its own |
| SemanticsFacts.ShortCircuitRule | jox/Runtime/Interpreter.cs:102-116 | `or` with a truthy left value and `and` with a falsy one give the left operand's evaluation; otherwise the right operand is evaluated in the store the left one left |
| SemanticsFacts.DecidedIgnoresRight | jox/Runtime/Interpreter.cs:106-113 | once the left value decides, any other right operand gives the same evaluation: the right side is never evaluated |
| SemanticsFacts.EndlessLoop | jox/Runtime/Interpreter.cs:222-230 | a loop on the literal `true`, as a `for` with an empty condition becomes, never ends normally: it faults or runs out of fuel |
| SemanticsFacts.EvalKeepsNames | jox/Runtime/Interpreter.cs:95-100 | evaluating an expression never creates or removes a variable |
| SemanticsFacts.VarWithoutInitializer | jox/Runtime/Interpreter.cs:190-200 | `var x;` binds `x` to nil |
| SemanticsFacts.PrintWritesOneLine | jox/Runtime/Interpreter.cs:183-188 | `print e;` writes exactly the rendering of the value, or faults and writes nothing |
| SemanticsFacts.StringifyRules | jox/Runtime/Interpreter.cs:25-38 | nil renders as "nil", strings as themselves, booleans as "True" and "False", and a number without its ".0" |
| SemanticsFacts.BlockKeepsStore | jox/Runtime/Interpreter.cs:232-246 | after a block the enclosing store is as it was, whatever the block's outcome |
| SemanticsFacts.BlockHidesEnclosing | jox/Runtime/Interpreter.cs:202-206 | a block runs in a new empty environment, so a variable of the enclosing scope is undefined inside it |
| SemanticsFacts.StopsAtFirstFault | jox/Runtime/Interpreter.cs:14-22 | the first statement that does not complete normally ends its list, with its outcome |
| SemanticsFacts.ExecOutputGrows | jox/Runtime/Interpreter.cs:183-188 | executing a statement only appends to the console |
| SemanticsFacts.ListOutputGrows | jox/Runtime/Interpreter.cs:239-240 | the same for a statement list |
| SemanticsFacts.LoopOutputGrows | jox/Runtime/Interpreter.cs:222-230 | the same for a `while` loop |
| SemanticsFacts.ExecFuelMonotone | jox/Runtime/Interpreter.cs:222-230 | a run that does not run out of fuel has the same result with more fuel |
| SemanticsFacts.ListFuelMonotone | jox/Runtime/Interpreter.cs:239-240 | the same for a statement list |
| SemanticsFacts.LoopFuelMonotone | jox/Runtime/Interpreter.cs:224-227 | the same for a `while` loop |
| Runtime.Interpreter.constructor | jox/Runtime/Interpreter.cs:10 | the interpreter starts with an empty environment and no output |
| Runtime.Interpreter.Interpret | jox/Runtime/Interpreter.cs:12-23 | the statements run in order until the first fault, which is reported exactly once; the store and console are those of `ExecList`, and the parse flag is untouched |
| Runtime.Interpreter.Evaluate | jox/Runtime/Interpreter.cs:151-154 | the result and new store are those of `Eval` |
| Runtime.Interpreter.VisitBinaryExpr | jox/Runtime/Interpreter.cs:42-93 | agrees with `Eval` on a Binary node |
| Runtime.Interpreter.VisitAssignExpr | jox/Runtime/Interpreter.cs:95-100 | agrees with `Eval` on an Assign node |
| Runtime.Interpreter.VisitLogicalExpr | jox/Runtime/Interpreter.cs:102-116 | agrees with `Eval` on a Logical node |
| Runtime.Interpreter.VisitUnaryExpr | jox/Runtime/Interpreter.cs:118-134 | agrees with `Eval` on a Unary node |
| Runtime.Interpreter.VisitVariableExpr | jox/Runtime/Interpreter.cs:136-139 | agrees with `Eval` on a Variable node |
| Runtime.Interpreter.VisitGroupingExpr | jox/Runtime/Interpreter.cs:141-144 | agrees with `Eval` on a Grouping node |
| Runtime.Interpreter.VisitLiteralExpr | jox/Runtime/Interpreter.cs:146-149 | agrees with `Eval` on a Literal node |
| Runtime.Interpreter.Execute | jox/Runtime/Interpreter.cs:248-251 | the outcome, store and console are those of `Exec`, and the current environment is the same object afterwards |
| Runtime.Interpreter.VisitExpressionStmt | jox/Runtime/Interpreter.cs:177-181 | agrees with `Exec` on an expression statement |
| Runtime.Interpreter.VisitPrintStmt | jox/Runtime/Interpreter.cs:183-188 | agrees with `Exec` on a print statement |
| Runtime.Interpreter.VisitVarStmt | jox/Runtime/Interpreter.cs:190-200 | agrees with `Exec` on a variable declaration |
| Runtime.Interpreter.VisitBlockStmt | jox/Runtime/Interpreter.cs:202-206 | agrees with `Exec` on a block: the enclosing store is untouched |
| Runtime.Interpreter.VisitIfStmt | jox/Runtime/Interpreter.cs:208-220 | agrees with `Exec` on an `if` |
| Runtime.Interpreter.VisitWhileStmt | jox/Runtime/Interpreter.cs:222-230 | its loop agrees with `Loop` on the fuel it is given |
| Runtime.Interpreter.ExecuteBlock | jox/Runtime/Interpreter.cs:232-246 | the block's statements run in the given environment with the effect of `ExecList`, and the previous environment is restored afterwards, whether or not a statement faulted |
| Diagnostics.Decimal | jox/Jox.cs:102 | a line number is written as a non-empty string of decimal digits |
| Diagnostics.DecimalRoundTrip | jox/Jox.cs:102 | the digits read back as the line number |
| Diagnostics.DigitRun | jox/Jox.cs:102 | the digits of a report line end where the first non-digit begins |
| Diagnostics.ReportLineNumber | jox/Jox.cs:100-103 | every report line names its line number in a form that can be read back |
| Diagnostics.ReportLineShape | jox/Jox.cs:102 | a report line is "[line N] ", the context, "Error ", the location, ": " and the message |
| Diagnostics.ReportLine | jox/Jox.cs:100-103 | `ReportLineShape` and `ReportLineNumber`: "[line N] <context>Error <where>: <message>", with N readable back |
| Diagnostics.TokenReportLine | jox/Jox.cs:105-108 | `ParseErrorWhere`: located `at '<lexeme>'` on the token's line |
| Diagnostics.ParseErrorLine | jox/Jox.cs:111-117 | `ParseErrorWhere`: "at end of file" for EOF, otherwise at the lexeme, on the token's line |
| Diagnostics.RuntimeErrorLine | jox/Jox.cs:121-125 | `Diagnostics.Reporter.RuntimeError`: a "Runtime" report at the error's token |
| Diagnostics.ParseErrorWhere | jox/Jox.cs:111-119 | a parse error at EOF says "at end of file", and any other says "at '<lexeme>'"; its line number reads back as the token's line |
| Diagnostics.Reporter.constructor | jox/Jox.cs:11-12 | no diagnostics and both flags clear |
| Diagnostics.Reporter.ReportError | jox/Jox.cs:100-103 | appends exactly one line to standard error |
| Diagnostics.Reporter.ReportTokenError | jox/Jox.cs:105-108 | appends the line located at the token's lexeme |
| Diagnostics.Reporter.ParseErrorAtLine | jox/Jox.cs:110 | appends a parse report with no location and leaves both flags alone |
| Diagnostics.Reporter.ParseError | jox/Jox.cs:111-119 | appends the parse-error line and sets the parse flag |
| Diagnostics.Reporter.RuntimeError | jox/Jox.cs:121-125 | appends the runtime-error line and sets the runtime flag |
| Driver.Interpretation | jox/Jox.cs:48-61 | a program is run exactly when the parser made no report |
| Driver.ParseErrorLines | jox/Jox.cs:111-119 | one parse-error line per report, in order |
| Driver.RunEffect | jox/Jox.cs:48-61 | the parse flag ends set exactly when it was set or the parser reported; standard error only grows; the variables, the output and the runtime flag change only when the program ran |
| Driver.PromptEffect | jox/Jox.cs:75-76 | after a prompt line the parse flag is clear |
| Driver.ExitCode | jox/Jox.cs:95-96 | 3 when the parse flag is set, else 4 when the runtime flag is set, else 0; `FileExitCode` states what each code means for a file |
| Driver.FileExitCode | jox/Jox.cs:94-96 | from clear flags, exit code 3 exactly when the file does not parse cleanly, 4 exactly when it parses and its run faults, 0 exactly when it parses and runs without a fault |
| Driver.PromptRecovers | jox/Jox.cs:68-77 | a prompt line that parses cleanly is interpreted whatever the line before it did |
| Driver.Jox.constructor | jox/Jox.cs:10-12 | a fresh interpreter and clear flags |
| Driver.Jox.Run | jox/Jox.cs:48-61 | the variables, output, standard error and flags become `RunEffect` of the old ones; after a parse error the interpreter is untouched |
| Driver.Jox.ReportParseErrors | jox/Jox.cs:111-119 | one parse-error line per report, in order, and the flag is set exactly when there was a report |
| Driver.Jox.RunPromptLine | jox/Jox.cs:75-76 | the variables, output, standard error and flags become `PromptEffect` of the old ones: `Run`, then only the parse flag cleared |
| Driver.Jox.RunFile | jox/Jox.cs:94-96 | the new state is `RunEffect` of the file's Latin-1 text, and the exit code is `ExitCode` of it: 3 after a parse error, else 4 after a runtime error, else 0 (`FileExitCode`) |
| Utils.ByteChar | jox/Utils.cs:20 | `(char)b` has the byte's code |
| Utils.Latin1 | jox/Utils.cs:17-21 | one character per byte, each with its byte's code |
| Utils.StringToBytes | jox/Utils.cs:17-21 | the inverse of `Latin1` on strings whose codes are below 256 |
| Utils.Latin1RoundTrip | jox/Utils.cs:11-24 | reading bytes as text loses nothing: the bytes come back |
| Utils.NarrowRoundTrip | jox/Utils.cs:11-24 | every string with codes below 256 is the text of its own bytes |
| Utils.BytesToString | jox/Utils.cs:11-24 | the result is `Latin1` of the array: as long as the array, with codes below 256 |
| AstPrinting.Renderings | jox/Parsing/ASTPrinter.cs:29-32 | one rendering per expression, in order |
| AstPrinting.Spaced | jox/Parsing/ASTPrinter.cs:29-32 | `ParenthesizedShape`: a space before each part, in order |
| AstPrinting.Parenthesized | jox/Parsing/ASTPrinter.cs:25-36 | `ParenthesizedShape` and `ParenthesizedCounts`: "(", the name, the spaced parts, ")", with balanced counts |
| AstPrinting.LiteralText | jox/Parsing/ASTPrinter.cs:48-52 | `RendersLeaves`: "nil", "True"/"False", a string as it is |
| AstPrinting.Render | jox/Parsing/ASTPrinter.cs:38-67 | `RendersBinary`, `RendersGrouping`, `RendersUnary`, `RendersAssign`, `RendersLeaves` and `RenderBalanced`; `AstPrinting.AstPrinter.Accept` is proved equal to it |
| AstPrinting.ParenthesizedShape | jox/Parsing/ASTPrinter.cs:25-36 | a parenthesized form opens with "(" and the name, closes with ")", and has one space before each part |
| AstPrinting.RendersBinary | jox/Parsing/ASTPrinter.cs:38-41 | a Binary node renders as `(<op> <left> <right>)` |
| AstPrinting.RendersGrouping | jox/Parsing/ASTPrinter.cs:43-46 | a Grouping node renders as `(group <inner>)` |
| AstPrinting.RendersUnary | jox/Parsing/ASTPrinter.cs:54-57 | a Unary node renders as `(<op> <operand>)` |
| AstPrinting.RendersAssign | jox/Parsing/ASTPrinter.cs:64-67 | an Assign node renders as `(assign <name> <value>)` |
| AstPrinting.RendersLeaves | jox/Parsing/ASTPrinter.cs:48-62 | a variable renders as `var <name>`, nil as `nil`, booleans as `True` and `False`, and a string as its text |
| AstPrinting.RenderBalanced | jox/Parsing/ASTPrinter.cs:25-67 | every rendering has as many "(" as ")" when the copied names and literals hold no parenthesis |
| AstPrinting.ParenthesizedCounts | jox/Parsing/ASTPrinter.cs:25-36 | `Parenthesize` keeps parentheses balanced |
| AstPrinting.AstPrinter.constructor | jox/Parsing/ASTPrinter.cs:6 | the printer keeps the host's renderings |
| AstPrinting.AstPrinter.Parenthesize | jox/Parsing/ASTPrinter.cs:25-36 | its loop builds "(", the name, one space and rendering per expression, and ")" |
| AstPrinting.AstPrinter.Accept | jox/Parsing/ASTPrinter.cs:23 | the text is `Render` |
| AstPrinting.AstPrinter.VisitBinaryExpr | jox/Parsing/ASTPrinter.cs:38-41 | the text is `Render` of the Binary node |
| AstPrinting.AstPrinter.VisitGroupingExpr | jox/Parsing/ASTPrinter.cs:43-46 | the text is `Render` of the Grouping node |
| AstPrinting.AstPrinter.VisitLiteralExpr | jox/Parsing/ASTPrinter.cs:48-52 | the text is `Render` of the Literal node |
| AstPrinting.AstPrinter.VisitUnaryExpr | jox/Parsing/ASTPrinter.cs:54-57 | the text is `Render` of the Unary node |
| AstPrinting.AstPrinter.VisitVariableExpr | jox/Parsing/ASTPrinter.cs:59-62 | the text is `Render` of the Variable node |
| AstPrinting.AstPrinter.VisitAssignExpr | jox/Parsing/ASTPrinter.cs:64-67 | the text is `Render` of the Assign node |

## Left out

- I/O and the command line are left out: `Main`, the read loop of `RunPrompt`, reading the file in `RunFile` (with its exit code 2), `Environment.Exit`, and the console and standard-error streams. `RunPromptLine` models one iteration of the prompt loop and `RunFile` starts from the bytes already read. Standard output and standard error are lists of lines.
- The `printAST` debug switch of `Run` (jox/Jox.cs:58) and `ASTPrinter.Print`/`RunTest` are left out: they only write to the console.
- Driver.Jox.Run: the parse errors are written after parsing ends rather than as the parser finds them. The lines and their order are the same.
- Lexing.Lexer.Error: the lexer's `Jox.Error(line, message)` hook has no definition in jox/Jox.cs. Its reports are kept in the lexer's `errors` log and are neither written nor flagged. A lexical error does not stop `Run`.
- Runtime.Interpreter.VisitBlockStmt: `new Environment(currentEnvironment)` at jox/Runtime/Interpreter.cs:204 calls a constructor that jox/Runtime/Environment.cs does not declare, and that class has no link to an enclosing environment. The model gives a block a new, empty environment, so enclosing variables are undefined inside it (`BlockHidesEnclosing`).
- Runtime.Interpreter.VisitWhileStmt: each loop runs at most `fuel` iterations and then stops with `OutOfFuel`, where the source would go on. `ExecFuelMonotone` shows that more fuel never changes a run that finished.
- Semantics.Exec: a `null` statement, which the source would dereference, is excluded by `requires Complete`. The driver interprets only programs parsed without a report, and those have no `null` (`ParseReportsEveryNull`).
- Scanning.NumberValue: `double.Parse` is the exact decimal value of the lexeme. Rounding to a double is not modelled, and numbers are `real` throughout, so IEEE overflow, NaN and signed zero are absent.
- Semantics.Stringify and AstPrinting.LiteralText: `double.ToString` is the parameter `Format`, because its output depends on the host's culture settings (the decimal separator among them). `bool.ToString` is fixed as "True" and "False".
- Scanning.NumberValue: `double.Parse` reads the lexeme with the current culture. Under a culture whose decimal separator is not `.`, "1.5" does not parse as 1.5 in the source; the model always reads `.` as the decimal point.
- Scanning.Step: a C# `char` is a UTF-16 code unit, a Dafny `char` a Unicode scalar value. A character outside the Basic Multilingual Plane is one character in the model and a surrogate pair in the source, which reports two "Unexpected character" errors for it, each holding half the pair; lexeme slices and positions after such a character differ too.
- Scanning.IsDigit and Scanning.IsAlpha: `char.IsDigit` and `char.IsLetter` are ASCII-only. Other Unicode digits and letters are not recognised.
- AstPrinting.Render: `ASTPrinter` has no `VisitLogicalExpr`, so `and` and `or` expressions are outside the renderer's precondition (`Printable`).
- Parsing.Parser.Level: `Or`, `And`, `Equality`, `Comparison`, `Term` and `Factor` are one method chosen by level number. The rest of the `if` and the `for` productions are split into helper methods (`ElseBranch`, `ForInitializer`, `OptionalExpression`, `ForIncrement`).
- Static state is not modelled as such: the lexer and the parser are objects, and the driver makes each fresh per run. Each one is reset at the start of `Lex` and `Parse`, as the source resets its static fields.
- `Token.ToString`, `ERROR_INVALID_ARGS` and the `Void` class have no effect on the modelled behaviour.
