/**
 * The grammar of jox/Parsing/Parser.cs as functions over a token sequence and
 * a cursor. Each production maps (tokens, cursor, reports so far) to a `Step`:
 * what it built, or `Abandoned` where the source throws its `ParseError`; the
 * cursor it left; and the reports made through `Error`, oldest first.
 */
module Grammar {
  import opened Wrappers
  import opened Values
  import opened Tokens
  import opened Ast

  /** A call of the parser's `Error(token, message)`, i.e. of `Jox.ParseError`. */
  datatype Report = Report(token: Token, message: string)

  /** `Abandoned` is a thrown `ParseError`, which unwinds to the nearest `Declaration`. */
  datatype Attempt<+T> = Parsed(value: T) | Abandoned

  datatype Step<+T> = Step(result: Attempt<T>, pos: nat, reports: seq<Report>)

  const VarNameMessage: string := "Expected variable name."
  const VarSemicolonMessage: string := "Expected ';' after variable declaration."
  const BlockMessage: string := "Expected '}' after block."
  const ExpressionSemicolonMessage: string := "Expected ';' after expression."
  const PrintSemicolonMessage: string := "Expected ';' after value."
  const IfOpenMessage: string := "Expected '(' after 'if'."
  const IfCloseMessage: string := "Expected ')' after if condition."
  const WhileOpenMessage: string := "Expected '(' after 'while'."
  const WhileCloseMessage: string := "Expected ')' after while-loop condition."
  const ForOpenMessage: string := "Expected '(' after 'for'."
  const ForConditionMessage: string := "Expected ';' after for-loop condition."
  const ForClausesMessage: string := "Expected ')' after for-loop clauses."
  const InvalidTargetMessage: string := "Invalid assignment target."
  const GroupingMessage: string := "Expected ')' after expression"
  const MissingOperandMessage: string := "Binary Operator is missing a left-hand operand"
  const ExpectedExpressionMessage: string := "Expected an Expression."

  /** What the lexer hands over: a token list whose last token is EOF. */
  predicate ValidTokens(ts: seq<Token>) {
    |ts| > 0 && ts[|ts| - 1].kind == EOF
  }

  /** `AtEof`: the token under the cursor is EOF. */
  predicate AtEnd(ts: seq<Token>, p: nat)
    requires p < |ts|
  {
    ts[p].kind == EOF
  }

  /** `CheckPeek(kind)`. */
  predicate Check(ts: seq<Token>, p: nat, kind: TokenType)
    requires p < |ts|
  {
    !AtEnd(ts, p) && ts[p].kind == kind
  }

  /** `Match(kinds)` succeeds: the next token is not EOF and its kind is listed. */
  predicate Matches(ts: seq<Token>, p: nat, kinds: seq<TokenType>)
    requires p < |ts|
  {
    !AtEnd(ts, p) && ts[p].kind in kinds
  }

  /** The cursor after `EatToken`, which stays put at EOF. */
  function Advance(ts: seq<Token>, p: nat): (q: nat)
    requires ValidTokens(ts) && p < |ts|
    ensures p <= q < |ts|
  {
    if AtEnd(ts, p) then p else p + 1
  }

  /**
   * What every production promises: the cursor moves forward and stays on a
   * token, earlier reports are kept, and an abandoned production has
   * reported why.
   */
  predicate Confined<T>(ts: seq<Token>, p: nat, rs: seq<Report>, r: Step<T>) {
    && p <= r.pos < |ts|
    && rs <= r.reports
    && (r.result.Abandoned? ==> |rs| < |r.reports|)
  }

  /** `Confined`, and a production that succeeds has consumed a token. */
  predicate Moved<T>(ts: seq<Token>, p: nat, rs: seq<Report>, r: Step<T>) {
    Confined(ts, p, rs, r) && (r.result.Parsed? ==> p < r.pos)
  }

  /** A statement built without any new report has no `null` hole. */
  ghost predicate Quiet(rs: seq<Report>, r: Step<Stmt>) {
    r.result.Parsed? && |r.reports| == |rs| ==> Complete(r.result.value)
  }

  function Abandon<T, U>(s: Step<T>): (r: Step<U>)
    ensures r.result.Abandoned? && r.pos == s.pos && r.reports == s.reports
  {
    Step(Abandoned, s.pos, s.reports)
  }

  function Lift<T>(s: Step<T>): (r: Step<Option<T>>)
    ensures r.pos == s.pos && r.reports == s.reports
    ensures r.result.Parsed? <==> s.result.Parsed?
    ensures r.result.Parsed? ==> r.result.value == Some(s.result.value)
  {
    match s.result
    case Parsed(v) => Step(Parsed(Some(v)), s.pos, s.reports)
    case Abandoned => Step(Abandoned, s.pos, s.reports)
  }

  /** `EatExpectedToken(kind, message)`, yielding `value` when it eats. */
  function Expect<T>(ts: seq<Token>, p: nat, rs: seq<Report>, kind: TokenType, message: string, value: T): (r: Step<T>)
    requires ValidTokens(ts) && p < |ts|
    ensures Moved(ts, p, rs, r)
    ensures r.result.Parsed? <==> Check(ts, p, kind)
    ensures r.result.Parsed? ==> r.result.value == value && r.pos == p + 1 && r.reports == rs
    ensures r.result.Abandoned? ==> r.pos == p && r.reports == rs + [Report(ts[p], message)]
  {
    if Check(ts, p, kind) then Step(Parsed(value), p + 1, rs)
    else Step(Abandoned, p, rs + [Report(ts[p], message)])
  }

  // ---------------------------------------------------------------------------
  // Declarations and statements

  function Declaration(ts: seq<Token>, p: nat, rs: seq<Report>): (r: Step<Option<Stmt>>)
    requires ValidTokens(ts) && p < |ts| && !AtEnd(ts, p)
    ensures p < r.pos < |ts| && rs <= r.reports && r.result.Parsed?
    ensures r.result.value.None? ==> |rs| < |r.reports|
    ensures |r.reports| == |rs| ==> Complete(r.result.value.value)
    decreases |ts| - p, 18
  {
    var d := if Matches(ts, p, [VAR]) then VarDeclaration(ts, p + 1, rs) else Statement(ts, p, rs);
    if d.result.Parsed? then Step(Parsed(Some(d.result.value)), d.pos, d.reports)
    else Step(Parsed(None), Synchronize(ts, d.pos), d.reports)
  }

  function VarDeclaration(ts: seq<Token>, p: nat, rs: seq<Report>): (r: Step<Stmt>)
    requires ValidTokens(ts) && p < |ts|
    ensures Moved(ts, p, rs, r) && Quiet(rs, r)
    decreases |ts| - p, 16
  {
    if !Check(ts, p, IDENTIFIER) then Step(Abandoned, p, rs + [Report(ts[p], VarNameMessage)])
    else
      var init := Initializer(ts, p + 1, rs);
      if init.result.Abandoned? then Abandon(init)
      else Expect(ts, init.pos, init.reports, SEMICOLON, VarSemicolonMessage, Var(ts[p], init.result.value))
  }

  /** The optional `= expression` of a variable declaration. */
  function Initializer(ts: seq<Token>, p: nat, rs: seq<Report>): (r: Step<Option<Expr>>)
    requires ValidTokens(ts) && p < |ts|
    ensures Confined(ts, p, rs, r)
    ensures r.result.Parsed? && r.result.value.None? <==> !Matches(ts, p, [EQUAL])
  {
    if Matches(ts, p, [EQUAL]) then Lift(Expression(ts, p + 1, rs))
    else Step(Parsed(None), p, rs)
  }

  function Statement(ts: seq<Token>, p: nat, rs: seq<Report>): (r: Step<Stmt>)
    requires ValidTokens(ts) && p < |ts|
    ensures Moved(ts, p, rs, r) && Quiet(rs, r)
    decreases |ts| - p, 17
  {
    if Matches(ts, p, [FOR]) then ForStatement(ts, p + 1, rs)
    else if Matches(ts, p, [IF]) then IfStatement(ts, p + 1, rs)
    else if Matches(ts, p, [PRINT]) then PrintStatement(ts, p + 1, rs)
    else if Matches(ts, p, [WHILE]) then WhileStatement(ts, p + 1, rs)
    else if Matches(ts, p, [LEFT_BRACE]) then
      var b := BlockStatement(ts, p + 1, rs, []);
      if b.result.Abandoned? then Abandon(b) else Step(Parsed(Block(b.result.value)), b.pos, b.reports)
    else ExpressionStatement(ts, p, rs)
  }

  /**
   * The loop of `BlockStatement` from cursor `p`, `acc` holding the
   * declarations parsed so far.
   */
  function BlockStatement(ts: seq<Token>, p: nat, rs: seq<Report>, acc: seq<Option<Stmt>>): (r: Step<seq<Option<Stmt>>>)
    requires ValidTokens(ts) && p < |ts|
    ensures Moved(ts, p, rs, r)
    ensures r.result.Parsed? && |r.reports| == |rs| && AllComplete(acc) ==> AllComplete(r.result.value)
    decreases |ts| - p, 19
  {
    if !Check(ts, p, RIGHT_BRACE) && !AtEnd(ts, p) then
      var d := Declaration(ts, p, rs);
      BlockStatement(ts, d.pos, d.reports, acc + [d.result.value])
    else Expect(ts, p, rs, RIGHT_BRACE, BlockMessage, acc)
  }

  function ExpressionStatement(ts: seq<Token>, p: nat, rs: seq<Report>): (r: Step<Stmt>)
    requires ValidTokens(ts) && p < |ts|
    ensures Moved(ts, p, rs, r) && Quiet(rs, r)
    decreases |ts| - p, 16
  {
    var e := Expression(ts, p, rs);
    if e.result.Abandoned? then Abandon(e)
    else Expect(ts, e.pos, e.reports, SEMICOLON, ExpressionSemicolonMessage, Stmt.Expression(e.result.value))
  }

  function PrintStatement(ts: seq<Token>, p: nat, rs: seq<Report>): (r: Step<Stmt>)
    requires ValidTokens(ts) && p < |ts|
    ensures Moved(ts, p, rs, r) && Quiet(rs, r)
    decreases |ts| - p, 16
  {
    var e := Expression(ts, p, rs);
    if e.result.Abandoned? then Abandon(e)
    else Expect(ts, e.pos, e.reports, SEMICOLON, PrintSemicolonMessage, Print(e.result.value))
  }

  function IfStatement(ts: seq<Token>, p: nat, rs: seq<Report>): (r: Step<Stmt>)
    requires ValidTokens(ts) && p < |ts|
    ensures Moved(ts, p, rs, r) && Quiet(rs, r)
    decreases |ts| - p, 16
  {
    if !Check(ts, p, LEFT_PAREN) then Step(Abandoned, p, rs + [Report(ts[p], IfOpenMessage)])
    else
      var c := Expression(ts, p + 1, rs);
      if c.result.Abandoned? then Abandon(c)
      else if !Check(ts, c.pos, RIGHT_PAREN) then Step(Abandoned, c.pos, c.reports + [Report(ts[c.pos], IfCloseMessage)])
      else
        var t := Statement(ts, c.pos + 1, c.reports);
        if t.result.Abandoned? then Abandon(t)
        else ElseBranch(ts, t.pos, t.reports, c.result.value, t.result.value)
  }

  /** The rest of an `if` after its then-branch: the optional `else` branch. */
  function ElseBranch(ts: seq<Token>, p: nat, rs: seq<Report>, condition: Expr, thenBranch: Stmt): (r: Step<Stmt>)
    requires ValidTokens(ts) && p < |ts|
    ensures Confined(ts, p, rs, r)
    ensures Complete(thenBranch) ==> Quiet(rs, r)
    decreases |ts| - p, 16
  {
    if Matches(ts, p, [ELSE]) then
      var e := Statement(ts, p + 1, rs);
      if e.result.Abandoned? then Abandon(e)
      else Step(Parsed(If(condition, thenBranch, Some(e.result.value))), e.pos, e.reports)
    else Step(Parsed(If(condition, thenBranch, None)), p, rs)
  }

  function WhileStatement(ts: seq<Token>, p: nat, rs: seq<Report>): (r: Step<Stmt>)
    requires ValidTokens(ts) && p < |ts|
    ensures Moved(ts, p, rs, r) && Quiet(rs, r)
    decreases |ts| - p, 16
  {
    if !Check(ts, p, LEFT_PAREN) then Step(Abandoned, p, rs + [Report(ts[p], WhileOpenMessage)])
    else
      var c := Expression(ts, p + 1, rs);
      if c.result.Abandoned? then Abandon(c)
      else if !Check(ts, c.pos, RIGHT_PAREN) then Step(Abandoned, c.pos, c.reports + [Report(ts[c.pos], WhileCloseMessage)])
      else
        var b := Statement(ts, c.pos + 1, c.reports);
        if b.result.Abandoned? then Abandon(b)
        else Step(Parsed(While(c.result.value, b.result.value)), b.pos, b.reports)
  }

  function ForStatement(ts: seq<Token>, p: nat, rs: seq<Report>): (r: Step<Stmt>)
    requires ValidTokens(ts) && p < |ts|
    ensures Moved(ts, p, rs, r) && Quiet(rs, r)
    decreases |ts| - p, 16
  {
    if !Check(ts, p, LEFT_PAREN) then Step(Abandoned, p, rs + [Report(ts[p], ForOpenMessage)])
    else
      var init := ForInitializer(ts, p + 1, rs);
      if init.result.Abandoned? then Abandon(init)
      else
        var c := OptionalExpression(ts, init.pos, init.reports, SEMICOLON);
        if c.result.Abandoned? then Abandon(c)
        else if !Check(ts, c.pos, SEMICOLON) then Step(Abandoned, c.pos, c.reports + [Report(ts[c.pos], ForConditionMessage)])
        else ForIncrement(ts, c.pos + 1, c.reports, init.result.value, c.result.value)
  }

  /**
   * The rest of a `for` after its condition clause: the increment clause,
   * the `)`, the body and the desugaring.
   */
  function ForIncrement(ts: seq<Token>, p: nat, rs: seq<Report>, init: Option<Stmt>, condition: Option<Expr>): (r: Step<Stmt>)
    requires ValidTokens(ts) && p < |ts|
    ensures Confined(ts, p, rs, r)
    ensures (init.Some? ==> Complete(init.value)) ==> Quiet(rs, r)
    decreases |ts| - p, 16
  {
    var inc := OptionalExpression(ts, p, rs, RIGHT_PAREN);
    if inc.result.Abandoned? then Abandon(inc)
    else if !Check(ts, inc.pos, RIGHT_PAREN) then Step(Abandoned, inc.pos, inc.reports + [Report(ts[inc.pos], ForClausesMessage)])
    else
      var b := Statement(ts, inc.pos + 1, inc.reports);
      if b.result.Abandoned? then Abandon(b)
      else Step(Parsed(Desugar(init, condition, inc.result.value, b.result.value)), b.pos, b.reports)
  }

  /** The initializer clause of a `for`: empty, a `var` declaration or an expression statement. */
  function ForInitializer(ts: seq<Token>, p: nat, rs: seq<Report>): (r: Step<Option<Stmt>>)
    requires ValidTokens(ts) && p < |ts|
    ensures Moved(ts, p, rs, r)
    ensures r.result.Parsed? && |r.reports| == |rs| && r.result.value.Some? ==> Complete(r.result.value.value)
    decreases |ts| - p, 17
  {
    if Matches(ts, p, [SEMICOLON]) then Step(Parsed(None), p + 1, rs)
    else if Matches(ts, p, [VAR]) then Lift(VarDeclaration(ts, p + 1, rs))
    else Lift(ExpressionStatement(ts, p, rs))
  }

  /** A clause of a `for` that may be empty: no expression when `terminator` comes next. */
  function OptionalExpression(ts: seq<Token>, p: nat, rs: seq<Report>, terminator: TokenType): (r: Step<Option<Expr>>)
    requires ValidTokens(ts) && p < |ts|
    ensures Confined(ts, p, rs, r)
    ensures r.result.Parsed? && r.result.value.None? <==> Check(ts, p, terminator)
  {
    if !Check(ts, p, terminator) then Lift(Expression(ts, p, rs))
    else Step(Parsed(None), p, rs)
  }

  /**
   * The `for` desugaring: the increment runs after the body, a missing
   * condition is `true`, and the initializer runs once before the loop.
   */
  function Desugar(init: Option<Stmt>, condition: Option<Expr>, increment: Option<Expr>, body: Stmt): (s: Stmt)
    ensures (Complete(body) && (init.Some? ==> Complete(init.value))) ==> Complete(s)
  {
    var loopBody := if increment.Some? then Block([Some(body), Some(Stmt.Expression(increment.value))]) else body;
    var loop := While(if condition.Some? then condition.value else Literal(Bool(true)), loopBody);
    assert Complete(body) ==> Complete(loopBody);
    if init.Some? then Block([init, Some(loop)]) else loop
  }

  // ---------------------------------------------------------------------------
  // Expressions

  function Expression(ts: seq<Token>, p: nat, rs: seq<Report>): (r: Step<Expr>)
    requires ValidTokens(ts) && p < |ts|
    ensures Moved(ts, p, rs, r)
    decreases |ts| - p, 15
  {
    Assignment(ts, p, rs)
  }

  function Assignment(ts: seq<Token>, p: nat, rs: seq<Report>): (r: Step<Expr>)
    requires ValidTokens(ts) && p < |ts|
    ensures Moved(ts, p, rs, r)
    decreases |ts| - p, 14
  {
    var e := Level(6, ts, p, rs);
    if e.result.Abandoned? then e else AssignmentValue(ts, e.pos, e.reports, e.result.value)
  }

  /**
   * What follows the left side `target` of an assignment: nothing, or `=`
   * and the assigned value. A target that is no variable is reported at the
   * `=` and kept as the result.
   */
  function AssignmentValue(ts: seq<Token>, p: nat, rs: seq<Report>, target: Expr): (r: Step<Expr>)
    requires ValidTokens(ts) && p < |ts|
    ensures Confined(ts, p, rs, r)
    ensures !Matches(ts, p, [EQUAL]) ==> r == Step(Parsed(target), p, rs)
    ensures Matches(ts, p, [EQUAL]) && r.result.Parsed? && target.Variable? ==>
      r.result.value.Assign? && r.result.value.ident == target.ident
    ensures Matches(ts, p, [EQUAL]) && r.result.Parsed? && !target.Variable? ==>
      r.result.value == target && |rs| < |r.reports| && r.reports[|r.reports| - 1] == Report(ts[p], InvalidTargetMessage)
    decreases |ts| - p, 14
  {
    if Matches(ts, p, [EQUAL]) then
      var v := Assignment(ts, p + 1, rs);
      if v.result.Abandoned? then v
      else if target.Variable? then Step(Parsed(Assign(target.ident, v.result.value)), v.pos, v.reports)
      else Step(Parsed(target), v.pos, v.reports + [Report(ts[p], InvalidTargetMessage)])
    else Step(Parsed(target), p, rs)
  }

  /**
   * The operators of the binary levels, innermost first: 1 `Factor`,
   * 2 `Term`, 3 `Comparison`, 4 `Equality`, 5 `And`, 6 `Or`.
   */
  function Operators(k: nat): (kinds: seq<TokenType>)
    requires 1 <= k <= 6
    ensures EOF !in kinds && EQUAL !in kinds
  {
    if k == 1 then [SLASH, STAR]
    else if k == 2 then [MINUS, PLUS]
    else if k == 3 then [GREATER, GREATER_EQUAL, LESS, LESS_EQUAL]
    else if k == 4 then [BANG_EQUAL, EQUAL_EQUAL]
    else if k == 5 then [AND]
    else [OR]
  }

  /** `And` and `Or` build `Logical` nodes; the other levels `Binary` ones. */
  function Combine(k: nat, left: Expr, op: Token, right: Expr): (e: Expr)
    ensures k >= 5 ==> e == Logical(left, op, right)
    ensures k < 5 ==> e == Binary(left, op, right)
  {
    if k >= 5 then Logical(left, op, right) else Binary(left, op, right)
  }

  /** The operand parser of level `k`: the level below it, or `Unary`. */
  function Operand(k: nat, ts: seq<Token>, p: nat, rs: seq<Report>): (r: Step<Expr>)
    requires 1 <= k <= 6 && ValidTokens(ts) && p < |ts|
    ensures Moved(ts, p, rs, r)
    decreases |ts| - p, 2 * k
  {
    if k == 1 then Unary(ts, p, rs) else Level(k - 1, ts, p, rs)
  }

  /** Binary level `k`: an operand, then the level's loop, which ends only in front of no operator of the level. */
  function Level(k: nat, ts: seq<Token>, p: nat, rs: seq<Report>): (r: Step<Expr>)
    requires 1 <= k <= 6 && ValidTokens(ts) && p < |ts|
    ensures Moved(ts, p, rs, r)
    ensures r.result.Parsed? ==> !Matches(ts, r.pos, Operators(k))
    decreases |ts| - p, 2 * k + 1
  {
    var l := Operand(k, ts, p, rs);
    if l.result.Abandoned? then l else LevelLoop(k, ts, l.pos, l.reports, l.result.value)
  }

  /** The `while (Match(...))` loop of level `k`, `left` the expression so far. */
  function LevelLoop(k: nat, ts: seq<Token>, p: nat, rs: seq<Report>, left: Expr): (r: Step<Expr>)
    requires 1 <= k <= 6 && ValidTokens(ts) && p < |ts|
    ensures Confined(ts, p, rs, r)
    ensures r.result.Parsed? ==> !Matches(ts, r.pos, Operators(k))
    ensures !Matches(ts, p, Operators(k)) ==> r == Step(Parsed(left), p, rs)
    decreases |ts| - p, 2 * k + 1
  {
    if Matches(ts, p, Operators(k)) then
      var right := Operand(k, ts, p + 1, rs);
      if right.result.Abandoned? then right
      else LevelLoop(k, ts, right.pos, right.reports, Combine(k, left, ts[p], right.result.value))
    else Step(Parsed(left), p, rs)
  }

  function Unary(ts: seq<Token>, p: nat, rs: seq<Report>): (r: Step<Expr>)
    requires ValidTokens(ts) && p < |ts|
    ensures Moved(ts, p, rs, r)
    decreases |ts| - p, 1
  {
    if Matches(ts, p, [BANG, MINUS]) then
      var right := Unary(ts, p + 1, rs);
      if right.result.Abandoned? then right
      else Step(Parsed(Expr.Unary(ts[p], right.result.value)), right.pos, right.reports)
    else Primary(ts, p, rs)
  }

  /** The binary operators `Primary` treats as a missing left-hand operand. */
  const MissingOperandKinds: seq<TokenType> :=
    [BANG_EQUAL, EQUAL, EQUAL_EQUAL, GREATER, GREATER_EQUAL, LESS, LESS_EQUAL, MINUS, PLUS, SLASH, STAR]

  function Primary(ts: seq<Token>, p: nat, rs: seq<Report>): (r: Step<Expr>)
    requires ValidTokens(ts) && p < |ts|
    ensures Moved(ts, p, rs, r)
    decreases |ts| - p, 0
  {
    if Matches(ts, p, [TRUE]) then Step(Parsed(Literal(Bool(true))), p + 1, rs)
    else if Matches(ts, p, [FALSE]) then Step(Parsed(Literal(Bool(false))), p + 1, rs)
    else if Matches(ts, p, [NIL]) then Step(Parsed(Literal(Nil)), p + 1, rs)
    else if Matches(ts, p, [NUMBER, STRING]) then Step(Parsed(Literal(ts[p].literal)), p + 1, rs)
    else if Matches(ts, p, [IDENTIFIER]) then Step(Parsed(Variable(ts[p])), p + 1, rs)
    else if Matches(ts, p, [LEFT_PAREN]) then
      var e := Expression(ts, p + 1, rs);
      if e.result.Abandoned? then e
      else Expect(ts, e.pos, e.reports, RIGHT_PAREN, GroupingMessage, Grouping(e.result.value))
    else if Matches(ts, p, MissingOperandKinds) then
      Expression(ts, p + 1, rs + [Report(ts[p], MissingOperandMessage)])
    else Step(Abandoned, p, rs + [Report(ts[p], ExpectedExpressionMessage)])
  }

  // ---------------------------------------------------------------------------
  // Error recovery and the whole program

  /** The statement keywords `SynchronizeState` stops in front of. */
  const SyncKinds: seq<TokenType> := [CLASS, FUN, VAR, FOR, IF, WHILE, PRINT, RETURN]

  /** `SynchronizeState` from cursor `q`: eat one token, then run `SyncLoop`. */
  function Synchronize(ts: seq<Token>, q: nat): (r: nat)
    requires ValidTokens(ts) && q < |ts|
    ensures q <= r < |ts|
    ensures !AtEnd(ts, q) ==> q < r
  {
    SyncLoop(ts, Advance(ts, q))
  }

  /** The loop of `SynchronizeState`. */
  function SyncLoop(ts: seq<Token>, q: nat): (r: nat)
    requires ValidTokens(ts) && q < |ts| && (AtEnd(ts, q) || 0 < q)
    ensures q <= r < |ts|
    decreases |ts| - q
  {
    if AtEnd(ts, q) then q
    else if ts[q - 1].kind == SEMICOLON then q
    else if ts[q].kind in SyncKinds then q
    else SyncLoop(ts, q + 1)
  }

  /** What `Parse` leaves: its statement list and the reports it made. */
  datatype Program = Program(statements: seq<Option<Stmt>>, reports: seq<Report>)

  /** The loop of `Parse` from cursor `p`. */
  function ParseFrom(ts: seq<Token>, p: nat, rs: seq<Report>, acc: seq<Option<Stmt>>): (r: Program)
    requires ValidTokens(ts) && p < |ts|
    ensures rs <= r.reports && acc <= r.statements
    decreases |ts| - p
  {
    if AtEnd(ts, p) then Program(acc, rs)
    else
      var d := Declaration(ts, p, rs);
      ParseFrom(ts, d.pos, d.reports, acc + [d.result.value])
  }

  function Parse(ts: seq<Token>): Program
    requires ValidTokens(ts)
  {
    ParseFrom(ts, 0, [], [])
  }
}
