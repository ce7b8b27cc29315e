/**
 * The jox parser as the source runs it (jox/Parsing/Parser.cs): a cursor
 * advanced by `EatToken`, a statement list appended in place, a `while` loop
 * in every binary level, in `BlockStatement` and in `SynchronizeState`. A
 * thrown `ParseError` is the result `Abandoned`, handed back up to the
 * `Declaration` that catches it. Every method is proved to have the effect of
 * the production of the same name in module Grammar.
 */
module Parsing {
  import opened Wrappers
  import opened Values
  import opened Tokens
  import opened Ast
  import G = Grammar

  class Parser {
    const tokens: seq<Token>
    var current: nat
    var statements: seq<Option<Stmt>>
    /** The calls of `Jox.ParseError` made through `Error`, oldest first. */
    var reports: seq<G.Report>

    constructor (toks: seq<Token>)
      ensures tokens == toks && current == 0 && statements == [] && reports == []
    {
      tokens := toks;
      current, statements, reports := 0, [], [];
    }

    /** The cursor is on a token of a list that ends with EOF. */
    ghost predicate Valid()
      reads this
    {
      G.ValidTokens(tokens) && current < |tokens|
    }

    /**
     * Parse `toks` from a fresh cursor. The statements, `None` for each
     * abandoned declaration, and the reports are those of Grammar.Parse.
     */
    method Parse() returns (result: seq<Option<Stmt>>)
      requires G.ValidTokens(tokens)
      modifies this
      ensures result == statements
      ensures G.Program(statements, reports) == G.Parse(tokens)
    {
      statements := [];
      current := 0;
      reports := [];
      while !AtEof()
        invariant Valid()
        invariant G.ParseFrom(tokens, current, reports, statements) == G.Parse(tokens)
        decreases |tokens| - current
      {
        var d := Declaration();
        statements := statements + [d];
      }
      result := statements;
    }

    /** A declaration; a thrown error is caught here, the state resynchronised and `None` kept. */
    method Declaration() returns (s: Option<Stmt>)
      requires Valid() && !AtEof()
      modifies this`current, this`reports
      ensures Valid()
      ensures G.Step(G.Parsed(s), current, reports) == G.Declaration(tokens, old(current), old(reports))
      decreases |tokens| - current, 18
    {
      var isVar := Match([VAR]);
      var d: G.Attempt<Stmt>;
      if isVar {
        d := VarDeclaration();
      } else {
        d := Statement();
      }
      if d.Parsed? {
        return Some(d.value);
      }
      SynchronizeState();
      return None;
    }

    method VarDeclaration() returns (r: G.Attempt<Stmt>)
      requires Valid()
      modifies this`current, this`reports
      ensures Valid()
      ensures G.Step(r, current, reports) == G.VarDeclaration(tokens, old(current), old(reports))
      decreases |tokens| - current, 16
    {
      var name := EatExpectedToken(IDENTIFIER, G.VarNameMessage);
      if name.Abandoned? {
        return G.Abandoned;
      }
      var initializer := Initializer();
      if initializer.Abandoned? {
        return G.Abandoned;
      }
      var semicolon := EatExpectedToken(SEMICOLON, G.VarSemicolonMessage);
      if semicolon.Abandoned? {
        return G.Abandoned;
      }
      return G.Parsed(Var(name.value, initializer.value));
    }

    /** The optional `= expression` of a variable declaration. */
    method Initializer() returns (r: G.Attempt<Option<Expr>>)
      requires Valid()
      modifies this`current, this`reports
      ensures Valid()
      ensures G.Step(r, current, reports) == G.Initializer(tokens, old(current), old(reports))
    {
      var hasInitializer := Match([EQUAL]);
      if !hasInitializer {
        return G.Parsed(None);
      }
      var e := Expression();
      if e.Abandoned? {
        return G.Abandoned;
      }
      return G.Parsed(Some(e.value));
    }

    method Statement() returns (r: G.Attempt<Stmt>)
      requires Valid()
      modifies this`current, this`reports
      ensures Valid()
      ensures G.Step(r, current, reports) == G.Statement(tokens, old(current), old(reports))
      decreases |tokens| - current, 17
    {
      var m := Match([FOR]);
      if m {
        r := ForStatement();
        return;
      }
      m := Match([IF]);
      if m {
        r := IfStatement();
        return;
      }
      m := Match([PRINT]);
      if m {
        r := PrintStatement();
        return;
      }
      m := Match([WHILE]);
      if m {
        r := WhileStatement();
        return;
      }
      m := Match([LEFT_BRACE]);
      if m {
        var b := BlockStatement();
        if b.Abandoned? {
          return G.Abandoned;
        }
        return G.Parsed(Block(b.value));
      }
      r := ExpressionStatement();
    }

    /** The declarations up to the closing brace, which must be there. */
    method BlockStatement() returns (r: G.Attempt<seq<Option<Stmt>>>)
      requires Valid()
      modifies this`current, this`reports
      ensures Valid()
      ensures G.Step(r, current, reports) == G.BlockStatement(tokens, old(current), old(reports), [])
      decreases |tokens| - current, 19
    {
      var list: seq<Option<Stmt>> := [];
      while !CheckPeek(RIGHT_BRACE) && !AtEof()
        invariant Valid() && old(current) <= current
        invariant G.BlockStatement(tokens, current, reports, list) == G.BlockStatement(tokens, old(current), old(reports), [])
        decreases |tokens| - current
      {
        var d := Declaration();
        list := list + [d];
      }
      var close := EatExpectedToken(RIGHT_BRACE, G.BlockMessage);
      if close.Abandoned? {
        return G.Abandoned;
      }
      return G.Parsed(list);
    }

    method ExpressionStatement() returns (r: G.Attempt<Stmt>)
      requires Valid()
      modifies this`current, this`reports
      ensures Valid()
      ensures G.Step(r, current, reports) == G.ExpressionStatement(tokens, old(current), old(reports))
      decreases |tokens| - current, 16
    {
      var e := Expression();
      if e.Abandoned? {
        return G.Abandoned;
      }
      var semicolon := EatExpectedToken(SEMICOLON, G.ExpressionSemicolonMessage);
      if semicolon.Abandoned? {
        return G.Abandoned;
      }
      return G.Parsed(Stmt.Expression(e.value));
    }

    method PrintStatement() returns (r: G.Attempt<Stmt>)
      requires Valid()
      modifies this`current, this`reports
      ensures Valid()
      ensures G.Step(r, current, reports) == G.PrintStatement(tokens, old(current), old(reports))
      decreases |tokens| - current, 16
    {
      var e := Expression();
      if e.Abandoned? {
        return G.Abandoned;
      }
      var semicolon := EatExpectedToken(SEMICOLON, G.PrintSemicolonMessage);
      if semicolon.Abandoned? {
        return G.Abandoned;
      }
      return G.Parsed(Print(e.value));
    }

    method IfStatement() returns (r: G.Attempt<Stmt>)
      requires Valid()
      modifies this`current, this`reports
      ensures Valid()
      ensures G.Step(r, current, reports) == G.IfStatement(tokens, old(current), old(reports))
      decreases |tokens| - current, 16
    {
      var open := EatExpectedToken(LEFT_PAREN, G.IfOpenMessage);
      if open.Abandoned? {
        return G.Abandoned;
      }
      var condition := Expression();
      if condition.Abandoned? {
        return G.Abandoned;
      }
      var close := EatExpectedToken(RIGHT_PAREN, G.IfCloseMessage);
      if close.Abandoned? {
        return G.Abandoned;
      }
      var thenBranch := Statement();
      if thenBranch.Abandoned? {
        return G.Abandoned;
      }
      r := ElseBranch(condition.value, thenBranch.value);
    }

    /** The rest of an `if` after its then-branch: the optional `else` branch. */
    method ElseBranch(condition: Expr, thenBranch: Stmt) returns (r: G.Attempt<Stmt>)
      requires Valid()
      modifies this`current, this`reports
      ensures Valid()
      ensures G.Step(r, current, reports) == G.ElseBranch(tokens, old(current), old(reports), condition, thenBranch)
      decreases |tokens| - current, 16
    {
      var hasElse := Match([ELSE]);
      if !hasElse {
        return G.Parsed(If(condition, thenBranch, None));
      }
      var elseBranch := Statement();
      if elseBranch.Abandoned? {
        return G.Abandoned;
      }
      return G.Parsed(If(condition, thenBranch, Some(elseBranch.value)));
    }

    method WhileStatement() returns (r: G.Attempt<Stmt>)
      requires Valid()
      modifies this`current, this`reports
      ensures Valid()
      ensures G.Step(r, current, reports) == G.WhileStatement(tokens, old(current), old(reports))
      decreases |tokens| - current, 16
    {
      var open := EatExpectedToken(LEFT_PAREN, G.WhileOpenMessage);
      if open.Abandoned? {
        return G.Abandoned;
      }
      var condition := Expression();
      if condition.Abandoned? {
        return G.Abandoned;
      }
      var close := EatExpectedToken(RIGHT_PAREN, G.WhileCloseMessage);
      if close.Abandoned? {
        return G.Abandoned;
      }
      var body := Statement();
      if body.Abandoned? {
        return G.Abandoned;
      }
      return G.Parsed(While(condition.value, body.value));
    }

    /** `ForStatement`, desugared into a `while` loop. */
    method ForStatement() returns (r: G.Attempt<Stmt>)
      requires Valid()
      modifies this`current, this`reports
      ensures Valid()
      ensures G.Step(r, current, reports) == G.ForStatement(tokens, old(current), old(reports))
      decreases |tokens| - current, 16
    {
      var open := EatExpectedToken(LEFT_PAREN, G.ForOpenMessage);
      if open.Abandoned? {
        return G.Abandoned;
      }
      var initializer := ForInitializer();
      if initializer.Abandoned? {
        return G.Abandoned;
      }
      var condition := OptionalExpression(SEMICOLON);
      if condition.Abandoned? {
        return G.Abandoned;
      }
      var semicolon := EatExpectedToken(SEMICOLON, G.ForConditionMessage);
      if semicolon.Abandoned? {
        return G.Abandoned;
      }
      r := ForIncrement(initializer.value, condition.value);
    }

    /**
     * The rest of a `for` after its condition clause: the increment clause,
     * the `)`, the body and the desugaring.
     */
    method ForIncrement(initializer: Option<Stmt>, condition: Option<Expr>) returns (r: G.Attempt<Stmt>)
      requires Valid()
      modifies this`current, this`reports
      ensures Valid()
      ensures G.Step(r, current, reports) == G.ForIncrement(tokens, old(current), old(reports), initializer, condition)
      decreases |tokens| - current, 16
    {
      var increment := OptionalExpression(RIGHT_PAREN);
      if increment.Abandoned? {
        return G.Abandoned;
      }
      var close := EatExpectedToken(RIGHT_PAREN, G.ForClausesMessage);
      if close.Abandoned? {
        return G.Abandoned;
      }
      var body := Statement();
      if body.Abandoned? {
        return G.Abandoned;
      }
      return G.Parsed(G.Desugar(initializer, condition, increment.value, body.value));
    }

    /** The initializer clause of a `for`: empty, a `var` declaration or an expression statement. */
    method ForInitializer() returns (r: G.Attempt<Option<Stmt>>)
      requires Valid()
      modifies this`current, this`reports
      ensures Valid()
      ensures G.Step(r, current, reports) == G.ForInitializer(tokens, old(current), old(reports))
      decreases |tokens| - current, 17
    {
      var m := Match([SEMICOLON]);
      if m {
        return G.Parsed(None);
      }
      m := Match([VAR]);
      if m {
        var v := VarDeclaration();
        if v.Abandoned? {
          return G.Abandoned;
        }
        return G.Parsed(Some(v.value));
      }
      var e := ExpressionStatement();
      if e.Abandoned? {
        return G.Abandoned;
      }
      return G.Parsed(Some(e.value));
    }

    /** A `for` clause that may be empty: no expression when `terminator` comes next. */
    method OptionalExpression(terminator: TokenType) returns (r: G.Attempt<Option<Expr>>)
      requires Valid()
      modifies this`current, this`reports
      ensures Valid()
      ensures G.Step(r, current, reports) == G.OptionalExpression(tokens, old(current), old(reports), terminator)
    {
      if CheckPeek(terminator) {
        return G.Parsed(None);
      }
      var e := Expression();
      if e.Abandoned? {
        return G.Abandoned;
      }
      return G.Parsed(Some(e.value));
    }

    method Expression() returns (r: G.Attempt<Expr>)
      requires Valid()
      modifies this`current, this`reports
      ensures Valid()
      ensures G.Step(r, current, reports) == G.Expression(tokens, old(current), old(reports))
      decreases |tokens| - current, 15
    {
      r := Assignment();
    }

    method Assignment() returns (r: G.Attempt<Expr>)
      requires Valid()
      modifies this`current, this`reports
      ensures Valid()
      ensures G.Step(r, current, reports) == G.Assignment(tokens, old(current), old(reports))
      decreases |tokens| - current, 14
    {
      r := Level(6);
      if r.Abandoned? {
        return;
      }
      r := AssignmentValue(r.value);
    }

    /** What follows the left side `target` of an assignment: nothing, or `=` and the value. */
    method AssignmentValue(target: Expr) returns (r: G.Attempt<Expr>)
      requires Valid()
      modifies this`current, this`reports
      ensures Valid()
      ensures G.Step(r, current, reports) == G.AssignmentValue(tokens, old(current), old(reports), target)
      decreases |tokens| - current, 14
    {
      var m := Match([EQUAL]);
      if !m {
        return G.Parsed(target);
      }
      var equals := PreviousToken();
      var value := Assignment();
      if value.Abandoned? {
        return G.Abandoned;
      }
      if target.Variable? {
        return G.Parsed(Assign(target.ident, value.value));
      }
      Error(equals, G.InvalidTargetMessage);
      return G.Parsed(target);
    }

    /** The level below binary level `k`: `Unary` below `Factor`. */
    method Operand(k: nat) returns (r: G.Attempt<Expr>)
      requires 1 <= k <= 6 && Valid()
      modifies this`current, this`reports
      ensures Valid()
      ensures G.Step(r, current, reports) == G.Operand(k, tokens, old(current), old(reports))
      decreases |tokens| - current, 2 * k
    {
      if k == 1 {
        r := Unary();
      } else {
        r := Level(k - 1);
      }
    }

    /**
     * Binary level `k` (`Factor`, `Term`, `Comparison`, `Equality`, `And`,
     * `Or` for k = 1 to 6): an operand, then one more for each operator of
     * the level, combined to the left.
     */
    method Level(k: nat) returns (r: G.Attempt<Expr>)
      requires 1 <= k <= 6 && Valid()
      modifies this`current, this`reports
      ensures Valid()
      ensures G.Step(r, current, reports) == G.Level(k, tokens, old(current), old(reports))
      decreases |tokens| - current, 2 * k + 1
    {
      r := Operand(k);
      if r.Abandoned? {
        return;
      }
      var expr := r.value;
      ghost var at := current;
      var m := Match(G.Operators(k));
      while m
        invariant Valid() && old(current) < at < |tokens|
        invariant m == G.Matches(tokens, at, G.Operators(k))
        invariant current == if m then at + 1 else at
        invariant G.LevelLoop(k, tokens, at, reports, expr) == G.Level(k, tokens, old(current), old(reports))
        decreases |tokens| - current
      {
        var op := PreviousToken();
        var right := Operand(k);
        if right.Abandoned? {
          return G.Abandoned;
        }
        expr := G.Combine(k, expr, op, right.value);
        at := current;
        m := Match(G.Operators(k));
      }
      return G.Parsed(expr);
    }

    method Unary() returns (r: G.Attempt<Expr>)
      requires Valid()
      modifies this`current, this`reports
      ensures Valid()
      ensures G.Step(r, current, reports) == G.Unary(tokens, old(current), old(reports))
      decreases |tokens| - current, 1
    {
      var m := Match([BANG, MINUS]);
      if m {
        var op := PreviousToken();
        var right := Unary();
        if right.Abandoned? {
          return G.Abandoned;
        }
        return G.Parsed(Expr.Unary(op, right.value));
      }
      r := Primary();
    }

    method Primary() returns (r: G.Attempt<Expr>)
      requires Valid()
      modifies this`current, this`reports
      ensures Valid()
      ensures G.Step(r, current, reports) == G.Primary(tokens, old(current), old(reports))
      decreases |tokens| - current, 0
    {
      var m := Match([TRUE]);
      if m {
        return G.Parsed(Literal(Bool(true)));
      }
      m := Match([FALSE]);
      if m {
        return G.Parsed(Literal(Bool(false)));
      }
      m := Match([NIL]);
      if m {
        return G.Parsed(Literal(Nil));
      }
      m := Match([NUMBER, STRING]);
      if m {
        return G.Parsed(Literal(PreviousToken().literal));
      }
      m := Match([IDENTIFIER]);
      if m {
        return G.Parsed(Variable(PreviousToken()));
      }
      m := Match([LEFT_PAREN]);
      if m {
        var e := Expression();
        if e.Abandoned? {
          return G.Abandoned;
        }
        var close := EatExpectedToken(RIGHT_PAREN, G.GroupingMessage);
        if close.Abandoned? {
          return G.Abandoned;
        }
        return G.Parsed(Grouping(e.value));
      }
      m := Match(G.MissingOperandKinds);
      if m {
        Error(PreviousToken(), G.MissingOperandMessage);
        r := Expression();
        return;
      }
      Error(Peek(), G.ExpectedExpressionMessage);
      return G.Abandoned;
    }

    /** Consume the next token when its kind is one of `kinds` and it is not EOF. */
    method Match(kinds: seq<TokenType>) returns (matched: bool)
      requires Valid()
      modifies this`current
      ensures Valid()
      ensures matched == G.Matches(tokens, old(current), kinds)
      ensures current == if matched then old(current) + 1 else old(current)
    {
      for i := 0 to |kinds|
        invariant current == old(current)
        invariant forall j :: 0 <= j < i ==> !CheckPeek(kinds[j])
      {
        if CheckPeek(kinds[i]) {
          var _ := EatToken();
          return true;
        }
      }
      return false;
    }

    /**
     * Step over the token under the cursor, except EOF, and return the token
     * before the cursor. The source indexes before the list when it is called
     * on a lone EOF, so that is excluded.
     */
    method EatToken() returns (t: Token)
      requires Valid() && (0 < current || !AtEof())
      modifies this`current
      ensures Valid() && current == G.Advance(tokens, old(current))
      ensures 0 < current && t == tokens[current - 1]
    {
      if !AtEof() {
        current := current + 1;
      }
      t := PreviousToken();
    }

    /**
     * Eat a token of the given kind, or report `message` at the token under
     * the cursor and give up.
     */
    method EatExpectedToken(kind: TokenType, message: string) returns (r: G.Attempt<Token>)
      requires Valid()
      modifies this`current, this`reports
      ensures Valid()
      ensures G.Step(r, current, reports) == G.Expect(tokens, old(current), old(reports), kind, message, tokens[old(current)])
    {
      if CheckPeek(kind) {
        var t := EatToken();
        return G.Parsed(t);
      }
      Error(Peek(), message);
      return G.Abandoned;
    }

    /** `Error(token, message)`: the call of `Jox.ParseError`, kept in the log. */
    method Error(token: Token, message: string)
      modifies this`reports
      ensures reports == old(reports) + [G.Report(token, message)]
    {
      reports := reports + [G.Report(token, message)];
    }

    /**
     * Panic-mode recovery: eat one token, then skip until just after a `;`,
     * in front of a statement keyword, or at EOF.
     */
    method SynchronizeState()
      requires Valid() && (0 < current || !AtEof())
      modifies this`current
      ensures Valid() && current == G.Synchronize(tokens, old(current))
    {
      var _ := EatToken();
      while !AtEof()
        invariant Valid() && 0 < current
        invariant G.SyncLoop(tokens, current) == G.Synchronize(tokens, old(current))
        decreases |tokens| - current
      {
        if PreviousToken().kind == SEMICOLON {
          return;
        }
        if Peek().kind in G.SyncKinds {
          return;
        }
        var _ := EatToken();
      }
    }

    predicate CheckPeek(kind: TokenType)
      requires Valid()
      reads this
    {
      G.Check(tokens, current, kind)
    }

    function Peek(): (t: Token)
      requires current < |tokens|
      reads this
      ensures t == tokens[current]
    {
      tokens[current]
    }

    function PreviousToken(): (t: Token)
      requires 0 < current <= |tokens|
      reads this
      ensures t == tokens[current - 1]
    {
      tokens[current - 1]
    }

    predicate AtEof()
      requires current < |tokens|
      reads this
    {
      G.AtEnd(tokens, current)
    }
  }
}
