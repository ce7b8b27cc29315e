/**
 * Properties of the jox grammar: precedence and associativity of the
 * expression ladder, assignment, the error productions of `Primary`, panic-
 * mode recovery, and what the reports say about the statement list.
 */
module GrammarFacts {
  import opened Wrappers
  import opened Values
  import opened Tokens
  import opened Ast
  import opened Grammar

  /** Tokens `Primary` turns into an expression on their own. */
  predicate IsAtom(t: Token) {
    t.kind in [TRUE, FALSE, NIL, NUMBER, STRING, IDENTIFIER]
  }

  /** The expression `Primary` builds from an atom. */
  function AtomExpr(t: Token): (e: Expr)
    requires IsAtom(t)
    ensures t.kind == IDENTIFIER ==> e == Variable(t)
    ensures t.kind in [NUMBER, STRING] ==> e == Literal(t.literal)
  {
    if t.kind == TRUE then Literal(Bool(true))
    else if t.kind == FALSE then Literal(Bool(false))
    else if t.kind == NIL then Literal(Nil)
    else if t.kind == IDENTIFIER then Variable(t)
    else Literal(t.literal)
  }

  /**
   * A unary expression followed by no operator of the levels below `k` is
   * a whole operand of level `k`.
   */
  lemma {:induction false} WholeOperand(k: nat, ts: seq<Token>, p: nat, rs: seq<Report>)
    requires 1 <= k <= 6 && ValidTokens(ts) && p < |ts| && Grammar.Unary(ts, p, rs).result.Parsed?
    requires forall j :: 1 <= j < k ==> ts[Grammar.Unary(ts, p, rs).pos].kind !in Operators(j)
    ensures Operand(k, ts, p, rs) == Grammar.Unary(ts, p, rs)
  {
    if k > 1 {
      WholeOperand(k - 1, ts, p, rs);
      var u := Grammar.Unary(ts, p, rs);
      assert ts[u.pos].kind !in Operators(k - 1);
      assert LevelLoop(k - 1, ts, u.pos, u.reports, u.result.value) == u;
    }
  }

  /**
   * An atom followed by no operator of the levels below `k` is a whole
   * operand of level `k`, and nothing is reported.
   */
  lemma AtomOperand(k: nat, ts: seq<Token>, p: nat, rs: seq<Report>)
    requires 1 <= k <= 6 && ValidTokens(ts) && p + 1 < |ts| && IsAtom(ts[p])
    requires forall j :: 1 <= j < k ==> ts[p + 1].kind !in Operators(j)
    ensures Operand(k, ts, p, rs) == Step(Parsed(AtomExpr(ts[p])), p + 1, rs)
  {
    assert Grammar.Unary(ts, p, rs) == Step(Parsed(AtomExpr(ts[p])), p + 1, rs);
    WholeOperand(k, ts, p, rs);
  }

  /** An atom followed by a token that is no binary operator is a whole `Or` operand. */
  lemma AtomOr(ts: seq<Token>, p: nat, rs: seq<Report>)
    requires ValidTokens(ts) && p + 1 < |ts| && IsAtom(ts[p])
    requires ts[p + 1].kind in [EQUAL, SEMICOLON]
    ensures Level(6, ts, p, rs) == Step(Parsed(AtomExpr(ts[p])), p + 1, rs)
  {
    AtomOperand(6, ts, p, rs);
  }

  /** `a + b * c`: `*` binds tighter than `+`. */
  lemma ProductBindsTighter(ts: seq<Token>, p: nat, rs: seq<Report>)
    requires ValidTokens(ts) && p + 5 < |ts|
    requires IsAtom(ts[p]) && ts[p + 1].kind == PLUS && IsAtom(ts[p + 2])
    requires ts[p + 3].kind == STAR && IsAtom(ts[p + 4]) && ts[p + 5].kind == SEMICOLON
    ensures var a, b, c := AtomExpr(ts[p]), AtomExpr(ts[p + 2]), AtomExpr(ts[p + 4]);
      Level(2, ts, p, rs) == Step(Parsed(Binary(a, ts[p + 1], Binary(b, ts[p + 3], c))), p + 5, rs)
  {
    var a, b, c := AtomExpr(ts[p]), AtomExpr(ts[p + 2]), AtomExpr(ts[p + 4]);
    AtomOperand(2, ts, p, rs);
    AtomOperand(1, ts, p + 2, rs);
    AtomOperand(1, ts, p + 4, rs);
    var bc := Binary(b, ts[p + 3], c);
    assert LevelLoop(1, ts, p + 3, rs, b) == Step(Parsed(bc), p + 5, rs);
    assert Operand(2, ts, p + 2, rs) == Step(Parsed(bc), p + 5, rs);
    assert LevelLoop(2, ts, p + 1, rs, a) == LevelLoop(2, ts, p + 5, rs, Binary(a, ts[p + 1], bc));
  }

  /** `a - b - c`: a binary level groups to the left. */
  lemma DifferenceGroupsLeft(ts: seq<Token>, p: nat, rs: seq<Report>)
    requires ValidTokens(ts) && p + 5 < |ts|
    requires IsAtom(ts[p]) && ts[p + 1].kind == MINUS && IsAtom(ts[p + 2])
    requires ts[p + 3].kind == MINUS && IsAtom(ts[p + 4]) && ts[p + 5].kind == SEMICOLON
    ensures var a, b, c := AtomExpr(ts[p]), AtomExpr(ts[p + 2]), AtomExpr(ts[p + 4]);
      Level(2, ts, p, rs) == Step(Parsed(Binary(Binary(a, ts[p + 1], b), ts[p + 3], c)), p + 5, rs)
  {
    var a, b, c := AtomExpr(ts[p]), AtomExpr(ts[p + 2]), AtomExpr(ts[p + 4]);
    AtomOperand(2, ts, p, rs);
    AtomOperand(2, ts, p + 2, rs);
    AtomOperand(2, ts, p + 4, rs);
    var ab := Binary(a, ts[p + 1], b);
    assert LevelLoop(2, ts, p + 1, rs, a) == LevelLoop(2, ts, p + 3, rs, ab);
    assert LevelLoop(2, ts, p + 3, rs, ab) == LevelLoop(2, ts, p + 5, rs, Binary(ab, ts[p + 3], c));
  }

  /** `a = b = c`: assignment groups to the right. */
  lemma AssignmentGroupsRight(ts: seq<Token>, p: nat, rs: seq<Report>)
    requires ValidTokens(ts) && p + 5 < |ts|
    requires ts[p].kind == IDENTIFIER && ts[p + 1].kind == EQUAL && ts[p + 2].kind == IDENTIFIER
    requires ts[p + 3].kind == EQUAL && IsAtom(ts[p + 4]) && ts[p + 5].kind == SEMICOLON
    ensures Grammar.Expression(ts, p, rs) == Step(Parsed(Assign(ts[p], Assign(ts[p + 2], AtomExpr(ts[p + 4])))), p + 5, rs)
  {
    var c := AtomExpr(ts[p + 4]);
    AtomOr(ts, p, rs);
    AtomOr(ts, p + 2, rs);
    AtomOr(ts, p + 4, rs);
    assert AssignmentValue(ts, p + 5, rs, c) == Step(Parsed(c), p + 5, rs);
    assert Assignment(ts, p + 4, rs) == Step(Parsed(c), p + 5, rs);
    assert AssignmentValue(ts, p + 3, rs, Variable(ts[p + 2])) == Step(Parsed(Assign(ts[p + 2], c)), p + 5, rs);
    assert Assignment(ts, p + 2, rs) == Step(Parsed(Assign(ts[p + 2], c)), p + 5, rs);
    assert AssignmentValue(ts, p + 1, rs, Variable(ts[p])) == Step(Parsed(Assign(ts[p], Assign(ts[p + 2], c))), p + 5, rs);
  }

  /**
   * `1 = 2`: a left side that is no variable is reported at the `=` but not
   * abandoned; the left side is the result.
   */
  lemma InvalidTargetKeepsLeft(ts: seq<Token>, p: nat, rs: seq<Report>)
    requires ValidTokens(ts) && p + 3 < |ts|
    requires IsAtom(ts[p]) && ts[p].kind != IDENTIFIER && ts[p + 1].kind == EQUAL
    requires IsAtom(ts[p + 2]) && ts[p + 3].kind == SEMICOLON
    ensures Grammar.Expression(ts, p, rs) == Step(Parsed(AtomExpr(ts[p])), p + 3, rs + [Report(ts[p + 1], InvalidTargetMessage)])
  {
    var a, b := AtomExpr(ts[p]), AtomExpr(ts[p + 2]);
    AtomOr(ts, p, rs);
    AtomOr(ts, p + 2, rs);
    assert AssignmentValue(ts, p + 3, rs, b) == Step(Parsed(b), p + 3, rs);
    assert Assignment(ts, p + 2, rs) == Step(Parsed(b), p + 3, rs);
    assert AssignmentValue(ts, p + 1, rs, a) == Step(Parsed(a), p + 3, rs + [Report(ts[p + 1], InvalidTargetMessage)]);
  }

  /**
   * The left fold of level `k`: `first`, then each operator with the operand
   * after it, the last one outermost.
   */
  function FoldLeft(k: nat, first: Expr, ops: seq<Token>, operands: seq<Expr>): Expr
    requires |ops| == |operands|
    decreases |ops|
  {
    if |ops| == 0 then first
    else
      var n := |ops| - 1;
      Combine(k, FoldLeft(k, first, ops[..n], operands[..n]), ops[n], operands[n])
  }

  /**
   * A chain of level `k` at `p`: an operand `first`, then `|ops|` times an
   * operator of the level and an operand; `ends[i]` and `logs[i]` are the
   * cursor and the reports after the i-th operand, and no operator of the
   * level follows the last one.
   */
  predicate Chain(k: nat, ts: seq<Token>, p: nat, rs: seq<Report>, first: Expr, ops: seq<Token>,
                  operands: seq<Expr>, ends: seq<nat>, logs: seq<seq<Report>>)
    requires 1 <= k <= 6 && ValidTokens(ts) && p < |ts|
  {
    && |ops| == |operands| && |ends| == |logs| == |ops| + 1
    && (forall i :: 0 <= i < |ends| ==> ends[i] < |ts|)
    && Operand(k, ts, p, rs) == Step(Parsed(first), ends[0], logs[0])
    && (forall i :: 0 <= i < |ops| ==>
          && Matches(ts, ends[i], Operators(k)) && ts[ends[i]] == ops[i]
          && Operand(k, ts, ends[i] + 1, logs[i]) == Step(Parsed(operands[i]), ends[i + 1], logs[i + 1]))
    && !Matches(ts, ends[|ops|], Operators(k))
  }

  /** The loop of level `k`, entered after the i-th operand of a chain, finishes the fold. */
  lemma {:induction false} LoopFolds(k: nat, ts: seq<Token>, p: nat, rs: seq<Report>, first: Expr, ops: seq<Token>,
                                     operands: seq<Expr>, ends: seq<nat>, logs: seq<seq<Report>>, i: nat)
    requires 1 <= k <= 6 && ValidTokens(ts) && p < |ts|
    requires Chain(k, ts, p, rs, first, ops, operands, ends, logs) && i <= |ops|
    ensures LevelLoop(k, ts, ends[i], logs[i], FoldLeft(k, first, ops[..i], operands[..i]))
         == Step(Parsed(FoldLeft(k, first, ops, operands)), ends[|ops|], logs[|ops|])
    decreases |ops| - i
  {
    if i == |ops| {
      assert ops[..i] == ops && operands[..i] == operands;
    } else {
      var left := FoldLeft(k, first, ops[..i], operands[..i]);
      assert ops[..i + 1][..i] == ops[..i] && operands[..i + 1][..i] == operands[..i];
      assert FoldLeft(k, first, ops[..i + 1], operands[..i + 1]) == Combine(k, left, ops[i], operands[i]);
      LoopFolds(k, ts, p, rs, first, ops, operands, ends, logs, i + 1);
    }
  }

  /**
   * Every binary level groups to the left, whatever its operands: a chain of
   * operands of the level below parses as their left fold, and nothing else
   * is reported than what the operands reported.
   */
  lemma LevelFoldsLeft(k: nat, ts: seq<Token>, p: nat, rs: seq<Report>, first: Expr, ops: seq<Token>,
                       operands: seq<Expr>, ends: seq<nat>, logs: seq<seq<Report>>)
    requires 1 <= k <= 6 && ValidTokens(ts) && p < |ts|
    requires Chain(k, ts, p, rs, first, ops, operands, ends, logs)
    ensures Level(k, ts, p, rs) == Step(Parsed(FoldLeft(k, first, ops, operands)), ends[|ops|], logs[|ops|])
  {
    LoopFolds(k, ts, p, rs, first, ops, operands, ends, logs, 0);
  }

  /**
   * The assignment rule for any left side: `=` and a parsed value build an
   * `Assign` when the left side is a variable; any other left side is
   * reported at the `=`, after the value's reports, and kept as the result.
   * Without `=` the left side is the whole expression.
   */
  lemma AssignmentTarget(ts: seq<Token>, p: nat, rs: seq<Report>)
    requires ValidTokens(ts) && p < |ts|
    ensures var e := Level(6, ts, p, rs);
      e.result.Parsed? && !Matches(ts, e.pos, [EQUAL]) ==> Grammar.Expression(ts, p, rs) == e
    ensures var e := Level(6, ts, p, rs);
      e.result.Parsed? && Matches(ts, e.pos, [EQUAL]) ==>
        var target, v := e.result.value, Grammar.Expression(ts, e.pos + 1, e.reports);
        && (v.result.Abandoned? ==> Grammar.Expression(ts, p, rs) == v)
        && (v.result.Parsed? && target.Variable? ==>
              Grammar.Expression(ts, p, rs) == Step(Parsed(Assign(target.ident, v.result.value)), v.pos, v.reports))
        && (v.result.Parsed? && !target.Variable? ==>
              Grammar.Expression(ts, p, rs) == Step(Parsed(target), v.pos, v.reports + [Report(ts[e.pos], InvalidTargetMessage)]))
  {
    var e := Level(6, ts, p, rs);
    assert Grammar.Expression(ts, p, rs) == Assignment(ts, p, rs);
    if e.result.Parsed? {
      assert Assignment(ts, p, rs) == AssignmentValue(ts, e.pos, e.reports, e.result.value);
      if Matches(ts, e.pos, [EQUAL]) {
        assert Grammar.Expression(ts, e.pos + 1, e.reports) == Assignment(ts, e.pos + 1, e.reports);
      }
    }
  }

  /**
   * A binary operator with no left operand (`-` excepted: `Unary` takes it
   * first) is reported at the operator, and a fresh expression is parsed
   * after it in place of the operand.
   */
  lemma MissingOperandSkipped(ts: seq<Token>, p: nat, rs: seq<Report>)
    requires ValidTokens(ts) && p < |ts|
    requires ts[p].kind in MissingOperandKinds && ts[p].kind != MINUS
    ensures p + 1 < |ts|
    ensures Grammar.Unary(ts, p, rs) == Grammar.Expression(ts, p + 1, rs + [Report(ts[p], MissingOperandMessage)])
  {
    MissingOperandPrimary(ts, p, rs);
    assert !Matches(ts, p, [BANG, MINUS]);
  }

  /** The `Primary` part of `MissingOperandSkipped`. */
  lemma MissingOperandPrimary(ts: seq<Token>, p: nat, rs: seq<Report>)
    requires ValidTokens(ts) && p < |ts|
    requires ts[p].kind in MissingOperandKinds
    ensures p + 1 < |ts|
    ensures Primary(ts, p, rs) == Grammar.Expression(ts, p + 1, rs + [Report(ts[p], MissingOperandMessage)])
  {
    var k := ts[p].kind;
    assert k != TRUE && k != FALSE && k != NIL && k != NUMBER && k != STRING && k != IDENTIFIER;
    assert k != LEFT_PAREN && k != EOF;
  }

  /** `+ 1;`: the operator is reported and `1` is the expression. */
  lemma MissingOperandRecovers(ts: seq<Token>, p: nat, rs: seq<Report>)
    requires ValidTokens(ts) && p + 2 < |ts|
    requires ts[p].kind in MissingOperandKinds && ts[p].kind != MINUS
    requires IsAtom(ts[p + 1]) && ts[p + 2].kind == SEMICOLON
    ensures Grammar.Expression(ts, p, rs) == Step(Parsed(AtomExpr(ts[p + 1])), p + 2, rs + [Report(ts[p], MissingOperandMessage)])
  {
    var rs' := rs + [Report(ts[p], MissingOperandMessage)];
    var x := Step(Parsed(AtomExpr(ts[p + 1])), p + 2, rs');
    AtomOr(ts, p + 1, rs');
    assert AssignmentValue(ts, p + 2, rs', AtomExpr(ts[p + 1])) == x;
    assert Assignment(ts, p + 1, rs') == x;
    MissingOperandSkipped(ts, p, rs);
    WholeOperand(6, ts, p, rs);
    assert LevelLoop(6, ts, p + 2, rs', AtomExpr(ts[p + 1])) == x;
    assert Level(6, ts, p, rs) == x;
  }

  /** The tokens an expression can start with. */
  predicate StartsExpression(kind: TokenType) {
    kind in [TRUE, FALSE, NIL, NUMBER, STRING, IDENTIFIER, LEFT_PAREN, BANG, MINUS] || kind in MissingOperandKinds
  }

  /** Any other token, EOF included, abandons every operand with "Expected an Expression.". */
  lemma {:induction false} StuckOperand(k: nat, ts: seq<Token>, p: nat, rs: seq<Report>)
    requires 1 <= k <= 6 && ValidTokens(ts) && p < |ts|
    requires AtEnd(ts, p) || !StartsExpression(ts[p].kind)
    ensures Operand(k, ts, p, rs) == Step(Abandoned, p, rs + [Report(ts[p], ExpectedExpressionMessage)])
  {
    if k == 1 {
      assert Grammar.Unary(ts, p, rs) == Primary(ts, p, rs);
    } else {
      StuckOperand(k - 1, ts, p, rs);
    }
  }

  lemma ExpectedExpression(ts: seq<Token>, p: nat, rs: seq<Report>)
    requires ValidTokens(ts) && p < |ts|
    requires AtEnd(ts, p) || !StartsExpression(ts[p].kind)
    ensures Grammar.Expression(ts, p, rs) == Step(Abandoned, p, rs + [Report(ts[p], ExpectedExpressionMessage)])
  {
    StuckOperand(6, ts, p, rs);
    assert Level(6, ts, p, rs) == Operand(6, ts, p, rs);
    assert Assignment(ts, p, rs) == Level(6, ts, p, rs);
  }

  // ---------------------------------------------------------------------------
  // Recovery and the statement list

  /**
   * Where `SynchronizeState` may stop: at EOF, just after a `;`, or in
   * front of a statement keyword.
   */
  predicate SyncPoint(ts: seq<Token>, j: nat)
    requires j < |ts|
  {
    ts[j].kind == EOF || (0 < j && ts[j - 1].kind == SEMICOLON) || ts[j].kind in SyncKinds
  }

  lemma {:induction false} SyncLoopStops(ts: seq<Token>, q: nat)
    requires ValidTokens(ts) && q < |ts| && (AtEnd(ts, q) || 0 < q)
    ensures SyncPoint(ts, SyncLoop(ts, q))
    ensures forall j :: q <= j < SyncLoop(ts, q) ==> !SyncPoint(ts, j)
    decreases |ts| - q
  {
    if !SyncPoint(ts, q) {
      SyncLoopStops(ts, q + 1);
    }
  }

  /**
   * `SynchronizeState` eats one token (none at EOF) and then stops at the
   * first place it may stop.
   */
  lemma SynchronizeStops(ts: seq<Token>, q: nat)
    requires ValidTokens(ts) && q < |ts|
    ensures var r, s := Synchronize(ts, q), Advance(ts, q);
      && s <= r && SyncPoint(ts, r)
      && forall j :: s <= j < r ==> !SyncPoint(ts, j)
  {
    SyncLoopStops(ts, Advance(ts, q));
  }

  /** The number of `null` entries of a statement list. */
  function Nulls(ss: seq<Option<Stmt>>): (n: nat)
    ensures n <= |ss|
  {
    if ss == [] then 0 else Nulls(ss[..|ss| - 1]) + (if ss[|ss| - 1].None? then 1 else 0)
  }

  lemma {:induction false} ParseFromReports(ts: seq<Token>, p: nat, rs: seq<Report>, acc: seq<Option<Stmt>>)
    requires ValidTokens(ts) && p < |ts|
    ensures var r := ParseFrom(ts, p, rs, acc);
      && Nulls(r.statements) - Nulls(acc) <= |r.reports| - |rs|
      && (|r.reports| == |rs| && AllComplete(acc) ==> AllComplete(r.statements))
    decreases |ts| - p
  {
    if !AtEnd(ts, p) {
      var d := Declaration(ts, p, rs);
      var acc' := acc + [d.result.value];
      assert acc'[..|acc'| - 1] == acc;
      ParseFromReports(ts, d.pos, d.reports, acc');
    }
  }

  /**
   * Every `null` entry of the parsed program was reported, and a program
   * parsed without any report has no `null` anywhere in it.
   */
  lemma ParseReportsEveryNull(ts: seq<Token>)
    requires ValidTokens(ts)
    ensures Nulls(Parse(ts).statements) <= |Parse(ts).reports|
    ensures |Parse(ts).reports| == 0 ==> AllComplete(Parse(ts).statements)
  {
    ParseFromReports(ts, 0, [], []);
  }

  /**
   * The `while` a `for` becomes: its condition, or `true` when the clause is
   * empty, and its body followed by the increment when there is one.
   */
  predicate ForLoop(loop: Stmt, condition: Option<Expr>, increment: Option<Expr>, body: Stmt) {
    && loop.While?
    && loop.condition == (if condition.Some? then condition.value else Literal(Bool(true)))
    && (increment.None? ==> loop.body == body)
    && (increment.Some? ==> loop.body == Block([Some(body), Some(Stmt.Expression(increment.value))]))
  }

  /**
   * The shape of a desugared `for`: the loop itself without an initializer,
   * and a two-statement block that runs the initializer once before the loop
   * with one.
   */
  lemma DesugarShape(init: Option<Stmt>, condition: Option<Expr>, increment: Option<Expr>, body: Stmt)
    ensures var s := Desugar(init, condition, increment, body);
      && (init.None? ==> ForLoop(s, condition, increment, body))
      && (init.Some? ==>
            && s.Block? && |s.statements| == 2 && s.statements[0] == init
            && s.statements[1].Some? && ForLoop(s.statements[1].value, condition, increment, body))
  {
  }
}
