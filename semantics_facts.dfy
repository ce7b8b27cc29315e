/**
 * Properties of the interpreter's semantics: the value rules of the
 * operators, the evaluation order, short-circuiting, scoping of blocks, and
 * what the loop bound `fuel` does and does not change.
 */
module SemanticsFacts {
  import opened Wrappers
  import opened Values
  import opened Tokens
  import opened Ast
  import opened RuntimeErrors
  import opened Environments
  import opened Semantics

  /** `nil` and `false` are the only falsy values; `0` and `""` are truthy. */
  lemma Truthiness(v: Value)
    ensures !IsTruthy(v) <==> v == Nil || v == Bool(false)
    ensures IsTruthy(Num(0.0)) && IsTruthy(Str(""))
  {
  }

  /** Both values are of the same one of the four kinds. */
  predicate SameKind(a: Value, b: Value) {
    (a.Nil? && b.Nil?) || (a.Bool? && b.Bool?) || (a.Num? && b.Num?) || (a.Str? && b.Str?)
  }

  /** `==` and `!=` never fault, and values of different kinds are unequal. */
  lemma EqualityTotal(op: Token, a: Value, b: Value)
    requires op.kind == EQUAL_EQUAL || op.kind == BANG_EQUAL
    ensures BinaryOp(op, a, b).Ok? && BinaryOp(op, a, b).value.Bool?
    ensures BinaryOp(op, a, b).value.b == (if op.kind == EQUAL_EQUAL then a == b else a != b)
    ensures !SameKind(a, b) ==> BinaryOp(op, a, b).value.b == (op.kind == BANG_EQUAL)
  {
  }

  /**
   * The comparisons, `-`, `*` and `/` fault with "Operands must be numbers."
   * exactly when an operand is not a number; on two numbers only `/` by zero
   * faults. Comparisons give a bool, the arithmetic operators a number.
   */
  lemma NumericOperands(op: Token, a: Value, b: Value)
    requires NumericOperator(op.kind)
    ensures !(a.Num? && b.Num?) <==> BinaryOp(op, a, b) == Fault(RuntimeError(op, OperandsMessage))
    ensures a.Num? && b.Num? ==>
      (BinaryOp(op, a, b).Fault? <==> op.kind == SLASH && b.n == 0.0)
    ensures BinaryOp(op, a, b).Ok? ==>
      (BinaryOp(op, a, b).value.Bool? <==> op.kind != MINUS && op.kind != SLASH && op.kind != STAR)
  {
  }

  /**
   * Division by zero is caught after the number check and before dividing;
   * any other divisor divides.
   */
  lemma Division(op: Token, a: Value, b: Value)
    requires op.kind == SLASH
    ensures a.Num? && b == Num(0.0) ==> BinaryOp(op, a, b) == Fault(RuntimeError(op, DivisionMessage))
    ensures !a.Num? ==> BinaryOp(op, a, b) == Fault(RuntimeError(op, OperandsMessage))
    ensures a.Num? && b.Num? && b.n != 0.0 ==> BinaryOp(op, a, b) == Ok(Num(a.n / b.n))
  {
  }

  /** `+` adds two numbers, concatenates two strings, and faults on anything else. */
  lemma Plus(op: Token, a: Value, b: Value)
    requires op.kind == PLUS
    ensures BinaryOp(op, a, b).Ok? <==> (a.Num? && b.Num?) || (a.Str? && b.Str?)
    ensures a.Num? && b.Num? ==> BinaryOp(op, a, b) == Ok(Num(a.n + b.n))
    ensures a.Str? && b.Str? ==> BinaryOp(op, a, b) == Ok(Str(a.s + b.s))
    ensures BinaryOp(op, a, b).Fault? ==> BinaryOp(op, a, b).error == RuntimeError(op, PlusMessage)
  {
  }

  /** Unary `-` needs a number and negates it; `!` negates truthiness and never faults. */
  lemma UnaryOperands(op: Token, v: Value)
    ensures op.kind == MINUS ==> (UnaryOp(op, v).Ok? <==> v.Num?)
    ensures op.kind == MINUS && v.Num? ==> UnaryOp(op, v) == Ok(Num(-v.n))
    ensures op.kind == MINUS && !v.Num? ==> UnaryOp(op, v) == Fault(RuntimeError(op, OperandMessage))
    ensures op.kind == BANG ==> UnaryOp(op, v) == Ok(Bool(!IsTruthy(v)))
  {
  }

  /**
   * A binary expression evaluates its left operand, then its right one, and
   * only then applies the operator: a fault of the operator keeps the effects
   * of both operands, and a fault of the left operand skips the right one.
   */
  lemma BinaryOrder(values: Store, left: Expr, op: Token, right: Expr)
    ensures var l := Eval(values, left);
      && (l.result.Fault? ==> Eval(values, Binary(left, op, right)) == l)
      && (l.result.Ok? ==>
            var r := Eval(l.values, right);
            Eval(values, Binary(left, op, right)).values == r.values
            && (r.result.Ok? ==> Eval(values, Binary(left, op, right)).result
                                   == BinaryOp(op, l.result.value, r.result.value)))
  {
  }

  /**
   * A successful logical expression yields either the left operand's value
   * or the right operand's, never a value of its own.
   */
  lemma LogicalYieldsOperand(values: Store, left: Expr, op: Token, right: Expr)
    ensures var l := Eval(values, left);
      var e := Eval(values, Logical(left, op, right));
      e.result.Ok? ==> e.result.value == l.result.value || e.result == Eval(l.values, right).result
  {
  }

  /**
   * `or` with a truthy left value and `and` with a falsy one give the left
   * operand's evaluation; otherwise the right operand is evaluated in the
   * store the left one left.
   */
  lemma ShortCircuitRule(values: Store, left: Expr, op: Token, right: Expr)
    requires op.kind == OR || op.kind == AND
    ensures var l := Eval(values, left);
      l.result.Ok? ==>
        Eval(values, Logical(left, op, right))
          == (if (op.kind == OR) == IsTruthy(l.result.value) then l else Eval(l.values, right))
  {
  }

  /**
   * Once the left value decides, the right operand is never evaluated: any
   * other right operand gives the same evaluation.
   */
  lemma DecidedIgnoresRight(values: Store, left: Expr, op: Token, right: Expr, other: Expr)
    requires op.kind == OR || op.kind == AND
    requires Eval(values, left).result.Ok?
    requires (op.kind == OR) == IsTruthy(Eval(values, left).result.value)
    ensures Eval(values, Logical(left, op, other)) == Eval(values, Logical(left, op, right))
  {
  }

  /** Evaluating an expression never creates or removes a variable. */
  lemma {:induction false} EvalKeepsNames(values: Store, e: Expr)
    ensures Eval(values, e).values.Keys == values.Keys
    decreases e
  {
    match e
    case Literal(_) =>
    case Variable(_) =>
    case Grouping(inner) => EvalKeepsNames(values, inner);
    case Assign(_, value) => EvalKeepsNames(values, value);
    case Unary(_, right) => EvalKeepsNames(values, right);
    case Binary(left, _, right) =>
      EvalKeepsNames(values, left);
      EvalKeepsNames(Eval(values, left).values, right);
    case Logical(left, _, right) =>
      EvalKeepsNames(values, left);
      EvalKeepsNames(Eval(values, left).values, right);
  }

  /** `var x;` binds `x` to nil. */
  lemma VarWithoutInitializer(format: Format, fuel: nat, values: Store, output: seq<string>, ident: Token)
    ensures var r := Exec(format, fuel, values, output, Var(ident, None));
      && r.outcome == Normal && r.output == output
      && Lookup(r.values, ident) == Ok(Nil)
  {
  }

  /** `print e;` writes one line, the rendering of the value, and nothing else. */
  lemma PrintWritesOneLine(format: Format, fuel: nat, values: Store, output: seq<string>, e: Expr)
    ensures var v := Eval(values, e);
      var r := Exec(format, fuel, values, output, Print(e));
      && (v.result.Ok? ==> r.output == output + [Stringify(format, v.result.value)])
      && (v.result.Fault? ==> r.output == output && r.outcome == Faulted(v.result.error))
  {
  }

  /**
   * `Stringify` writes `nil` for null, a number without a trailing ".0",
   * a string as it is, and a bool as "True" or "False".
   */
  lemma StringifyRules(format: Format, n: real, text: string, s: string)
    requires format.number(n) == text + ".0"
    ensures Stringify(format, Nil) == "nil"
    ensures Stringify(format, Num(n)) == text
    ensures Stringify(format, Str(s)) == s
    ensures Stringify(format, Bool(true)) == "True" && Stringify(format, Bool(false)) == "False"
  {
    assert format.number(n)[|format.number(n)| - 2..] == ".0";
  }

  /**
   * A block leaves the store of the enclosing scope exactly as it found it,
   * whether its statements end normally or not.
   */
  lemma BlockKeepsStore(format: Format, fuel: nat, values: Store, output: seq<string>, ss: seq<Option<Stmt>>)
    requires Complete(Block(ss))
    ensures Exec(format, fuel, values, output, Block(ss)).values == values
    ensures Exec(format, fuel, values, output, Block(ss)).outcome
      == ExecList(format, fuel, map[], output, Block(ss), 0).outcome
  {
  }

  /**
   * A block starts from an empty scope: a variable of the enclosing scope is
   * undefined inside it, whatever the enclosing store holds.
   */
  lemma BlockHidesEnclosing(format: Format, fuel: nat, values: Store, output: seq<string>, name: Token)
    requires name.lexeme in values
    ensures Exec(format, fuel, values, output, Block([Some(Expression(Variable(name)))])).outcome
      == Faulted(Undefined(name))
  {
    var block := Block([Some(Expression(Variable(name)))]);
    assert ExecList(format, fuel, map[], output, block, 0)
      == Exec(format, fuel, map[], output, Expression(Variable(name)));
  }

  /**
   * The statement list stops at the first statement that does not end
   * normally: its result is the list's result, and no later statement runs.
   */
  lemma StopsAtFirstFault(format: Format, fuel: nat, values: Store, output: seq<string>, block: Stmt, i: nat)
    requires block.Block? && Complete(block) && i < |block.statements|
    requires !Exec(format, fuel, values, output, block.statements[i].value).outcome.Normal?
    ensures ExecList(format, fuel, values, output, block, i)
      == Exec(format, fuel, values, output, block.statements[i].value)
  {
  }

  /** Execution only appends to the console: lines written are never taken back. */
  lemma {:induction false} ExecOutputGrows(format: Format, fuel: nat, values: Store, output: seq<string>, s: Stmt)
    requires Complete(s)
    ensures output <= Exec(format, fuel, values, output, s).output
    decreases fuel, s, 1, 0
  {
    match s
    case Expression(_) =>
    case Print(_) =>
    case Var(_, _) =>
    case Block(_) => ListOutputGrows(format, fuel, map[], output, s, 0);
    case If(condition, thenBranch, elseBranch) =>
      var c := Eval(values, condition);
      if c.result.Ok? {
        if IsTruthy(c.result.value) {
          ExecOutputGrows(format, fuel, c.values, output, thenBranch);
        } else if elseBranch.Some? {
          ExecOutputGrows(format, fuel, c.values, output, elseBranch.value);
        }
      }
    case While(_, _) => LoopOutputGrows(format, fuel, values, output, s);
  }

  lemma {:induction false} ListOutputGrows(format: Format, fuel: nat, values: Store, output: seq<string>, block: Stmt, i: nat)
    requires block.Block? && Complete(block) && i <= |block.statements|
    ensures output <= ExecList(format, fuel, values, output, block, i).output
    decreases fuel, block, 0, |block.statements| - i
  {
    if i < |block.statements| {
      var r := Exec(format, fuel, values, output, block.statements[i].value);
      ExecOutputGrows(format, fuel, values, output, block.statements[i].value);
      if r.outcome.Normal? {
        ListOutputGrows(format, fuel, r.values, r.output, block, i + 1);
      }
    }
  }

  lemma {:induction false} LoopOutputGrows(format: Format, fuel: nat, values: Store, output: seq<string>, loop: Stmt)
    requires loop.While? && Complete(loop)
    ensures output <= Loop(format, fuel, values, output, loop).output
    decreases fuel, loop, 0, 0
  {
    if fuel > 0 {
      var c := Eval(values, loop.condition);
      if c.result.Ok? && IsTruthy(c.result.value) {
        var r := Exec(format, fuel - 1, c.values, output, loop.body);
        ExecOutputGrows(format, fuel - 1, c.values, output, loop.body);
        if r.outcome.Normal? {
          LoopOutputGrows(format, fuel - 1, r.values, r.output, loop);
        }
      }
    }
  }

  /**
   * The loop bound only cuts runs short: a run that ends within `fuel` ends
   * the same way, in the same state, with any larger bound.
   */
  lemma {:induction false} ExecFuelMonotone(format: Format, fuel: nat, more: nat, values: Store, output: seq<string>, s: Stmt)
    requires Complete(s) && fuel <= more
    requires !Exec(format, fuel, values, output, s).outcome.OutOfFuel?
    ensures Exec(format, more, values, output, s) == Exec(format, fuel, values, output, s)
    decreases fuel, s, 1, 0
  {
    match s
    case Expression(_) =>
    case Print(_) =>
    case Var(_, _) =>
    case Block(_) => ListFuelMonotone(format, fuel, more, map[], output, s, 0);
    case If(condition, thenBranch, elseBranch) =>
      var c := Eval(values, condition);
      if c.result.Ok? {
        if IsTruthy(c.result.value) {
          ExecFuelMonotone(format, fuel, more, c.values, output, thenBranch);
        } else if elseBranch.Some? {
          ExecFuelMonotone(format, fuel, more, c.values, output, elseBranch.value);
        }
      }
    case While(_, _) => LoopFuelMonotone(format, fuel, more, values, output, s);
  }

  lemma {:induction false} ListFuelMonotone(format: Format, fuel: nat, more: nat, values: Store, output: seq<string>, block: Stmt, i: nat)
    requires block.Block? && Complete(block) && i <= |block.statements| && fuel <= more
    requires !ExecList(format, fuel, values, output, block, i).outcome.OutOfFuel?
    ensures ExecList(format, more, values, output, block, i) == ExecList(format, fuel, values, output, block, i)
    decreases fuel, block, 0, |block.statements| - i
  {
    if i < |block.statements| {
      var r := Exec(format, fuel, values, output, block.statements[i].value);
      ExecFuelMonotone(format, fuel, more, values, output, block.statements[i].value);
      if r.outcome.Normal? {
        ListFuelMonotone(format, fuel, more, r.values, r.output, block, i + 1);
      }
    }
  }

  lemma {:induction false} LoopFuelMonotone(format: Format, fuel: nat, more: nat, values: Store, output: seq<string>, loop: Stmt)
    requires loop.While? && Complete(loop) && fuel <= more
    requires !Loop(format, fuel, values, output, loop).outcome.OutOfFuel?
    ensures Loop(format, more, values, output, loop) == Loop(format, fuel, values, output, loop)
    decreases fuel, loop, 0, 0
  {
    var c := Eval(values, loop.condition);
    if c.result.Ok? && IsTruthy(c.result.value) {
      var r := Exec(format, fuel - 1, c.values, output, loop.body);
      ExecFuelMonotone(format, fuel - 1, more - 1, c.values, output, loop.body);
      if r.outcome.Normal? {
        LoopFuelMonotone(format, fuel - 1, more - 1, r.values, r.output, loop);
      }
    }
  }

  /**
   * A loop whose condition is the literal `true` (a `for` with an empty
   * condition clause) never ends normally: it faults or runs out of fuel.
   */
  lemma {:induction false} EndlessLoop(format: Format, fuel: nat, values: Store, output: seq<string>, body: Stmt)
    requires Complete(body)
    ensures !Loop(format, fuel, values, output, While(Literal(Bool(true)), body)).outcome.Normal?
    decreases fuel
  {
    if fuel > 0 {
      var r := Exec(format, fuel - 1, values, output, body);
      if r.outcome.Normal? {
        EndlessLoop(format, fuel - 1, r.values, r.output, body);
      }
    }
  }
}
