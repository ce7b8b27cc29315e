/**
 * What jox/Runtime/Interpreter.cs computes, as functions: the value rules of
 * its helpers and operators, `Eval` for an expression and `Exec` for a
 * statement. A thrown `RuntimeError` is a `Fault`; the console is the list of
 * lines written so far. Class Runtime.Interpreter is proved against these.
 */
module Semantics {
  import opened Wrappers
  import opened Values
  import opened Tokens
  import opened Ast
  import opened RuntimeErrors
  import opened Environments

  const OperandMessage: string := "Operand must be a number."
  const OperandsMessage: string := "Operands must be numbers."
  const PlusMessage: string := "Operands must be two numbers or two strings."
  const DivisionMessage: string := "Division by zero."

  /** `IsTruthy`: `null` and `false` are false, every other value is true. */
  predicate IsTruthy(v: Value) {
    match v
    case Nil => false
    case Bool(b) => b
    case _ => true
  }

  /** `CheckOperandIsNumber`: the fault it throws, if any. */
  function CheckOperandIsNumber(op: Token, operand: Value): (r: Option<RuntimeError>)
    ensures r.None? <==> operand.Num?
    ensures r.Some? ==> r.value == RuntimeError(op, OperandMessage)
  {
    if operand.Num? then None else Some(RuntimeError(op, OperandMessage))
  }

  /** `CheckOperandsAreNumbers`: the fault it throws, if any. */
  function CheckOperandsAreNumbers(op: Token, a: Value, b: Value): (r: Option<RuntimeError>)
    ensures r.None? <==> a.Num? && b.Num?
    ensures r.Some? ==> r.value == RuntimeError(op, OperandsMessage)
  {
    if a.Num? && b.Num? then None else Some(RuntimeError(op, OperandsMessage))
  }

  /** The operators that require two numbers. */
  predicate NumericOperator(kind: TokenType) {
    kind == GREATER || kind == GREATER_EQUAL || kind == LESS || kind == LESS_EQUAL
    || kind == MINUS || kind == SLASH || kind == STAR
  }

  /** The `switch` of `VisitBinaryExpr`, on two evaluated operands. */
  function BinaryOp(op: Token, left: Value, right: Value): (r: Result<Value>)
    ensures r.Fault? ==> r.error.token == op
  {
    if op.kind == BANG_EQUAL then Ok(Bool(left != right))
    else if op.kind == EQUAL_EQUAL then Ok(Bool(left == right))
    else if NumericOperator(op.kind) then
      var check := CheckOperandsAreNumbers(op, left, right);
      if check.Some? then Fault(check.value)
      else NumericOp(op, left.n, right.n)
    else if op.kind == PLUS then
      if left.Num? && right.Num? then Ok(Num(left.n + right.n))
      else if left.Str? && right.Str? then Ok(Str(left.s + right.s))
      else Fault(RuntimeError(op, PlusMessage))
    else Ok(Nil)
  }

  /** The numeric cases of `VisitBinaryExpr`, once both operands are numbers. */
  function NumericOp(op: Token, a: real, b: real): (r: Result<Value>)
    requires NumericOperator(op.kind)
    ensures r.Fault? <==> op.kind == SLASH && b == 0.0
    ensures r.Fault? ==> r.error == RuntimeError(op, DivisionMessage)
  {
    if op.kind == GREATER then Ok(Bool(a > b))
    else if op.kind == GREATER_EQUAL then Ok(Bool(a >= b))
    else if op.kind == LESS then Ok(Bool(a < b))
    else if op.kind == LESS_EQUAL then Ok(Bool(a <= b))
    else if op.kind == MINUS then Ok(Num(a - b))
    else if op.kind == SLASH then
      if b == 0.0 then Fault(RuntimeError(op, DivisionMessage)) else Ok(Num(a / b))
    else Ok(Num(a * b))
  }

  /** The `switch` of `VisitUnaryExpr`, on the evaluated operand. */
  function UnaryOp(op: Token, right: Value): (r: Result<Value>)
    ensures r.Fault? <==> op.kind == MINUS && !right.Num?
    ensures r.Fault? ==> r.error == RuntimeError(op, OperandMessage)
  {
    if op.kind == MINUS then
      var check := CheckOperandIsNumber(op, right);
      if check.Some? then Fault(check.value) else Ok(Num(-right.n))
    else if op.kind == BANG then Ok(Bool(!IsTruthy(right)))
    else Ok(Nil)
  }

  /**
   * `VisitLogicalExpr` decides on the left value alone: `or` stops at a truthy
   * one, every other operator (the `and`) at a falsy one.
   */
  predicate ShortCircuits(op: Token, left: Value) {
    if op.kind == OR then IsTruthy(left) else !IsTruthy(left)
  }

  /** `text[0..^2]` when `text` ends with ".0". */
  function TrimPointZero(text: string): (r: string)
    ensures |text| >= 2 && text[|text| - 2..] == ".0" ==> r + ".0" == text
    ensures !(|text| >= 2 && text[|text| - 2..] == ".0") ==> r == text
  {
    if |text| >= 2 && text[|text| - 2..] == ".0" then text[..|text| - 2] else text
  }

  /** `Stringify`, over the host's renderings of a number and a bool. */
  function Stringify(format: Format, v: Value): string {
    match v
    case Nil => "nil"
    case Num(n) => TrimPointZero(format.number(n))
    case Bool(b) => BoolText(b)
    case Str(s) => s
  }

  /** What evaluating an expression gives, and the store it leaves. */
  datatype Evaluated = Evaluated(result: Result<Value>, values: Store)

  /** `Evaluate`: the visitor's result for `e` in a scope holding `values`. */
  function Eval(values: Store, e: Expr): Evaluated
    decreases e
  {
    match e
    case Literal(v) => Evaluated(Ok(v), values)
    case Grouping(inner) => Eval(values, inner)
    case Variable(ident) => Evaluated(Lookup(values, ident), values)
    case Assign(ident, value) =>
      var v := Eval(values, value);
      if v.result.Fault? then v
      else
        var u := Update(v.values, ident, v.result.value);
        if u.Fault? then Evaluated(Fault(u.error), v.values)
        else Evaluated(v.result, u.value)
    case Unary(op, right) =>
      var r := Eval(values, right);
      if r.result.Fault? then r
      else Evaluated(UnaryOp(op, r.result.value), r.values)
    case Binary(left, op, right) =>
      var l := Eval(values, left);
      if l.result.Fault? then l
      else
        var r := Eval(l.values, right);
        if r.result.Fault? then r
        else Evaluated(BinaryOp(op, l.result.value, r.result.value), r.values)
    case Logical(left, op, right) =>
      var l := Eval(values, left);
      if l.result.Fault? || ShortCircuits(op, l.result.value) then l
      else Eval(l.values, right)
  }

  /**
   * How a statement ends: normally, by a thrown fault, or (where the source
   * would go on looping) by running out of the loop bound `fuel`.
   */
  datatype Outcome = Normal | Faulted(error: RuntimeError) | OutOfFuel

  /** The outcome, the store of the current scope, and the console's lines. */
  datatype Executed = Executed(outcome: Outcome, values: Store, output: seq<string>)

  /** An evaluation's fault as a statement outcome. */
  function Completion(r: Result<Value>): (o: Outcome)
    ensures o.Normal? <==> r.Ok?
    ensures r.Fault? ==> o == Faulted(r.error)
  {
    if r.Fault? then Faulted(r.error) else Normal
  }

  /**
   * `Execute(s)` in a scope holding `values`, with `output` already written.
   * Every `while` may iterate at most `fuel` times.
   */
  function Exec(format: Format, fuel: nat, values: Store, output: seq<string>, s: Stmt): Executed
    requires Complete(s)
    decreases fuel, s, 1, 0
  {
    match s
    case Expression(e) =>
      var v := Eval(values, e);
      Executed(Completion(v.result), v.values, output)
    case Print(e) =>
      var v := Eval(values, e);
      if v.result.Fault? then Executed(Completion(v.result), v.values, output)
      else Executed(Normal, v.values, output + [Stringify(format, v.result.value)])
    case Var(ident, initializer) =>
      if initializer.None? then Executed(Normal, Define(values, ident.lexeme, Nil), output)
      else
        var v := Eval(values, initializer.value);
        if v.result.Fault? then Executed(Completion(v.result), v.values, output)
        else Executed(Normal, Define(v.values, ident.lexeme, v.result.value), output)
    case Block(_) =>
      var r := ExecList(format, fuel, map[], output, s, 0);
      Executed(r.outcome, values, r.output)
    case If(condition, thenBranch, elseBranch) =>
      var c := Eval(values, condition);
      if c.result.Fault? then Executed(Completion(c.result), c.values, output)
      else if IsTruthy(c.result.value) then Exec(format, fuel, c.values, output, thenBranch)
      else if elseBranch.Some? then Exec(format, fuel, c.values, output, elseBranch.value)
      else Executed(Normal, c.values, output)
    case While(_, _) =>
      Loop(format, fuel, values, output, s)
  }

  /**
   * `foreach (var stmt in statements) Execute(stmt);` over the statements of
   * `block` from index `i`, stopping at the first statement that does not end
   * normally.
   */
  function ExecList(format: Format, fuel: nat, values: Store, output: seq<string>, block: Stmt, i: nat): Executed
    requires block.Block? && Complete(block) && i <= |block.statements|
    decreases fuel, block, 0, |block.statements| - i
  {
    if i == |block.statements| then Executed(Normal, values, output)
    else
      var r := Exec(format, fuel, values, output, block.statements[i].value);
      if !r.outcome.Normal? then r
      else ExecList(format, fuel, r.values, r.output, block, i + 1)
  }

  /** `VisitWhileStmt`, at most `fuel` more iterations of `loop`. */
  function Loop(format: Format, fuel: nat, values: Store, output: seq<string>, loop: Stmt): Executed
    requires loop.While? && Complete(loop)
    decreases fuel, loop, 0, 0
  {
    if fuel == 0 then Executed(OutOfFuel, values, output)
    else
      var c := Eval(values, loop.condition);
      if c.result.Fault? then Executed(Completion(c.result), c.values, output)
      else if !IsTruthy(c.result.value) then Executed(Normal, c.values, output)
      else
        var r := Exec(format, fuel - 1, c.values, output, loop.body);
        if !r.outcome.Normal? then r
        else Loop(format, fuel - 1, r.values, r.output, loop)
  }
}
