/**
 * The tree-walking interpreter of jox/Runtime/Interpreter.cs: a current
 * environment replaced for the duration of a block, and a console the `print`
 * statement appends to. Every method is proved to have the effect of the
 * corresponding function of module Semantics.
 */
module Runtime {
  import opened Wrappers
  import opened Values
  import opened Tokens
  import opened Ast
  import opened RuntimeErrors
  import opened Environments
  import opened Semantics
  import opened Diagnostics

  class Interpreter {
    var currentEnvironment: Environment
    /** Standard output: the lines `Console.WriteLine` has written, oldest first. */
    var output: seq<string>
    /** The host's renderings of numbers and bools. */
    const format: Format

    constructor (format: Format)
      ensures this.format == format && output == []
      ensures fresh(currentEnvironment) && currentEnvironment.values == map[]
    {
      this.format := format;
      output := [];
      currentEnvironment := new Environment();
    }

    /**
     * Run `statements` in the current environment, stopping at the first one
     * that faults; a fault is reported once, through `reporter`.
     */
    method Interpret(statements: seq<Option<Stmt>>, fuel: nat, reporter: Reporter)
      requires AllComplete(statements)
      modifies this, currentEnvironment, reporter
      ensures currentEnvironment == old(currentEnvironment)
      ensures var r := ExecList(format, fuel, old(currentEnvironment.values), old(output), Block(statements), 0);
        && currentEnvironment.values == r.values && output == r.output
        && reporter.diagnostics == old(reporter.diagnostics) + (if r.outcome.Faulted? then [RuntimeErrorLine(r.outcome.error)] else [])
        && reporter.hadRuntimeError == (old(reporter.hadRuntimeError) || r.outcome.Faulted?)
        && reporter.hadParseError == old(reporter.hadParseError)
    {
      var program := Block(statements);
      var i := 0;
      var outcome := Normal;
      while i < |statements|
        invariant i <= |statements| && currentEnvironment == old(currentEnvironment)
        invariant ExecList(format, fuel, currentEnvironment.values, output, program, i)
          == ExecList(format, fuel, old(currentEnvironment.values), old(output), program, 0)
        invariant outcome.Normal? && unchanged(reporter)
      {
        outcome := Execute(statements[i].value, fuel);
        if !outcome.Normal? {
          break;
        }
        i := i + 1;
      }
      assert Executed(outcome, currentEnvironment.values, output)
        == ExecList(format, fuel, old(currentEnvironment.values), old(output), program, 0);
      if outcome.Faulted? {
        reporter.RuntimeError(outcome.error);
      }
    }

    method Evaluate(e: Expr) returns (r: Result<Value>)
      modifies currentEnvironment
      ensures Evaluated(r, currentEnvironment.values) == Eval(old(currentEnvironment.values), e)
      decreases e, 1
    {
      match e
      case Binary(_, _, _) => r := VisitBinaryExpr(e);
      case Logical(_, _, _) => r := VisitLogicalExpr(e);
      case Unary(_, _) => r := VisitUnaryExpr(e);
      case Literal(_) => r := VisitLiteralExpr(e);
      case Grouping(_) => r := VisitGroupingExpr(e);
      case Variable(_) => r := VisitVariableExpr(e);
      case Assign(_, _) => r := VisitAssignExpr(e);
    }

    /** Both operands are evaluated, left first, before the operator looks at them. */
    method VisitBinaryExpr(e: Expr) returns (r: Result<Value>)
      requires e.Binary?
      modifies currentEnvironment
      ensures Evaluated(r, currentEnvironment.values) == Eval(old(currentEnvironment.values), e)
      decreases e, 0
    {
      var left := Evaluate(e.left);
      if left.Fault? {
        return left;
      }
      var right := Evaluate(e.right);
      if right.Fault? {
        return right;
      }
      r := BinaryOp(e.op, left.value, right.value);
    }

    method VisitAssignExpr(e: Expr) returns (r: Result<Value>)
      requires e.Assign?
      modifies currentEnvironment
      ensures Evaluated(r, currentEnvironment.values) == Eval(old(currentEnvironment.values), e)
      decreases e, 0
    {
      var value := Evaluate(e.value);
      if value.Fault? {
        return value;
      }
      var fault := currentEnvironment.AssignVariableValue(e.ident, value.value);
      if fault.Some? {
        return Fault(fault.value);
      }
      return value;
    }

    method VisitLogicalExpr(e: Expr) returns (r: Result<Value>)
      requires e.Logical?
      modifies currentEnvironment
      ensures Evaluated(r, currentEnvironment.values) == Eval(old(currentEnvironment.values), e)
      decreases e, 0
    {
      var left := Evaluate(e.left);
      if left.Fault? {
        return left;
      }
      if e.op.kind == OR {
        if IsTruthy(left.value) {
          return left;
        }
      } else {
        if !IsTruthy(left.value) {
          return left;
        }
      }
      r := Evaluate(e.right);
    }

    method VisitUnaryExpr(e: Expr) returns (r: Result<Value>)
      requires e.Unary?
      modifies currentEnvironment
      ensures Evaluated(r, currentEnvironment.values) == Eval(old(currentEnvironment.values), e)
      decreases e, 0
    {
      var right := Evaluate(e.right);
      if right.Fault? {
        return right;
      }
      if e.op.kind == MINUS {
        var check := CheckOperandIsNumber(e.op, right.value);
        if check.Some? {
          return Fault(check.value);
        }
        return Ok(Num(-right.value.n));
      } else if e.op.kind == BANG {
        return Ok(Bool(!IsTruthy(right.value)));
      }
      return Ok(Nil);
    }

    method VisitVariableExpr(e: Expr) returns (r: Result<Value>)
      requires e.Variable?
      ensures Evaluated(r, currentEnvironment.values) == Eval(currentEnvironment.values, e)
    {
      r := currentEnvironment.GetVariableValue(e.ident);
    }

    method VisitGroupingExpr(e: Expr) returns (r: Result<Value>)
      requires e.Grouping?
      modifies currentEnvironment
      ensures Evaluated(r, currentEnvironment.values) == Eval(old(currentEnvironment.values), e)
      decreases e, 0
    {
      r := Evaluate(e.expression);
    }

    method VisitLiteralExpr(e: Expr) returns (r: Result<Value>)
      requires e.Literal?
      ensures Evaluated(r, currentEnvironment.values) == Eval(currentEnvironment.values, e)
    {
      r := Ok(e.lit);
    }

    /** `Execute(stmt)`: the outcome replaces the exception the source would throw. */
    method Execute(s: Stmt, fuel: nat) returns (outcome: Outcome)
      requires Complete(s)
      modifies this, currentEnvironment
      ensures currentEnvironment == old(currentEnvironment)
      ensures Executed(outcome, currentEnvironment.values, output)
        == Exec(format, fuel, old(currentEnvironment.values), old(output), s)
      decreases fuel, s, 1, 0
    {
      match s
      case Expression(_) => outcome := VisitExpressionStmt(s);
      case Print(_) => outcome := VisitPrintStmt(s);
      case Var(_, _) => outcome := VisitVarStmt(s);
      case Block(_) => outcome := VisitBlockStmt(s, fuel);
      case If(_, _, _) => outcome := VisitIfStmt(s, fuel);
      case While(_, _) => outcome := VisitWhileStmt(s, fuel);
    }

    method VisitExpressionStmt(s: Stmt) returns (outcome: Outcome)
      requires s.Expression?
      modifies currentEnvironment
      ensures Executed(outcome, currentEnvironment.values, output)
        == Exec(format, 0, old(currentEnvironment.values), output, s)
    {
      var value := Evaluate(s.expression);
      outcome := Completion(value);
    }

    method VisitPrintStmt(s: Stmt) returns (outcome: Outcome)
      requires s.Print?
      modifies this`output, currentEnvironment
      ensures Executed(outcome, currentEnvironment.values, output)
        == Exec(format, 0, old(currentEnvironment.values), old(output), s)
    {
      var value := Evaluate(s.expression);
      if value.Fault? {
        return Faulted(value.error);
      }
      output := output + [Stringify(format, value.value)];
      return Normal;
    }

    method VisitVarStmt(s: Stmt) returns (outcome: Outcome)
      requires s.Var?
      modifies currentEnvironment
      ensures Executed(outcome, currentEnvironment.values, output)
        == Exec(format, 0, old(currentEnvironment.values), output, s)
    {
      var value := Nil;
      if s.initializer.Some? {
        var initial := Evaluate(s.initializer.value);
        if initial.Fault? {
          return Faulted(initial.error);
        }
        value := initial.value;
      }
      currentEnvironment.DefineVariable(s.ident.lexeme, value);
      return Normal;
    }

    /** The block runs in a new, empty environment (see `ExecuteBlock`). */
    method VisitBlockStmt(s: Stmt, fuel: nat) returns (outcome: Outcome)
      requires s.Block? && Complete(s)
      modifies this
      ensures currentEnvironment == old(currentEnvironment)
      ensures Executed(outcome, currentEnvironment.values, output)
        == Exec(format, fuel, old(currentEnvironment.values), old(output), s)
      decreases fuel, s, 0, 1
    {
      var environment := new Environment();
      outcome := ExecuteBlock(s, environment, fuel);
    }

    method VisitIfStmt(s: Stmt, fuel: nat) returns (outcome: Outcome)
      requires s.If? && Complete(s)
      modifies this, currentEnvironment
      ensures currentEnvironment == old(currentEnvironment)
      ensures Executed(outcome, currentEnvironment.values, output)
        == Exec(format, fuel, old(currentEnvironment.values), old(output), s)
      decreases fuel, s, 0, 1
    {
      var condition := Evaluate(s.condition);
      if condition.Fault? {
        return Faulted(condition.error);
      }
      if IsTruthy(condition.value) {
        outcome := Execute(s.thenBranch, fuel);
      } else if s.elseBranch.Some? {
        outcome := Execute(s.elseBranch.value, fuel);
      } else {
        outcome := Normal;
      }
    }

    /** At most `fuel` iterations; `OutOfFuel` where the source would go on. */
    method VisitWhileStmt(s: Stmt, fuel: nat) returns (outcome: Outcome)
      requires s.While? && Complete(s)
      modifies this, currentEnvironment
      ensures currentEnvironment == old(currentEnvironment)
      ensures Executed(outcome, currentEnvironment.values, output)
        == Exec(format, fuel, old(currentEnvironment.values), old(output), s)
      decreases fuel, s, 0, 1
    {
      var remaining: nat := fuel;
      while remaining > 0
        invariant remaining <= fuel && currentEnvironment == old(currentEnvironment)
        invariant Loop(format, remaining, currentEnvironment.values, output, s)
          == Loop(format, fuel, old(currentEnvironment.values), old(output), s)
        decreases remaining
      {
        var condition := Evaluate(s.condition);
        if condition.Fault? {
          return Faulted(condition.error);
        }
        if !IsTruthy(condition.value) {
          return Normal;
        }
        outcome := Execute(s.body, remaining - 1);
        if !outcome.Normal? {
          return;
        }
        remaining := remaining - 1;
      }
      return OutOfFuel;
    }

    /**
     * Run the statements of `block` with `environment` as the current one,
     * then put the previous environment back, whether a statement faulted or
     * not; the previous environment is untouched throughout.
     */
    method ExecuteBlock(block: Stmt, environment: Environment, fuel: nat) returns (outcome: Outcome)
      requires block.Block? && Complete(block) && environment != currentEnvironment
      modifies this, environment
      ensures currentEnvironment == old(currentEnvironment)
      ensures Executed(outcome, environment.values, output)
        == ExecList(format, fuel, old(environment.values), old(output), block, 0)
      decreases fuel, block, 0, 0
    {
      var previous := currentEnvironment;
      currentEnvironment := environment;
      var i := 0;
      outcome := Normal;
      while i < |block.statements|
        invariant i <= |block.statements| && currentEnvironment == environment
        invariant ExecList(format, fuel, environment.values, output, block, i)
          == ExecList(format, fuel, old(environment.values), old(output), block, 0)
        invariant outcome.Normal?
      {
        outcome := Execute(block.statements[i].value, fuel);
        if !outcome.Normal? {
          break;
        }
        i := i + 1;
      }
      currentEnvironment := previous;
    }
  }
}
