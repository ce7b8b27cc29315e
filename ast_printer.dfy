/**
 * The debugging printer of jox/Parsing/ASTPrinter.cs: an expression written as
 * a parenthesized prefix form. `Render` states the rendering as a function;
 * class `AstPrinter` is the visitor, whose `Parenthesize` builds its result
 * in a loop, proved to produce `Render`'s text.
 */
module AstPrinting {
  import opened Values
  import opened Tokens
  import opened Ast

  /**
   * The expressions the printer has a visit method for: every kind but
   * `Logical`, for which the source declares none.
   */
  predicate Printable(e: Expr) {
    match e
    case Binary(left, _, right) => Printable(left) && Printable(right)
    case Logical(_, _, _) => false
    case Unary(_, right) => Printable(right)
    case Literal(_) => true
    case Grouping(inner) => Printable(inner)
    case Variable(_) => true
    case Assign(_, value) => Printable(value)
  }

  /** The renderings, each preceded by one space, in order. */
  function Spaced(parts: seq<string>): string
    decreases |parts|
  {
    if |parts| == 0 then "" else Spaced(parts[..|parts| - 1]) + " " + parts[|parts| - 1]
  }

  /** `Parenthesize`'s text for the given name and sub-renderings. */
  function Parenthesized(name: string, parts: seq<string>): string {
    "(" + name + Spaced(parts) + ")"
  }

  /** `VisitLiteralExpr`: `nil` for null, otherwise the host's `ToString`. */
  function LiteralText(format: Format, v: Value): string {
    match v
    case Nil => "nil"
    case Bool(b) => BoolText(b)
    case Num(n) => format.number(n)
    case Str(s) => s
  }

  /** `expr.Accept(printer)`. */
  function Render(format: Format, e: Expr): string
    requires Printable(e)
  {
    match e
    case Binary(left, op, right) => Parenthesized(op.lexeme, [Render(format, left), Render(format, right)])
    case Grouping(inner) => Parenthesized("group", [Render(format, inner)])
    case Literal(v) => LiteralText(format, v)
    case Unary(op, right) => Parenthesized(op.lexeme, [Render(format, right)])
    case Variable(ident) => "var " + ident.lexeme
    case Assign(ident, value) => Parenthesized("assign " + ident.lexeme, [Render(format, value)])
  }

  /** The renderings of a list of expressions, in order. */
  function Renderings(format: Format, es: seq<Expr>): (r: seq<string>)
    requires forall i :: 0 <= i < |es| ==> Printable(es[i])
    ensures |r| == |es|
    ensures forall i :: 0 <= i < |es| ==> r[i] == Render(format, es[i])
  {
    if |es| == 0 then [] else Renderings(format, es[..|es| - 1]) + [Render(format, es[|es| - 1])]
  }

  /**
   * A parenthesized form opens with "(" and the name, closes with ")", and
   * sets every sub-rendering after one space.
   */
  lemma ParenthesizedShape(name: string, parts: seq<string>)
    ensures var r := Parenthesized(name, parts);
      && r[0] == '(' && r[|r| - 1] == ')'
      && r[1..1 + |name|] == name
      && |r| == 2 + |name| + SpacedLength(parts)
  {
    SpacedLengthIs(parts);
  }

  /** The length of `Spaced(parts)`: each part and the space before it. */
  function SpacedLength(parts: seq<string>): nat
    decreases |parts|
  {
    if |parts| == 0 then 0 else SpacedLength(parts[1..]) + 1 + |parts[0]|
  }

  lemma {:induction false} SpacedLengthIs(parts: seq<string>)
    ensures |Spaced(parts)| == SpacedLength(parts)
    decreases |parts|
  {
    if |parts| > 0 {
      SpacedLengthIs(parts[..|parts| - 1]);
      SpacedLengthFront(parts);
    }
  }

  /** `SpacedLength` counted from the back agrees with counting from the front. */
  lemma {:induction false} SpacedLengthFront(parts: seq<string>)
    requires |parts| > 0
    ensures SpacedLength(parts) == SpacedLength(parts[..|parts| - 1]) + 1 + |parts[|parts| - 1]|
    decreases |parts|
  {
    if |parts| > 1 {
      var rest := parts[1..];
      SpacedLengthFront(rest);
      assert rest[..|rest| - 1] == parts[..|parts| - 1][1..];
      assert rest[|rest| - 1] == parts[|parts| - 1];
    }
  }

  /** One part is set after one space. */
  lemma SpacedOne(a: string)
    ensures Spaced([a]) == " " + a
  {
    assert [a][..0] == [];
  }

  /** Two parts are each set after one space. */
  lemma SpacedTwo(a: string, b: string)
    ensures Spaced([a, b]) == " " + a + " " + b
  {
    assert [a, b][..1] == [a];
    SpacedOne(a);
  }

  lemma ParenthesizedTwo(name: string, a: string, b: string)
    ensures Parenthesized(name, [a, b]) == "(" + name + " " + a + " " + b + ")"
  {
    SpacedTwo(a, b);
  }

  lemma ParenthesizedOne(name: string, a: string)
    ensures Parenthesized(name, [a]) == "(" + name + " " + a + ")"
  {
    SpacedOne(a);
  }

  /** Binary renders as `(<op> <left> <right>)`. */
  lemma RendersBinary(format: Format, left: Expr, op: Token, right: Expr)
    requires Printable(left) && Printable(right)
    ensures Render(format, Binary(left, op, right))
      == "(" + op.lexeme + " " + Render(format, left) + " " + Render(format, right) + ")"
  {
    ParenthesizedTwo(op.lexeme, Render(format, left), Render(format, right));
  }

  /** Grouping renders as `(group <inner>)`. */
  lemma RendersGrouping(format: Format, e: Expr)
    requires Printable(e)
    ensures Render(format, Grouping(e)) == "(group " + Render(format, e) + ")"
  {
    ParenthesizedOne("group", Render(format, e));
  }

  /** Unary renders as `(<op> <operand>)`. */
  lemma RendersUnary(format: Format, op: Token, e: Expr)
    requires Printable(e)
    ensures Render(format, Unary(op, e)) == "(" + op.lexeme + " " + Render(format, e) + ")"
  {
    ParenthesizedOne(op.lexeme, Render(format, e));
  }

  /** Assign renders as `(assign <name> <value>)`. */
  lemma RendersAssign(format: Format, ident: Token, e: Expr)
    requires Printable(e)
    ensures Render(format, Assign(ident, e)) == "(assign " + ident.lexeme + " " + Render(format, e) + ")"
  {
    ParenthesizedOne("assign " + ident.lexeme, Render(format, e));
  }

  /**
   * A variable renders as `var <name>`, a nil literal as `nil`, a bool
   * literal as "True" or "False" and a string literal as the string.
   */
  lemma RendersLeaves(format: Format, ident: Token, text: string)
    ensures Render(format, Variable(ident)) == "var " + ident.lexeme
    ensures Render(format, Literal(Nil)) == "nil"
    ensures Render(format, Literal(Bool(true))) == "True" && Render(format, Literal(Bool(false))) == "False"
    ensures Render(format, Literal(Str(text))) == text
  {
  }

  /** The number of occurrences of `c` in `s`. */
  function Count(c: char, s: string): nat
    decreases |s|
  {
    if |s| == 0 then 0 else Count(c, s[..|s| - 1]) + (if s[|s| - 1] == c then 1 else 0)
  }

  lemma {:induction false} CountAppend(c: char, a: string, b: string)
    ensures Count(c, a + b) == Count(c, a) + Count(c, b)
    decreases |b|
  {
    if |b| == 0 {
      assert a + b == a;
    } else {
      assert (a + b)[..|a + b| - 1] == a + b[..|b| - 1];
      CountAppend(c, a, b[..|b| - 1]);
    }
  }

  /** A string without `c` counts no `c`. */
  lemma {:induction false} CountAbsent(c: char, s: string)
    requires forall i :: 0 <= i < |s| ==> s[i] != c
    ensures Count(c, s) == 0
    decreases |s|
  {
    if |s| > 0 {
      CountAbsent(c, s[..|s| - 1]);
    }
  }

  /** No text the printer copies from the tree holds a parenthesis. */
  predicate ParenFree(s: string) {
    Count('(', s) == 0 && Count(')', s) == 0
  }

  predicate CopiedTextParenFree(format: Format, e: Expr) {
    match e
    case Binary(left, op, right) => ParenFree(op.lexeme) && CopiedTextParenFree(format, left) && CopiedTextParenFree(format, right)
    case Logical(left, op, right) => ParenFree(op.lexeme) && CopiedTextParenFree(format, left) && CopiedTextParenFree(format, right)
    case Unary(op, right) => ParenFree(op.lexeme) && CopiedTextParenFree(format, right)
    case Literal(v) => ParenFree(LiteralText(format, v))
    case Grouping(inner) => CopiedTextParenFree(format, inner)
    case Variable(ident) => ParenFree(ident.lexeme)
    case Assign(ident, value) => ParenFree(ident.lexeme) && CopiedTextParenFree(format, value)
  }

  /** Balanced: as many "(" as ")" in every rendering, one pair per parenthesized node. */
  lemma {:induction false} RenderBalanced(format: Format, e: Expr)
    requires Printable(e) && CopiedTextParenFree(format, e)
    ensures Count('(', Render(format, e)) == Count(')', Render(format, e))
    decreases e
  {
    match e
    case Binary(left, op, right) =>
      RenderBalanced(format, left);
      RenderBalanced(format, right);
      ParenthesizedCounts(op.lexeme, [Render(format, left), Render(format, right)]);
    case Grouping(inner) =>
      RenderBalanced(format, inner);
      CountAbsent('(', "group");
      CountAbsent(')', "group");
      ParenthesizedCounts("group", [Render(format, inner)]);
    case Literal(_) =>
    case Unary(op, right) =>
      RenderBalanced(format, right);
      ParenthesizedCounts(op.lexeme, [Render(format, right)]);
    case Variable(ident) =>
      CountAbsent('(', "var ");
      CountAbsent(')', "var ");
      CountAppend('(', "var ", ident.lexeme);
      CountAppend(')', "var ", ident.lexeme);
    case Assign(ident, value) =>
      RenderBalanced(format, value);
      CountAbsent('(', "assign ");
      CountAbsent(')', "assign ");
      CountAppend('(', "assign ", ident.lexeme);
      CountAppend(')', "assign ", ident.lexeme);
      ParenthesizedCounts("assign " + ident.lexeme, [Render(format, value)]);
  }

  /** A parenthesized form adds one "(" and one ")" to those of its name and parts. */
  lemma ParenthesizedCounts(name: string, parts: seq<string>)
    requires ParenFree(name)
    requires forall i :: 0 <= i < |parts| ==> Count('(', parts[i]) == Count(')', parts[i])
    ensures Count('(', Parenthesized(name, parts)) == Count(')', Parenthesized(name, parts))
  {
    SpacedCounts(parts);
    CountAppend('(', "(" + name, Spaced(parts));
    CountAppend(')', "(" + name, Spaced(parts));
    CountAppend('(', "(", name);
    CountAppend(')', "(", name);
    CountAppend('(', "(" + name + Spaced(parts), ")");
    CountAppend(')', "(" + name + Spaced(parts), ")");
    CountAbsent(')', "(");
    CountAbsent('(', ")");
    assert Count('(', "(") == 1 && Count(')', ")") == 1 by {
      assert "("[..0] == [] && ")"[..0] == [];
    }
  }

  lemma {:induction false} SpacedCounts(parts: seq<string>)
    requires forall i :: 0 <= i < |parts| ==> Count('(', parts[i]) == Count(')', parts[i])
    ensures Count('(', Spaced(parts)) == Count(')', Spaced(parts))
    decreases |parts|
  {
    if |parts| > 0 {
      var init := parts[..|parts| - 1];
      var last := parts[|parts| - 1];
      SpacedCounts(init);
      CountAppend('(', Spaced(init) + " ", last);
      CountAppend(')', Spaced(init) + " ", last);
      CountAppend('(', Spaced(init), " ");
      CountAppend(')', Spaced(init), " ");
      CountAbsent('(', " ");
      CountAbsent(')', " ");
    }
  }

  /** The number of nodes of an expression, which bounds the printer's recursion. */
  function Size(e: Expr): nat {
    match e
    case Binary(left, _, right) => 1 + Size(left) + Size(right)
    case Logical(left, _, right) => 1 + Size(left) + Size(right)
    case Unary(_, right) => 1 + Size(right)
    case Literal(_) => 1
    case Grouping(inner) => 1 + Size(inner)
    case Variable(_) => 1
    case Assign(_, value) => 1 + Size(value)
  }

  function TotalSize(es: seq<Expr>): nat
    decreases |es|
  {
    if |es| == 0 then 0 else TotalSize(es[..|es| - 1]) + Size(es[|es| - 1])
  }

  lemma {:induction false} TotalSizeBounds(es: seq<Expr>, i: nat)
    requires i < |es|
    ensures Size(es[i]) <= TotalSize(es)
    decreases |es|
  {
    if i < |es| - 1 {
      TotalSizeBounds(es[..|es| - 1], i);
    }
  }

  class AstPrinter {
    const format: Format

    constructor (format: Format)
      ensures this.format == format
    {
      this.format := format;
    }

    /** `Parenthesize(name, params exprs)`. */
    method Parenthesize(name: string, exprs: seq<Expr>) returns (result: string)
      requires forall i :: 0 <= i < |exprs| ==> Printable(exprs[i])
      ensures result == Parenthesized(name, Renderings(format, exprs))
      decreases TotalSize(exprs), 2
    {
      result := "(" + name;
      for i := 0 to |exprs|
        invariant result == "(" + name + Spaced(Renderings(format, exprs[..i]))
      {
        TotalSizeBounds(exprs, i);
        var text := Accept(exprs[i]);
        assert exprs[..i + 1][..i] == exprs[..i];
        result := result + " " + text;
      }
      assert exprs[..|exprs|] == exprs;
      result := result + ")";
    }

    method Accept(e: Expr) returns (s: string)
      requires Printable(e)
      ensures s == Render(format, e)
      decreases Size(e), 1
    {
      match e
      case Binary(_, _, _) => s := VisitBinaryExpr(e);
      case Grouping(_) => s := VisitGroupingExpr(e);
      case Literal(_) => s := VisitLiteralExpr(e);
      case Unary(_, _) => s := VisitUnaryExpr(e);
      case Variable(_) => s := VisitVariableExpr(e);
      case Assign(_, _) => s := VisitAssignExpr(e);
    }

    method VisitBinaryExpr(e: Expr) returns (s: string)
      requires e.Binary? && Printable(e)
      ensures s == Render(format, e)
      decreases Size(e), 0
    {
      var operands := [e.left, e.right];
      assert operands[..1] == [e.left] && operands[..1][..0] == [];
      assert TotalSize(operands[..1]) == Size(e.left) by {
        assert TotalSize(operands[..1][..0]) == 0;
      }
      assert Renderings(format, operands) == [Render(format, e.left), Render(format, e.right)];
      s := Parenthesize(e.op.lexeme, operands);
    }

    method VisitGroupingExpr(e: Expr) returns (s: string)
      requires e.Grouping? && Printable(e)
      ensures s == Render(format, e)
      decreases Size(e), 0
    {
      var operands := [e.expression];
      assert operands[..0] == [];
      assert TotalSize(operands) == Size(e.expression) by {
        assert TotalSize(operands[..0]) == 0;
      }
      assert Renderings(format, operands) == [Render(format, e.expression)];
      s := Parenthesize("group", operands);
    }

    method VisitLiteralExpr(e: Expr) returns (s: string)
      requires e.Literal?
      ensures s == Render(format, e)
    {
      if e.lit.Nil? {
        return "nil";
      }
      return LiteralText(format, e.lit);
    }

    method VisitUnaryExpr(e: Expr) returns (s: string)
      requires e.Unary? && Printable(e)
      ensures s == Render(format, e)
      decreases Size(e), 0
    {
      var operands := [e.right];
      assert operands[..0] == [];
      assert TotalSize(operands) == Size(e.right) by {
        assert TotalSize(operands[..0]) == 0;
      }
      assert Renderings(format, operands) == [Render(format, e.right)];
      s := Parenthesize(e.op.lexeme, operands);
    }

    method VisitVariableExpr(e: Expr) returns (s: string)
      requires e.Variable?
      ensures s == Render(format, e)
    {
      s := "var " + e.ident.lexeme;
    }

    method VisitAssignExpr(e: Expr) returns (s: string)
      requires e.Assign? && Printable(e)
      ensures s == Render(format, e)
      decreases Size(e), 0
    {
      var operands := [e.value];
      assert operands[..0] == [];
      assert TotalSize(operands) == Size(e.value) by {
        assert TotalSize(operands[..0]) == 0;
      }
      assert Renderings(format, operands) == [Render(format, e.value)];
      s := Parenthesize("assign " + e.ident.lexeme, operands);
    }
  }
}
