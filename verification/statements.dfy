/** The statement tree, generated from the table `Expression : expression`,
    `Output : output` (astgenerator.py:50-53): two node variants, each with
    an `accept` that hands the node to the visitor method named after it. */
module Statements {
  import opened Options
  import opened NodeSchema
  import Expressions

  /** `Expression` is an expression evaluated for its effect; `Output` an
      expression whose value is printed. */
  datatype Stmt =
    | Expression(expression: Expressions.Expr)
    | Output(output: Expressions.Expr)

  /** The declared statement types with their fields. */
  const Schema: seq<TypeSpec> := [TypeSpec("Expression", ["expression"]), TypeSpec("Output", ["output"])]

  /** The class name of a statement. */
  function TypeName(s: Stmt): string
  {
    match s
    case Expression(_) => "Expression"
    case Output(_) => "Output"
  }

  /** A statement visitor: one method per statement class. */
  datatype Visitor<R> = Visitor(visitExpression: Stmt -> R, visitOutput: Stmt -> R)

  /** Double dispatch: the statement calls exactly the visitor method named
      `visit_` plus its lower-cased class name, with itself as argument, and
      returns that method's result unchanged. */
  function Accept<R>(s: Stmt, v: Visitor<R>): (r: R)
    ensures VisitorMethod(v, VisitMethodName(TypeName(s))).Some?
    ensures r == VisitorMethod(v, VisitMethodName(TypeName(s))).value(s)
  {
    match s
    case Expression(_) =>
      assert VisitMethodName("Expression") == "visit_expression";
      v.visitExpression(s)
    case Output(_) =>
      assert VisitMethodName("Output") == "visit_output";
      v.visitOutput(s)
  }

  /** Looking a method up on a statement visitor by its name. */
  function VisitorMethod<R>(v: Visitor<R>, methodName: string): Option<Stmt -> R>
  {
    if methodName == "visit_expression" then Some(v.visitExpression)
    else if methodName == "visit_output" then Some(v.visitOutput)
    else None
  }

  /** The statement visitor has a method for each declared statement class
      and no other. */
  lemma OneMethodPerClass<R>(v: Visitor<R>, methodName: string)
    ensures VisitorMethod(v, methodName).Some? <==> methodName in MethodNames(Schema)
  {
    var names := MethodNames(Schema);
    assert names[0] == "visit_expression" by {}
    assert names[1] == "visit_output" by {}
    assert names == ["visit_expression", "visit_output"];
  }
}
