/** The expression tree (trees/expr.py): six node variants, each with an
    `accept` that hands the node to the visitor method named after it. */
module Expressions {
  import opened Tokens
  import opened Options
  import opened NodeSchema

  /** What a `Literal` node holds: a boolean, the null sentinel, or the value
      the lexer attached to a NUMBER or STRING token. */
  datatype Value = BoolValue(b: bool) | NullValue | LexedValue(payload: Payload)

  /** The six node classes. The source calls the field of `Literal` `value`;
      it is `literal` here because a destructor name shared between variants
      must have one type, and `Assign.value` is an expression. */
  datatype Expr =
    | Assign(name: Token, value: Expr)
    | Binary(left: Expr, operator: Token, right: Expr)
    | Grouping(expression: Expr)
    | Literal(literal: Value)
    | Unary(operator: Token, right: Expr)
    | Variable(name: Token)

  /** The declared node types with their fields, in declaration order. */
  const Schema: seq<TypeSpec> := [
    TypeSpec("Assign", ["name", "value"]),
    TypeSpec("Binary", ["left", "operator", "right"]),
    TypeSpec("Grouping", ["expression"]),
    TypeSpec("Literal", ["value"]),
    TypeSpec("Unary", ["operator", "right"]),
    TypeSpec("Variable", ["name"])
  ]

  /** The class name of a node. */
  function TypeName(e: Expr): string
  {
    match e
    case Assign(_, _) => "Assign"
    case Binary(_, _, _) => "Binary"
    case Grouping(_) => "Grouping"
    case Literal(_) => "Literal"
    case Unary(_, _) => "Unary"
    case Variable(_) => "Variable"
  }

  /** One constructor argument as stored in a node. */
  datatype Field = TokenField(token: Token) | ExprField(expr: Expr) | ValueField(value: Value)

  /** The arguments a node was constructed with, in the declared field order. */
  function Fields(e: Expr): (fs: seq<Field>)
    ensures FieldNames(Schema, TypeName(e)).Some?
    ensures |fs| == |FieldNames(Schema, TypeName(e)).value|
  {
    match e
    case Assign(name, value) => [TokenField(name), ExprField(value)]
    case Binary(left, operator, right) => [ExprField(left), TokenField(operator), ExprField(right)]
    case Grouping(expression) => [ExprField(expression)]
    case Literal(literal) => [ValueField(literal)]
    case Unary(operator, right) => [TokenField(operator), ExprField(right)]
    case Variable(name) => [TokenField(name)]
  }

  /** Constructing the node class `name` from `fs`; None when no class of
      that name takes arguments of these kinds. */
  function Build(name: string, fs: seq<Field>): Option<Expr>
  {
    if name == "Assign" && |fs| == 2 && fs[0].TokenField? && fs[1].ExprField? then
      Some(Assign(fs[0].token, fs[1].expr))
    else if name == "Binary" && |fs| == 3 && fs[0].ExprField? && fs[1].TokenField? && fs[2].ExprField? then
      Some(Binary(fs[0].expr, fs[1].token, fs[2].expr))
    else if name == "Grouping" && |fs| == 1 && fs[0].ExprField? then
      Some(Grouping(fs[0].expr))
    else if name == "Literal" && |fs| == 1 && fs[0].ValueField? then
      Some(Literal(fs[0].value))
    else if name == "Unary" && |fs| == 2 && fs[0].TokenField? && fs[1].ExprField? then
      Some(Unary(fs[0].token, fs[1].expr))
    else if name == "Variable" && |fs| == 1 && fs[0].TokenField? then
      Some(Variable(fs[0].token))
    else
      None
  }

  /** Every node is rebuilt from its class name and its stored arguments. */
  lemma BuildFromFields(e: Expr)
    ensures Build(TypeName(e), Fields(e)) == Some(e)
  {
    match e
    case Assign(_, _) =>
    case Binary(_, _, _) =>
    case Grouping(_) =>
    case Literal(_) =>
    case Unary(_, _) =>
    case Variable(_) =>
  }

  /** A constructor stores its arguments verbatim: reading the fields of a
      freshly built node gives back exactly the arguments, under that class. */
  lemma FieldsOfBuild(name: string, fs: seq<Field>)
    requires Build(name, fs).Some?
    ensures TypeName(Build(name, fs).value) == name
    ensures Fields(Build(name, fs).value) == fs
  {
    var e := Build(name, fs).value;
    if |fs| == 1 {
      assert fs == [fs[0]];
    } else if |fs| == 2 {
      assert fs == [fs[0], fs[1]];
    } else {
      assert fs == [fs[0], fs[1], fs[2]];
    }
  }

  /** A visitor: one method per node class, each given the node itself. */
  datatype Visitor<R> = Visitor(
    visitAssign: Expr -> R,
    visitBinary: Expr -> R,
    visitGrouping: Expr -> R,
    visitLiteral: Expr -> R,
    visitUnary: Expr -> R,
    visitVariable: Expr -> R)

  /** Double dispatch: the node calls exactly the visitor method named
      `visit_` plus its lower-cased class name, with itself as argument, and
      returns that method's result unchanged. */
  function Accept<R>(e: Expr, v: Visitor<R>): (r: R)
    ensures VisitorMethod(v, VisitMethodName(TypeName(e))).Some?
    ensures r == VisitorMethod(v, VisitMethodName(TypeName(e))).value(e)
  {
    ClassMethodNames();
    match e
    case Assign(_, _) => v.visitAssign(e)
    case Binary(_, _, _) => v.visitBinary(e)
    case Grouping(_) => v.visitGrouping(e)
    case Literal(_) => v.visitLiteral(e)
    case Unary(_, _) => v.visitUnary(e)
    case Variable(_) => v.visitVariable(e)
  }

  /** Looking a method up on a visitor by its name, as Python's attribute
      lookup does; None when the visitor has no method of that name. */
  function VisitorMethod<R>(v: Visitor<R>, methodName: string): Option<Expr -> R>
  {
    if methodName == "visit_assign" then Some(v.visitAssign)
    else if methodName == "visit_binary" then Some(v.visitBinary)
    else if methodName == "visit_grouping" then Some(v.visitGrouping)
    else if methodName == "visit_literal" then Some(v.visitLiteral)
    else if methodName == "visit_unary" then Some(v.visitUnary)
    else if methodName == "visit_variable" then Some(v.visitVariable)
    else None
  }

  /** The method name the naming rule gives to each node class. */
  lemma ClassMethodNames()
    ensures VisitMethodName("Assign") == "visit_assign"
    ensures VisitMethodName("Binary") == "visit_binary"
    ensures VisitMethodName("Grouping") == "visit_grouping"
    ensures VisitMethodName("Literal") == "visit_literal"
    ensures VisitMethodName("Unary") == "visit_unary"
    ensures VisitMethodName("Variable") == "visit_variable"
  {
    assert VisitMethodName("Assign") == "visit_assign" by {}
    assert VisitMethodName("Binary") == "visit_binary" by {}
    assert VisitMethodName("Grouping") == "visit_grouping" by {}
    assert VisitMethodName("Literal") == "visit_literal" by {}
    assert VisitMethodName("Unary") == "visit_unary" by {}
    assert VisitMethodName("Variable") == "visit_variable" by {}
  }

  /** The method names the naming rule gives to the declared classes. */
  lemma SchemaMethodNames()
    ensures MethodNames(Schema) ==
      ["visit_assign", "visit_binary", "visit_grouping", "visit_literal", "visit_unary", "visit_variable"]
  {
    ClassMethodNames();
    hide VisitMethodName, Lower, LowerChar;
    var names := MethodNames(Schema);
    assert names[0] == "visit_assign";
    assert names[1] == "visit_binary";
    assert names[2] == "visit_grouping";
    assert names[3] == "visit_literal";
    assert names[4] == "visit_unary";
    assert names[5] == "visit_variable";
  }

  /** The six declared classes get six different visitor methods. */
  lemma MethodNamesDistinct()
    ensures |Schema| == 6
    ensures forall i, j :: 0 <= i < j < |Schema| ==> MethodNames(Schema)[i] != MethodNames(Schema)[j]
  {
    hide MethodNames, VisitMethodName, Lower, LowerChar;
    SchemaMethodNames();
  }

  /** The visitor has a method for each declared class and no other. */
  lemma OneMethodPerClass<R>(v: Visitor<R>, methodName: string)
    ensures VisitorMethod(v, methodName).Some? <==> methodName in MethodNames(Schema)
  {
    hide MethodNames, VisitMethodName, Lower, LowerChar;
    SchemaMethodNames();
  }

  /** The visitor whose methods all do nothing: each returns Python's `None`. */
  function DefaultVisitor<R>(): (v: Visitor<Option<R>>)
    ensures forall e :: Accept(e, v) == None
  {
    Visitor(e => None, e => None, e => None, e => None, e => None, e => None)
  }
}
