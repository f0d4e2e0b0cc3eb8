/** Turning trees back into tokens: the inverse the parser is checked
    against. `Render` writes an expression out with the tokens the grammar
    expects, and `Canonical` describes the trees the grammar can produce:
    no `Assign`/`Variable` nodes, and every operator placed where its
    precedence and left associativity put it. */
module Printing {
  import opened Tokens
  import opened Expressions
  import Statements
  import opened Grammar

  /** The precedence level an expression sits at: that of its operator for a
      binary node, 0 for unary, grouped and literal nodes. */
  function Prec(e: Expr): nat
  {
    if e.Binary? then OperatorRank(e.operator.kind) else 0
  }

  /** Trees the grammar can build: a binary node's left operand sits at its
      level or tighter (left associativity), its right operand strictly
      tighter; a unary node's operand is unary, grouped or literal. */
  predicate Canonical(e: Expr)
  {
    match e
    case Literal(_) => true
    case Grouping(x) => Canonical(x)
    case Unary(op, x) => (op.kind == Bang || op.kind == Minus) && Prec(x) == 0 && Canonical(x)
    case Binary(l, op, r) =>
      OperatorRank(op.kind) > 0 && Prec(l) <= OperatorRank(op.kind) && Prec(r) < OperatorRank(op.kind)
      && Canonical(l) && Canonical(r)
    case Assign(_, _) => false
    case Variable(_) => false
  }

  /** The token a literal value is written as. */
  function LiteralToken(v: Value): (t: Token)
    ensures t.kind in {False, True, Null, Number}
  {
    match v
    case BoolValue(b) => Token(if b then True else False, NoPayload)
    case NullValue => Token(Null, NoPayload)
    case LexedValue(p) => Token(Number, p)
  }

  /** An expression written out as tokens, parentheses only where a
      `Grouping` node stands. */
  function Render(e: Expr): (ts: seq<Token>)
    ensures |ts| > 0
  {
    match e
    case Literal(v) => [LiteralToken(v)]
    case Grouping(x) => [Token(LeftParen, NoPayload)] + Render(x) + [Token(RightParen, NoPayload)]
    case Unary(op, x) => [op] + Render(x)
    case Binary(l, op, r) => Render(l) + [op] + Render(r)
    case Assign(name, value) => [name, Token(Equal, NoPayload)] + Render(value)
    case Variable(name) => [name]
  }

  /** A token a literal value can come from: the keyword token of a boolean
      or of null, matched by its kind; a NUMBER or STRING token carrying
      the lexed value. */
  predicate WritesValue(t: Token, v: Value)
  {
    match v
    case BoolValue(b) => t.kind == (if b then True else False)
    case NullValue => t.kind == Null
    case LexedValue(p) => (t.kind == Number || t.kind == String) && t.literal == p
  }

  /** The tokens from `pos` on spell `e`: they are the tokens `Render`
      writes for it, except that a literal may come from any token
      `WritesValue` allows and parentheses are matched by kind. Only the
      trees a parser can build are spelled by any tokens. */
  predicate Spells(ts: seq<Token>, pos: nat, e: Expr)
    decreases e
  {
    match e
    case Literal(v) => pos < |ts| && WritesValue(ts[pos], v)
    case Grouping(x) =>
      var close := pos + 1 + |Render(x)|;
      close < |ts| && ts[pos].kind == LeftParen && Spells(ts, pos + 1, x) && ts[close].kind == RightParen
    case Unary(op, x) => pos < |ts| && ts[pos] == op && Spells(ts, pos + 1, x)
    case Binary(l, op, r) =>
      var at := pos + |Render(l)|;
      at < |ts| && Spells(ts, pos, l) && ts[at] == op && Spells(ts, at + 1, r)
    case Assign(_, _) => false
    case Variable(_) => false
  }

  /** The expression a statement holds. */
  function Body(s: Statements.Stmt): Expr
  {
    match s
    case Expression(e) => e
    case Output(e) => e
  }

  /** A statement written out as tokens, with its keyword and `;`. */
  function RenderStatement(s: Statements.Stmt): (ts: seq<Token>)
    ensures |ts| > 1
  {
    match s
    case Expression(e) => Render(e) + [Token(SemiColon, NoPayload)]
    case Output(e) => [Token(Output, NoPayload)] + Render(e) + [Token(SemiColon, NoPayload)]
  }

  /** The tokens from `pos` on spell statement `s`: its keyword, if any, then
      its expression, then `;`. */
  predicate SpellsStatement(ts: seq<Token>, pos: nat, s: Statements.Stmt)
  {
    match s
    case Expression(e) =>
      var semi := pos + |Render(e)|;
      semi < |ts| && Spells(ts, pos, e) && ts[semi].kind == SemiColon
    case Output(e) =>
      var semi := pos + 1 + |Render(e)|;
      semi < |ts| && ts[pos].kind == Output && Spells(ts, pos + 1, e) && ts[semi].kind == SemiColon
  }

  /** A program written out as tokens, statement after statement. */
  function RenderProgram(ss: seq<Statements.Stmt>): (ts: seq<Token>)
    ensures |ts| >= |ss|
  {
    if ss == [] then [] else RenderStatement(ss[0]) + RenderProgram(ss[1..])
  }

  /** Every statement of a program holds a tree the grammar can build. */
  predicate CanonicalProgram(ss: seq<Statements.Stmt>)
  {
    forall i :: 0 <= i < |ss| ==> Canonical(Body(ss[i]))
  }

  /** The tokens from `pos` on spell the statements of `ss`, one after another. */
  predicate SpellsProgram(ts: seq<Token>, pos: nat, ss: seq<Statements.Stmt>)
    decreases |ss|
  {
    ss == [] || (SpellsStatement(ts, pos, ss[0]) && SpellsProgram(ts, pos + |RenderStatement(ss[0])|, ss[1..]))
  }
}
