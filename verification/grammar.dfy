/** The grammar of parser.py as functions of the token sequence and a cursor
    position. Each rule returns the outcome together with the position the
    cursor is left at, which is also where a failure leaves it. These
    functions are the specification the `Parser` class is proved against;
    what they guarantee is proved in `Soundness` and `RoundTrip`.

      program    -> statement* EOF
      statement  -> "output" expression ";" | expression ";"
      expression -> equality
      equality   -> comparison ( ( "!=" | "==" ) comparison )*
      comparison -> term ( ( ">" | ">=" | "<" | "<=" ) term )*
      term       -> factor ( ( "+" | "-" ) factor )*
      factor     -> unary ( ( "/" | "*" ) unary )*
      unary      -> ( "!" | "-" ) unary | primary
      primary    -> "false" | "true" | "null" | NUMBER | STRING | "(" expression ")"

    The four binary levels share one definition, indexed by their rank:
    1 factor, 2 term, 3 comparison, 4 equality. */
module Grammar {
  import opened Tokens
  import opened Options
  import opened Expressions
  import Statements

  /** The message of a parse error: a mandatory token was missing, or
      `primary` met a token no expression can start with (the source formats
      that token into the text, which depends on the token module and is not
      modelled). */
  datatype Message = Expected(text: string) | UnexpectedToken

  /** `ParseException`: the offending token and the message. */
  datatype ParseError = ParseError(token: Token, message: Message)

  datatype Result<T> = Success(value: T) | Failure(error: ParseError)

  /** The outcome of a rule and the cursor position after it. */
  datatype Step<T> = Step(result: Result<T>, cursor: nat)

  const ExpectValueSemi := "Expect ';' after value."
  const ExpectExpressionSemi := "Expect ';' after expression."
  const ExpectRightParen := "Expect ')' after expression."

  const FactorRank: nat := 1
  const TermRank: nat := 2
  const ComparisonRank: nat := 3
  const EqualityRank: nat := 4

  /** The level each binary operator belongs to, from equality (4, loosest)
      to factor (1, tightest); 0 for every other kind. */
  function OperatorRank(k: TokenKind): nat
  {
    match k
    case BangEqual | EqualEqual => 4
    case Greater | GreaterEqual | Less | LessEqual => 3
    case Plus | Minus => 2
    case Slash | Star => 1
    case _ => 0
  }

  /** The operators each binary level loops on. */
  function Operators(rank: nat): seq<TokenKind>
    requires 1 <= rank <= 4
  {
    if rank == EqualityRank then [BangEqual, EqualEqual]
    else if rank == ComparisonRank then [Greater, GreaterEqual, Less, LessEqual]
    else if rank == TermRank then [Plus, Minus]
    else [Slash, Star]
  }

  /** The lists the binary levels loop on are exactly the operators of
      their level. */
  lemma OperatorsOfRank(rank: nat, k: TokenKind)
    requires 1 <= rank <= 4
    ensures k in Operators(rank) <==> OperatorRank(k) == rank
  {
  }

  /** The kinds `synchronize` stops in front of. */
  const Boundaries: seq<TokenKind> := [SemiColon, Class, Fun, Set, For, If, While, Output, Return]

  /** `check`: the current token is not the end of input and is of an
      expected kind. A token it accepts is followed by another, so taking it
      keeps the cursor on the tokens. */
  predicate CheckAt(ts: seq<Token>, pos: nat, expected: seq<TokenKind>)
    requires WellFormed(ts) && pos < |ts|
    ensures CheckAt(ts, pos, expected) ==> pos + 1 < |ts| && ts[pos].kind in expected
  {
    ts[pos].kind != Eof && ts[pos].kind in expected
  }

  /** `consume`: take the current token if `check` accepts it, fail otherwise. */
  function ConsumeAt(ts: seq<Token>, pos: nat, expected: seq<TokenKind>, message: string): (s: Step<Token>)
    requires WellFormed(ts) && pos < |ts|
    ensures s.cursor < |ts|
    ensures s.result.Success? <==> CheckAt(ts, pos, expected)
  {
    if CheckAt(ts, pos, expected) then Step(Success(ts[pos]), pos + 1)
    else Step(Failure(ParseError(ts[pos], Expected(message))), pos)
  }

  /** `expression`. */
  function ParseExpression(ts: seq<Token>, pos: nat): (s: Step<Expr>)
    requires WellFormed(ts) && pos < |ts|
    ensures pos <= s.cursor < |ts|
    ensures s.result.Success? ==> pos < s.cursor
    decreases |ts| - pos, 10
  {
    ParseBinary(ts, pos, EqualityRank)
  }

  /** `equality`, `comparison`, `term` and `factor`: one operand, then the loop. */
  function ParseBinary(ts: seq<Token>, pos: nat, rank: nat): (s: Step<Expr>)
    requires WellFormed(ts) && pos < |ts| && 1 <= rank <= 4
    ensures pos <= s.cursor < |ts|
    ensures s.result.Success? ==> pos < s.cursor
    decreases |ts| - pos, 2 * rank + 1
  {
    var left := ParseOperand(ts, pos, rank);
    if left.result.Failure? then left
    else ParseRest(ts, rank, left.result.value, left.cursor)
  }

  /** The operand of a binary level: the next tighter level, or `unary`. */
  function ParseOperand(ts: seq<Token>, pos: nat, rank: nat): (s: Step<Expr>)
    requires WellFormed(ts) && pos < |ts| && 1 <= rank <= 4
    ensures pos <= s.cursor < |ts|
    ensures s.result.Success? ==> pos < s.cursor
    decreases |ts| - pos, 2 * rank
  {
    if rank == FactorRank then ParseUnary(ts, pos) else ParseBinary(ts, pos, rank - 1)
  }

  /** The loop of a binary level: while the current token is one of the
      level's operators, take it and an operand and fold them into the tree
      built so far, which becomes the left child. A success stops on a token
      that is none of the level's operators. */
  function ParseRest(ts: seq<Token>, rank: nat, acc: Expr, pos: nat): (s: Step<Expr>)
    requires WellFormed(ts) && pos < |ts| && 1 <= rank <= 4
    ensures pos <= s.cursor < |ts|
    ensures s.result.Success? ==> OperatorRank(ts[s.cursor].kind) != rank
    decreases |ts| - pos, 2 * rank + 1
  {
    if OperatorRank(ts[pos].kind) == rank then
      var right := ParseOperand(ts, pos + 1, rank);
      if right.result.Failure? then right
      else ParseRest(ts, rank, Binary(acc, ts[pos], right.result.value), right.cursor)
    else
      Step(Success(acc), pos)
  }

  // One step of a binary level, as used by the parser's loops and the round trip.

  /** A level whose first operand fails fails with it. */
  lemma {:induction false} OperandFailure(ts: seq<Token>, pos: nat, rank: nat)
    requires WellFormed(ts) && pos < |ts| && 1 <= rank <= 4
    requires ParseOperand(ts, pos, rank).result.Failure?
    ensures ParseBinary(ts, pos, rank) == ParseOperand(ts, pos, rank)
  {
  }

  lemma {:induction false} BinaryStart(ts: seq<Token>, pos: nat, rank: nat, e: Expr, q: nat)
    requires WellFormed(ts) && pos < |ts| && 1 <= rank <= 4
    requires ParseOperand(ts, pos, rank) == Step(Success(e), q)
    ensures ParseBinary(ts, pos, rank) == ParseRest(ts, rank, e, q)
  {
  }

  lemma {:induction false} RestTakes(ts: seq<Token>, rank: nat, l: Expr, q: nat, r: Expr, q2: nat)
    requires WellFormed(ts) && q + 1 < |ts| && 1 <= rank <= 4
    requires OperatorRank(ts[q].kind) == rank
    requires ParseOperand(ts, q + 1, rank) == Step(Success(r), q2)
    ensures ParseRest(ts, rank, l, q) == ParseRest(ts, rank, Binary(l, ts[q], r), q2)
  {
  }

  lemma {:induction false} RestFails(ts: seq<Token>, rank: nat, l: Expr, q: nat)
    requires WellFormed(ts) && q + 1 < |ts| && 1 <= rank <= 4
    requires OperatorRank(ts[q].kind) == rank
    requires ParseOperand(ts, q + 1, rank).result.Failure?
    ensures ParseRest(ts, rank, l, q) == ParseOperand(ts, q + 1, rank)
  {
  }

  lemma {:induction false} RestEnds(ts: seq<Token>, rank: nat, e: Expr, q: nat)
    requires WellFormed(ts) && q < |ts| && 1 <= rank <= 4
    requires OperatorRank(ts[q].kind) != rank
    ensures ParseRest(ts, rank, e, q) == Step(Success(e), q)
  {
  }

  /** `unary`: prefix `!` and `-` nest to the right. */
  function ParseUnary(ts: seq<Token>, pos: nat): (s: Step<Expr>)
    requires WellFormed(ts) && pos < |ts|
    ensures pos <= s.cursor < |ts|
    ensures s.result.Success? ==> pos < s.cursor
    decreases |ts| - pos, 1
  {
    if ts[pos].kind == Bang || ts[pos].kind == Minus then
      var right := ParseUnary(ts, pos + 1);
      if right.result.Failure? then right
      else Step(Success(Unary(ts[pos], right.result.value)), right.cursor)
    else
      ParsePrimary(ts, pos)
  }

  /** `primary`: literals, and a parenthesised expression. */
  function ParsePrimary(ts: seq<Token>, pos: nat): (s: Step<Expr>)
    requires WellFormed(ts) && pos < |ts|
    ensures pos <= s.cursor < |ts|
    ensures s.result.Success? ==> pos < s.cursor
    decreases |ts| - pos, 0
  {
    var t := ts[pos];
    if t.kind == False then Step(Success(Literal(BoolValue(false))), pos + 1)
    else if t.kind == True then Step(Success(Literal(BoolValue(true))), pos + 1)
    else if t.kind == Null then Step(Success(Literal(NullValue)), pos + 1)
    else if t.kind == Number || t.kind == String then Step(Success(Literal(LexedValue(t.literal))), pos + 1)
    else if t.kind == LeftParen then
      var inner := ParseExpression(ts, pos + 1);
      if inner.result.Failure? then inner
      else
        var close := ConsumeAt(ts, inner.cursor, [RightParen], ExpectRightParen);
        if close.result.Failure? then Step(Failure(close.result.error), close.cursor)
        else Step(Success(Grouping(inner.result.value)), close.cursor)
    else
      Step(Failure(ParseError(t, UnexpectedToken)), pos)
  }

  /** The branches of `primary`, one by one. */
  lemma {:induction false} PrimaryCases(ts: seq<Token>, pos: nat)
    requires WellFormed(ts) && pos < |ts|
    ensures ts[pos].kind == False ==> ParsePrimary(ts, pos) == Step(Success(Literal(BoolValue(false))), pos + 1)
    ensures ts[pos].kind == True ==> ParsePrimary(ts, pos) == Step(Success(Literal(BoolValue(true))), pos + 1)
    ensures ts[pos].kind == Null ==> ParsePrimary(ts, pos) == Step(Success(Literal(NullValue)), pos + 1)
    ensures ts[pos].kind == Number || ts[pos].kind == String ==>
      ParsePrimary(ts, pos) == Step(Success(Literal(LexedValue(ts[pos].literal))), pos + 1)
    ensures ts[pos].kind == LeftParen && ParseExpression(ts, pos + 1).result.Failure? ==>
      ParsePrimary(ts, pos) == ParseExpression(ts, pos + 1)
    ensures ts[pos].kind == LeftParen && ParseExpression(ts, pos + 1).result.Success? ==>
      var inner := ParseExpression(ts, pos + 1);
      var close := ConsumeAt(ts, inner.cursor, [RightParen], ExpectRightParen);
      ParsePrimary(ts, pos) ==
        if close.result.Failure? then Step(Failure(close.result.error), close.cursor)
        else Step(Success(Grouping(inner.result.value)), close.cursor)
    ensures ts[pos].kind !in [False, True, Null, Number, String, LeftParen] ==>
      ParsePrimary(ts, pos) == Step(Failure(ParseError(ts[pos], UnexpectedToken)), pos)
  {
  }

  /** `statement`. */
  function ParseStatement(ts: seq<Token>, pos: nat): (s: Step<Statements.Stmt>)
    requires WellFormed(ts) && pos < |ts|
    ensures pos <= s.cursor < |ts|
    ensures s.result.Success? ==> pos < s.cursor
  {
    if ts[pos].kind == Output then ParseOutputStatement(ts, pos + 1)
    else ParseExpressionStatement(ts, pos)
  }

  /** `output_statement`, entered after the `output` keyword. */
  function ParseOutputStatement(ts: seq<Token>, pos: nat): (s: Step<Statements.Stmt>)
    requires WellFormed(ts) && pos < |ts|
    ensures pos <= s.cursor < |ts|
    ensures s.result.Success? ==> pos < s.cursor
  {
    var value := ParseExpression(ts, pos);
    if value.result.Failure? then Step(Failure(value.result.error), value.cursor)
    else
      var semi := ConsumeAt(ts, value.cursor, [SemiColon], ExpectValueSemi);
      if semi.result.Failure? then Step(Failure(semi.result.error), semi.cursor)
      else Step(Success(Statements.Output(value.result.value)), semi.cursor)
  }

  /** Once the expression of a statement has been parsed, a `;` ends the
      statement and any other token fails it, on that token, with the
      message of the statement's kind: "Expect ';' after value." after
      `output`, "Expect ';' after expression." otherwise. */
  lemma {:induction false} StatementTerminator(ts: seq<Token>, pos: nat, e: Expr, q: nat)
    requires WellFormed(ts) && pos < |ts| && q < |ts|
    requires ParseExpression(ts, if ts[pos].kind == Output then pos + 1 else pos) == Step(Success(e), q)
    ensures ts[q].kind == SemiColon ==>
      ParseStatement(ts, pos) ==
        Step(Success(if ts[pos].kind == Output then Statements.Output(e) else Statements.Expression(e)), q + 1)
    ensures ts[q].kind != SemiColon ==>
      ParseStatement(ts, pos) ==
        Step(Failure(ParseError(ts[q], Expected(
          if ts[pos].kind == Output then ExpectValueSemi else ExpectExpressionSemi))), q)
  {
  }

  /** A statement whose expression fails fails with it. */
  lemma {:induction false} StatementExpressionFails(ts: seq<Token>, pos: nat)
    requires WellFormed(ts) && pos < |ts|
    requires ParseExpression(ts, if ts[pos].kind == Output then pos + 1 else pos).result.Failure?
    ensures var x := ParseExpression(ts, if ts[pos].kind == Output then pos + 1 else pos);
      ParseStatement(ts, pos) == Step(Failure(x.result.error), x.cursor)
  {
  }

  /** `expression_statement`, building the `Expression` statement the
      generated statement module declares (see `ExpressionStatementAsWritten`
      for what the source builds instead). */
  function ParseExpressionStatement(ts: seq<Token>, pos: nat): (s: Step<Statements.Stmt>)
    requires WellFormed(ts) && pos < |ts|
    ensures pos <= s.cursor < |ts|
    ensures s.result.Success? ==> pos < s.cursor
    ensures s.result.Success? ==> s.result.value.Expression?
  {
    var expr := ParseExpression(ts, pos);
    if expr.result.Failure? then Step(Failure(expr.result.error), expr.cursor)
    else
      var semi := ConsumeAt(ts, expr.cursor, [SemiColon], ExpectExpressionSemi);
      if semi.result.Failure? then Step(Failure(semi.result.error), semi.cursor)
      else Step(Success(Statements.Expression(expr.result.value)), semi.cursor)
  }

  /** `expression_statement` exactly as written. It builds its result with
      the statement base class, which the generator names `Expr` and gives
      no constructor of its own, so calling it with an argument raises a
      TypeError; None stands for that error. Such a statement therefore
      never succeeds: it raises the TypeError or a parse error. */
  function ExpressionStatementAsWritten(ts: seq<Token>, pos: nat): (r: Option<Step<Statements.Stmt>>)
    requires WellFormed(ts) && pos < |ts|
    ensures r.Some? ==> r.value.result.Failure?
  {
    var expr := ParseExpression(ts, pos);
    if expr.result.Failure? then Some(Step(Failure(expr.result.error), expr.cursor))
    else
      var semi := ConsumeAt(ts, expr.cursor, [SemiColon], ExpectExpressionSemi);
      if semi.result.Failure? then Some(Step(Failure(semi.result.error), semi.cursor))
      else None
  }

  /** `parse`: statements until the end-of-input token; the first error ends
      the parse. A success stops exactly on an end-of-input token, having
      consumed the written form of every statement it returns. */
  function ParseProgram(ts: seq<Token>, pos: nat): (s: Step<seq<Statements.Stmt>>)
    requires WellFormed(ts) && pos < |ts|
    ensures pos <= s.cursor < |ts|
    ensures s.result.Success? ==> ts[s.cursor].kind == Eof
    decreases |ts| - pos
  {
    if ts[pos].kind == Eof then Step(Success([]), pos)
    else
      var first := ParseStatement(ts, pos);
      if first.result.Failure? then Step(Failure(first.result.error), first.cursor)
      else
        var rest := ParseProgram(ts, first.cursor);
        if rest.result.Failure? then rest
        else
          Step(Success([first.result.value] + rest.result.value), rest.cursor)
  }

  /** Where `synchronize` leaves the cursor when it starts looking at `pos`:
      the first boundary token or end-of-input token from there on. */
  function SyncPoint(ts: seq<Token>, pos: nat): (q: nat)
    requires WellFormed(ts) && pos < |ts|
    ensures pos <= q < |ts|
    ensures ts[q].kind == Eof || ts[q].kind in Boundaries
    ensures forall i :: pos <= i < q ==> ts[i].kind != Eof && ts[i].kind !in Boundaries
    decreases |ts| - pos
  {
    if ts[pos].kind == Eof || ts[pos].kind in Boundaries then pos else SyncPoint(ts, pos + 1)
  }
}
