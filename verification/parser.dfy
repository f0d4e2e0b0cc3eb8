/** The `Parser` class of parser.py: an immutable token sequence and one
    cursor that only moves forward. Each grammar method returns a `Result`
    where the source raises `ParseException`, and is proved to compute what
    the corresponding rule of `Grammar` computes, leaving the cursor where
    that rule says. The error sink `oof.error` is modelled by the ghost log
    `reported`. The grammar methods `hide` the rule definitions they do not
    unfold and take each step from a lemma of `Grammar` instead. */
module Parsing {
  import opened Tokens
  import Expressions
  import Statements
  import opened Grammar

  /** The errors a call hands to the sink: its own, if it failed. */
  function Reports<T>(r: Result<T>): seq<ParseError>
  {
    if r.Failure? then [r.error] else []
  }

  /** Prefixing the statements parsed so far to the outcome of the rest. */
  function Prepend(done: seq<Statements.Stmt>, rest: Step<seq<Statements.Stmt>>): Step<seq<Statements.Stmt>>
  {
    if rest.result.Success? then Step(Success(done + rest.result.value), rest.cursor) else rest
  }

  lemma {:induction false} PrependNothing(rest: Step<seq<Statements.Stmt>>)
    ensures Prepend([], rest) == rest
  {
    if rest.result.Success? {
      assert [] + rest.result.value == rest.result.value;
    }
  }

  lemma {:induction false} PrependTwice(a: seq<Statements.Stmt>, b: seq<Statements.Stmt>, rest: Step<seq<Statements.Stmt>>)
    ensures Prepend(a, Prepend(b, rest)) == Prepend(a + b, rest)
  {
    if rest.result.Success? {
      assert a + (b + rest.result.value) == (a + b) + rest.result.value;
    }
  }

  /** One turn of `parse`: a statement, then the rest of the program. */
  lemma {:induction false} ProgramStep(ts: seq<Token>, pos: nat)
    requires WellFormed(ts) && pos < |ts| && ts[pos].kind != Eof
    ensures var first := ParseStatement(ts, pos);
      ParseProgram(ts, pos) ==
        if first.result.Failure? then Step(Failure(first.result.error), first.cursor)
        else Prepend([first.result.value], ParseProgram(ts, first.cursor))
  {
  }

  class Parser {
    const tokens: seq<Token>
    var current: nat
    /** Every error reported to the sink, oldest first. */
    ghost var reported: seq<ParseError>

    ghost predicate Valid()
      reads this
    {
      WellFormed(tokens) && current < |tokens|
    }

    constructor (tokens: seq<Token>)
      requires WellFormed(tokens)
      ensures Valid() && this.tokens == tokens && current == 0 && reported == []
    {
      this.tokens := tokens;
      current := 0;
      reported := [];
    }

    /** `parse`: statements until the cursor is on the end-of-input token. */
    method Parse() returns (r: Result<seq<Statements.Stmt>>)
      requires Valid()
      modifies this
      ensures Valid() && Step(r, current) == ParseProgram(tokens, old(current))
      ensures reported == old(reported) + Reports(r)
    {
      var statements := [];
      PrependNothing(ParseProgram(tokens, current));
      while !AtEnd()
        invariant Valid() && old(current) <= current
        invariant ParseProgram(tokens, old(current)) == Prepend(statements, ParseProgram(tokens, current))
        invariant reported == old(reported)
        decreases |tokens| - current
      {
        ProgramStep(tokens, current);
        var s := Statement();
        if s.Failure? {
          return Failure(s.error);
        }
        PrependTwice(statements, [s.value], ParseProgram(tokens, current));
        statements := statements + [s.value];
      }
      assert statements + [] == statements;
      return Success(statements);
    }

    /** `statement`: an `output` statement or an expression statement. */
    method Statement() returns (r: Result<Statements.Stmt>)
      requires Valid()
      modifies this
      ensures Valid() && Step(r, current) == ParseStatement(tokens, old(current))
      ensures reported == old(reported) + Reports(r)
    {
      var isOutput := Match([Output]);
      if isOutput {
        r := OutputStatement();
      } else {
        r := ExpressionStatement();
      }
    }

    /** `output_statement`. */
    method OutputStatement() returns (r: Result<Statements.Stmt>)
      requires Valid()
      modifies this
      ensures Valid() && Step(r, current) == ParseOutputStatement(tokens, old(current))
      ensures reported == old(reported) + Reports(r)
    {
      var value := Expression();
      if value.Failure? {
        return Failure(value.error);
      }
      var semi := Consume([SemiColon], ExpectValueSemi);
      if semi.Failure? {
        return Failure(semi.error);
      }
      return Success(Statements.Output(value.value));
    }

    /** `expression_statement`, building the `Expression` statement. */
    method ExpressionStatement() returns (r: Result<Statements.Stmt>)
      requires Valid()
      modifies this
      ensures Valid() && Step(r, current) == ParseExpressionStatement(tokens, old(current))
      ensures reported == old(reported) + Reports(r)
    {
      var expr := Expression();
      if expr.Failure? {
        return Failure(expr.error);
      }
      var semi := Consume([SemiColon], ExpectExpressionSemi);
      if semi.Failure? {
        return Failure(semi.error);
      }
      return Success(Statements.Expression(expr.value));
    }

    /** `expression`. */
    method Expression() returns (r: Result<Expressions.Expr>)
      requires Valid()
      modifies this
      ensures Valid() && Step(r, current) == ParseExpression(tokens, old(current))
      ensures reported == old(reported) + Reports(r)
      decreases |tokens| - current, 10
    {
      r := Equality();
    }

    /** `equality`: comparisons joined by `!=` and `==`, folded to the left. */
    method Equality() returns (r: Result<Expressions.Expr>)
      requires Valid()
      modifies this
      ensures Valid() && Step(r, current) == ParseBinary(tokens, old(current), EqualityRank)
      ensures reported == old(reported) + Reports(r)
      decreases |tokens| - current, 2 * EqualityRank + 1
    {
      hide ParseBinary, ParseRest, OperatorRank, ParseUnary, ParsePrimary, ParseExpression;
      var first := Comparison();
      if first.Failure? {
        OperandFailure(tokens, old(current), EqualityRank);
        return first;
      }
      var expr := first.value;
      BinaryStart(tokens, old(current), EqualityRank, expr, current);
      while true
        invariant Valid() && old(current) < current
        invariant ParseBinary(tokens, old(current), EqualityRank) == ParseRest(tokens, EqualityRank, expr, current)
        invariant reported == old(reported)
        decreases |tokens| - current
      {
        ghost var at := current;
        var matched := Match([BangEqual, EqualEqual]);
        OperatorsOfRank(EqualityRank, tokens[at].kind);
        if !matched {
          RestEnds(tokens, EqualityRank, expr, at);
          return Success(expr);
        }
        var op := Previous();
        var right := Comparison();
        if right.Failure? {
          RestFails(tokens, EqualityRank, expr, at);
          return right;
        }
        RestTakes(tokens, EqualityRank, expr, at, right.value, current);
        expr := Expressions.Binary(expr, op, right.value);
      }
    }

    /** `comparison`: terms joined by `>`, `>=`, `<` and `<=`, folded to the left. */
    method Comparison() returns (r: Result<Expressions.Expr>)
      requires Valid()
      modifies this
      ensures Valid() && Step(r, current) == ParseBinary(tokens, old(current), ComparisonRank)
      ensures reported == old(reported) + Reports(r)
      decreases |tokens| - current, 2 * ComparisonRank + 1
    {
      hide ParseBinary, ParseRest, OperatorRank, ParseUnary, ParsePrimary, ParseExpression;
      var first := Term();
      if first.Failure? {
        OperandFailure(tokens, old(current), ComparisonRank);
        return first;
      }
      var expr := first.value;
      BinaryStart(tokens, old(current), ComparisonRank, expr, current);
      while true
        invariant Valid() && old(current) < current
        invariant ParseBinary(tokens, old(current), ComparisonRank) == ParseRest(tokens, ComparisonRank, expr, current)
        invariant reported == old(reported)
        decreases |tokens| - current
      {
        ghost var at := current;
        var matched := Match([Greater, GreaterEqual, Less, LessEqual]);
        OperatorsOfRank(ComparisonRank, tokens[at].kind);
        if !matched {
          RestEnds(tokens, ComparisonRank, expr, at);
          return Success(expr);
        }
        var op := Previous();
        var right := Term();
        if right.Failure? {
          RestFails(tokens, ComparisonRank, expr, at);
          return right;
        }
        RestTakes(tokens, ComparisonRank, expr, at, right.value, current);
        expr := Expressions.Binary(expr, op, right.value);
      }
    }

    /** `term`: factors joined by `+` and `-`, folded to the left. */
    method Term() returns (r: Result<Expressions.Expr>)
      requires Valid()
      modifies this
      ensures Valid() && Step(r, current) == ParseBinary(tokens, old(current), TermRank)
      ensures reported == old(reported) + Reports(r)
      decreases |tokens| - current, 2 * TermRank + 1
    {
      hide ParseBinary, ParseRest, OperatorRank, ParseUnary, ParsePrimary, ParseExpression;
      var first := Factor();
      if first.Failure? {
        OperandFailure(tokens, old(current), TermRank);
        return first;
      }
      var expr := first.value;
      BinaryStart(tokens, old(current), TermRank, expr, current);
      while true
        invariant Valid() && old(current) < current
        invariant ParseBinary(tokens, old(current), TermRank) == ParseRest(tokens, TermRank, expr, current)
        invariant reported == old(reported)
        decreases |tokens| - current
      {
        ghost var at := current;
        var matched := Match([Plus, Minus]);
        OperatorsOfRank(TermRank, tokens[at].kind);
        if !matched {
          RestEnds(tokens, TermRank, expr, at);
          return Success(expr);
        }
        var op := Previous();
        var right := Factor();
        if right.Failure? {
          RestFails(tokens, TermRank, expr, at);
          return right;
        }
        RestTakes(tokens, TermRank, expr, at, right.value, current);
        expr := Expressions.Binary(expr, op, right.value);
      }
    }

    /** `factor`: unary expressions joined by `/` and `*`, folded to the left. */
    method Factor() returns (r: Result<Expressions.Expr>)
      requires Valid()
      modifies this
      ensures Valid() && Step(r, current) == ParseBinary(tokens, old(current), FactorRank)
      ensures reported == old(reported) + Reports(r)
      decreases |tokens| - current, 2 * FactorRank + 1
    {
      hide ParseBinary, ParseRest, OperatorRank, ParseUnary, ParsePrimary, ParseExpression;
      var first := Unary();
      if first.Failure? {
        OperandFailure(tokens, old(current), FactorRank);
        return first;
      }
      var expr := first.value;
      BinaryStart(tokens, old(current), FactorRank, expr, current);
      while true
        invariant Valid() && old(current) < current
        invariant ParseBinary(tokens, old(current), FactorRank) == ParseRest(tokens, FactorRank, expr, current)
        invariant reported == old(reported)
        decreases |tokens| - current
      {
        ghost var at := current;
        var matched := Match([Slash, Star]);
        OperatorsOfRank(FactorRank, tokens[at].kind);
        if !matched {
          RestEnds(tokens, FactorRank, expr, at);
          return Success(expr);
        }
        var op := Previous();
        var right := Unary();
        if right.Failure? {
          RestFails(tokens, FactorRank, expr, at);
          return right;
        }
        RestTakes(tokens, FactorRank, expr, at, right.value, current);
        expr := Expressions.Binary(expr, op, right.value);
      }
    }

    /** `unary`: a prefix `!` or `-` applied to a unary expression, or a primary. */
    method Unary() returns (r: Result<Expressions.Expr>)
      requires Valid()
      modifies this
      ensures Valid() && Step(r, current) == ParseUnary(tokens, old(current))
      ensures reported == old(reported) + Reports(r)
      decreases |tokens| - current, 1
    {
      ghost var start := current;
      var prefixed := Match([Bang, Minus]);
      if prefixed {
        var op := Previous();
        assert op == tokens[start] && reported == old(reported);
        var right := Unary();
        if right.Failure? {
          return right;
        }
        return Success(Expressions.Unary(op, right.value));
      }
      assert current == start && reported == old(reported);
      r := Primary();
    }

    /** `primary`: a literal or a parenthesised expression; anything else is
        reported and fails. */
    method Primary() returns (r: Result<Expressions.Expr>)
      requires Valid()
      modifies this
      ensures Valid() && Step(r, current) == ParsePrimary(tokens, old(current))
      ensures reported == old(reported) + Reports(r)
      decreases |tokens| - current, 0
    {
      PrimaryCases(tokens, current);
      hide ParsePrimary, ParseExpression, ParseBinary, ParseRest, ParseOperand, ParseUnary, OperatorRank, ConsumeAt, CheckAt, WellFormed, Previous, Valid;
      ghost var start := current;
      var m := Match([False]);
      if m {
        return Success(Expressions.Literal(Expressions.BoolValue(false)));
      }
      assert current == start && reported == old(reported);
      m := Match([True]);
      if m {
        return Success(Expressions.Literal(Expressions.BoolValue(true)));
      }
      assert current == start && reported == old(reported);
      m := Match([Null]);
      if m {
        return Success(Expressions.Literal(Expressions.NullValue));
      }
      assert current == start && reported == old(reported);
      m := Match([Number, String]);
      if m {
        return Success(Expressions.Literal(Expressions.LexedValue(Previous().literal)));
      }
      assert current == start && reported == old(reported);
      m := Match([LeftParen]);
      if m {
        var inner := Expression();
        if inner.Failure? {
          return inner;
        }
        var close := Consume([RightParen], ExpectRightParen);
        if close.Failure? {
          return Failure(close.error);
        }
        return Success(Expressions.Grouping(inner.value));
      }
      assert current == start && reported == old(reported);
      var t := Peek();
      var err := Error(t, UnexpectedToken);
      return Failure(err);
    }

    /** `match`: take the current token if its kind is expected. The source
        never passes the end-of-input kind here, which is what keeps the
        cursor on the tokens. */
    method Match(expected: seq<TokenKind>) returns (matched: bool)
      requires Valid()
      requires tokens[current].kind in expected ==> tokens[current].kind != Eof
      modifies this`current
      ensures Valid()
      ensures matched <==> tokens[old(current)].kind in expected
      ensures current == if matched then old(current) + 1 else old(current)
    {
      if Peek().kind in expected {
        var passed := Advance();
        return true;
      }
      return false;
    }

    /** `check`: the current token is expected and not the end of input.
        Changes nothing. */
    method Check(expected: seq<TokenKind>) returns (b: bool)
      requires Valid()
      ensures b <==> CheckAt(tokens, current, expected)
      ensures tokens[current].kind == Eof ==> !b
      ensures b ==> current + 1 < |tokens|
    {
      if AtEnd() {
        return false;
      }
      if Peek().kind in expected {
        return true;
      }
      return false;
    }

    /** `consume`: take and return the current token if `check` accepts it;
        otherwise report and fail with the current token and `message`,
        leaving the cursor where it was. */
    method Consume(expected: seq<TokenKind>, message: string) returns (r: Result<Token>)
      requires Valid()
      modifies this
      ensures Valid() && Step(r, current) == ConsumeAt(tokens, old(current), expected, message)
      ensures r.Success? ==> r.value == tokens[old(current)] && current == old(current) + 1
      ensures r.Failure? ==>
        r.error == ParseError(tokens[old(current)], Expected(message)) && current == old(current)
      ensures reported == old(reported) + Reports(r)
    {
      var ok := Check(expected);
      if ok {
        var t := Advance();
        return Success(t);
      }
      var err := Error(Peek(), Expected(message));
      return Failure(err);
    }

    /** `synchronize`: step past the current token, then skip tokens up to
        the next statement boundary or the end of input, without taking it.
        The source never calls it: a parse error ends the parse. */
    method Synchronize()
      requires Valid() && tokens[current].kind != Eof
      modifies this`current
      ensures Valid() && old(current) < current
      ensures current == SyncPoint(tokens, old(current) + 1)
    {
      var passed := Advance();
      while !AtEnd()
        invariant Valid() && old(current) < current
        invariant SyncPoint(tokens, old(current) + 1) == SyncPoint(tokens, current)
        decreases |tokens| - current
      {
        if Peek().kind in Boundaries {
          return;
        }
        passed := Advance();
      }
    }

    /** `advance`: move the cursor one token on and return the token passed. */
    method Advance() returns (t: Token)
      requires Valid() && tokens[current].kind != Eof
      modifies this`current
      ensures Valid() && current == old(current) + 1 && t == tokens[old(current)]
    {
      current := current + 1;
      t := Previous();
    }

    /** `peek`: the token under the cursor, which stays where it is. A token
        other than the end of input is followed by another, so `advance`
        past it stays on the tokens. */
    function Peek(): (t: Token)
      reads this
      requires Valid()
      ensures t == tokens[current]
      ensures t.kind != Eof ==> current + 1 < |tokens|
    {
      tokens[current]
    }

    /** `previous`: the token before the cursor. Before anything is consumed
        the source's index -1 wraps around to the last token, the end of
        input. */
    function Previous(): (t: Token)
      reads this
      requires Valid()
      ensures current == 0 ==> t.kind == Eof
      ensures current > 0 ==> t == tokens[current - 1]
    {
      if current == 0 then tokens[|tokens| - 1] else tokens[current - 1]
    }

    /** `at_end`: the cursor is on an end-of-input token; when it is not, a
        further token follows. */
    predicate AtEnd()
      reads this
      requires Valid()
      ensures !AtEnd() ==> current + 1 < |tokens|
    {
      Peek().kind == Eof
    }

    /** `error`: report to the sink and return the exception to raise. */
    method Error(token: Token, message: Message) returns (err: ParseError)
      modifies this`reported
      ensures err == ParseError(token, message) && reported == old(reported) + [err]
    {
      err := ParseError(token, message);
      reported := reported + [err];
    }
  }
}
