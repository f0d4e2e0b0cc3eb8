/** Worked programs: what the parser returns for a few token sequences. */
module Examples {
  import opened Tokens
  import opened Expressions
  import Statements
  import opened Printing
  import opened Grammar
  import opened RoundTrip
  import opened Soundness

  function Num(text: string): Token { Token(Number, text) }
  function Sym(k: TokenKind): Token { Token(k, NoPayload) }
  function Lit(text: string): Expr { Literal(LexedValue(text)) }

  /** A single expression statement given by its tree and its tokens. */
  lemma {:induction false} OneStatement(e: Expr, written: seq<Token>)
    requires Canonical(e) && Render(e) == written
    ensures ParseProgram(written + [Sym(SemiColon), Sym(Eof)], 0) ==
      Step(Success([Statements.Expression(e)]), |written| + 1)
  {
    var ss := [Statements.Expression(e)];
    assert RenderProgram(ss) == written + [Sym(SemiColon)] by {
      assert RenderProgram(ss[1..]) == [];
    }
    assert CanonicalProgram(ss);
    ParseInvertsRender(ss);
    assert RenderProgram(ss) + [Sym(Eof)] == written + [Sym(SemiColon), Sym(Eof)];
  }

  /** `1 - 2 - 3 ;`: subtraction folds to the left. */
  lemma LeftAssociative()
    ensures ParseProgram([Num("1"), Sym(Minus), Num("2"), Sym(Minus), Num("3"), Sym(SemiColon), Sym(Eof)], 0) ==
      Step(Success([Statements.Expression(Binary(Binary(Lit("1"), Sym(Minus), Lit("2")), Sym(Minus), Lit("3")))]), 6)
  {
    var l := Binary(Lit("1"), Sym(Minus), Lit("2"));
    var e := Binary(l, Sym(Minus), Lit("3"));
    assert Render(l) == [Num("1"), Sym(Minus), Num("2")];
    assert Render(e) == [Num("1"), Sym(Minus), Num("2"), Sym(Minus), Num("3")];
    OneStatement(e, Render(e));
    assert Render(e) + [Sym(SemiColon), Sym(Eof)] == [Num("1"), Sym(Minus), Num("2"), Sym(Minus), Num("3"), Sym(SemiColon), Sym(Eof)];
  }

  /** `1 + 2 * 3 ;`: multiplication binds tighter than addition. */
  lemma Precedence()
    ensures ParseProgram([Num("1"), Sym(Plus), Num("2"), Sym(Star), Num("3"), Sym(SemiColon), Sym(Eof)], 0) ==
      Step(Success([Statements.Expression(Binary(Lit("1"), Sym(Plus), Binary(Lit("2"), Sym(Star), Lit("3"))))]), 6)
  {
    var ts := [Num("1"), Sym(Plus), Num("2"), Sym(Star), Num("3"), Sym(SemiColon), Sym(Eof)];
    var e := Binary(Lit("1"), Sym(Plus), Binary(Lit("2"), Sym(Star), Lit("3")));
    PrecedenceTokens(e, ts);
    OneStatement(e, Render(e));
  }

  lemma {:induction false} PrecedenceTokens(e: Expr, ts: seq<Token>)
    requires e == Binary(Lit("1"), Sym(Plus), Binary(Lit("2"), Sym(Star), Lit("3")))
    requires ts == [Num("1"), Sym(Plus), Num("2"), Sym(Star), Num("3"), Sym(SemiColon), Sym(Eof)]
    ensures Canonical(e) && Render(e) + [Sym(SemiColon), Sym(Eof)] == ts
  {
    assert Render(e.right) == [Num("2"), Sym(Star), Num("3")];
    assert Render(e) == [Num("1"), Sym(Plus)] + Render(e.right);
  }

  /** `- - 1 ;`: prefix operators nest to the right. */
  lemma NestedPrefix()
    ensures ParseProgram([Sym(Minus), Sym(Minus), Num("1"), Sym(SemiColon), Sym(Eof)], 0) ==
      Step(Success([Statements.Expression(Unary(Sym(Minus), Unary(Sym(Minus), Lit("1"))))]), 4)
  {
    var e := Unary(Sym(Minus), Unary(Sym(Minus), Lit("1")));
    assert Render(e) == [Sym(Minus), Sym(Minus), Num("1")];
    OneStatement(e, Render(e));
    assert Render(e) + [Sym(SemiColon), Sym(Eof)] == [Sym(Minus), Sym(Minus), Num("1"), Sym(SemiColon), Sym(Eof)];
  }

  /** `( 1 + 2 ) * 3 ;`: parentheses override precedence and are kept as a
      `Grouping` node. */
  lemma Parenthesised()
    ensures ParseProgram([Sym(LeftParen), Num("1"), Sym(Plus), Num("2"), Sym(RightParen), Sym(Star), Num("3"), Sym(SemiColon), Sym(Eof)], 0) ==
      Step(Success([Statements.Expression(Binary(Grouping(Binary(Lit("1"), Sym(Plus), Lit("2"))), Sym(Star), Lit("3")))]), 8)
  {
    var ts := [Sym(LeftParen), Num("1"), Sym(Plus), Num("2"), Sym(RightParen), Sym(Star), Num("3"), Sym(SemiColon), Sym(Eof)];
    var e := Binary(Grouping(Binary(Lit("1"), Sym(Plus), Lit("2"))), Sym(Star), Lit("3"));
    ParenthesisedTokens(e, ts);
    OneStatement(e, Render(e));
  }

  lemma {:induction false} ParenthesisedTokens(e: Expr, ts: seq<Token>)
    requires e == Binary(Grouping(Binary(Lit("1"), Sym(Plus), Lit("2"))), Sym(Star), Lit("3"))
    requires ts == [Sym(LeftParen), Num("1"), Sym(Plus), Num("2"), Sym(RightParen), Sym(Star), Num("3"), Sym(SemiColon), Sym(Eof)]
    ensures Canonical(e) && Render(e) + [Sym(SemiColon), Sym(Eof)] == ts
  {
    var g := e.left;
    assert Render(g) == [Sym(LeftParen), Num("1"), Sym(Plus), Num("2"), Sym(RightParen)];
    assert Render(e) == Render(g) + [Sym(Star), Num("3")];
  }

  /** `output true ;`: an output statement. */
  lemma OutputStatement()
    ensures ParseProgram([Sym(Output), Sym(True), Sym(SemiColon), Sym(Eof)], 0) ==
      Step(Success([Statements.Output(Literal(BoolValue(true)))]), 3)
  {
    var ss := [Statements.Output(Literal(BoolValue(true)))];
    assert RenderProgram(ss) == [Sym(Output), Sym(True), Sym(SemiColon)] by {
      assert RenderProgram(ss[1..]) == [];
    }
    assert CanonicalProgram(ss);
    ParseInvertsRender(ss);
    assert RenderProgram(ss) + [Sym(Eof)] == [Sym(Output), Sym(True), Sym(SemiColon), Sym(Eof)];
  }

  /** `1` with no `;`: the statement fails on the end-of-input token. */
  lemma MissingSemicolon()
    ensures ParseProgram([Num("1"), Sym(Eof)], 0) ==
      Step(Failure(ParseError(Sym(Eof), Expected("Expect ';' after expression."))), 1)
  {
    var ts := [Num("1"), Sym(Eof)];
    AtInside([], [Num("1")], [Sym(Eof)]);
    assert [] + [Num("1")] + [Sym(Eof)] == ts;
    ExpressionRoundTrip(ts, 0, Lit("1"));
  }

  /** A group whose expression is followed by anything but `)`. */
  lemma {:induction false} Unclosed(ts: seq<Token>, pos: nat, e: Expr, q: nat)
    requires WellFormed(ts) && pos + 1 < |ts| && ts[pos].kind == LeftParen
    requires ParseExpression(ts, pos + 1) == Step(Success(e), q) && ts[q].kind != RightParen
    ensures ParseUnary(ts, pos) == Step(Failure(ParseError(ts[q], Expected(ExpectRightParen))), q)
  {
    assert ParseUnary(ts, pos) == ParsePrimary(ts, pos);
  }

  /** `( 1 + 2 ;`: the group is not closed; the error names the `;` and the
      parse stops there. */
  lemma UnclosedGroup()
    ensures ParseProgram([Sym(LeftParen), Num("1"), Sym(Plus), Num("2"), Sym(SemiColon), Sym(Eof)], 0) ==
      Step(Failure(ParseError(Sym(SemiColon), Expected("Expect ')' after expression."))), 4)
  {
    var ts := [Sym(LeftParen), Num("1"), Sym(Plus), Num("2"), Sym(SemiColon), Sym(Eof)];
    UnclosedExpression(ts);
  }

  lemma {:induction false} UnclosedExpression(ts: seq<Token>)
    requires ts == [Sym(LeftParen), Num("1"), Sym(Plus), Num("2"), Sym(SemiColon), Sym(Eof)]
    ensures ParseExpression(ts, 0) == Step(Failure(ParseError(Sym(SemiColon), Expected(ExpectRightParen))), 4)
  {
    var e := Binary(Lit("1"), Sym(Plus), Lit("2"));
    assert Render(e) == [Num("1"), Sym(Plus), Num("2")];
    AtInside([Sym(LeftParen)], Render(e), [Sym(SemiColon), Sym(Eof)]);
    assert [Sym(LeftParen)] + Render(e) + [Sym(SemiColon), Sym(Eof)] == ts;
    ExpressionRoundTrip(ts, 1, e);
    Unclosed(ts, 0, e, 4);
    LeadingFailure(ts, 0);
  }

  /** `;` alone: no expression starts with it. */
  lemma UnexpectedToken()
    ensures ParseProgram([Sym(SemiColon), Sym(Eof)], 0) ==
      Step(Failure(ParseError(Sym(SemiColon), Message.UnexpectedToken)), 0)
  {
    var ts := [Sym(SemiColon), Sym(Eof)];
    assert ParseUnary(ts, 0) == ParsePrimary(ts, 0);
    LeadingFailure(ts, 0);
  }
}
