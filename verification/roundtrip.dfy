/** The grammar inverts the printer: a canonical tree written out with
    `Render` and followed by a token that ends it parses back to the same
    tree, which fixes left associativity, the precedence of the four binary
    levels, right-nested prefix operators and grouping all at once.

    Proofs that only chain other lemmas `hide` the definitions they do not
    need to unfold, which keeps each proof obligation small. */
module RoundTrip {
  import opened Tokens
  import opened Expressions
  import Statements
  import opened Printing
  import opened Grammar

  /** The tokens from `pos` on begin with `w`. */
  predicate At(ts: seq<Token>, pos: nat, w: seq<Token>)
    decreases |w|
  {
    if |w| == 0 then pos <= |ts| else pos < |ts| && ts[pos] == w[0] && At(ts, pos + 1, w[1..])
  }

  lemma {:induction false} AtSplit(ts: seq<Token>, pos: nat, a: seq<Token>, b: seq<Token>)
    requires At(ts, pos, a + b)
    ensures At(ts, pos, a) && At(ts, pos + |a|, b)
    decreases |a|
  {
    if |a| == 0 {
      assert a + b == b;
    } else {
      assert (a + b)[0] == a[0] && (a + b)[1..] == a[1..] + b;
      AtSplit(ts, pos + 1, a[1..], b);
    }
  }

  lemma {:induction false} AtBound(ts: seq<Token>, pos: nat, w: seq<Token>)
    requires At(ts, pos, w)
    ensures pos + |w| <= |ts|
    decreases |w|
  {
    if |w| > 0 {
      AtBound(ts, pos + 1, w[1..]);
    }
  }

  lemma {:induction false} AtFirst(ts: seq<Token>, pos: nat, w: seq<Token>)
    requires At(ts, pos, w) && |w| > 0
    ensures ts[pos] == w[0]
  {
  }

  /** A sequence is found where it stands in a concatenation. */
  lemma {:induction false} AtInside(p: seq<Token>, w: seq<Token>, s: seq<Token>)
    ensures At(p + w + s, |p|, w)
    decreases |w|
  {
    if |w| > 0 {
      assert (p + w + s)[|p|] == w[0];
      assert p + w + s == (p + [w[0]]) + w[1..] + s;
      AtInside(p + [w[0]], w[1..], s);
    }
  }

  /** The pieces of a token sequence split around one token. */
  lemma {:induction false} AtAround(ts: seq<Token>, pos: nat, a: seq<Token>, t: Token, b: seq<Token>)
    requires At(ts, pos, a + [t] + b)
    ensures pos + |a| < |ts|
    ensures At(ts, pos, a) && ts[pos + |a|] == t && At(ts, pos + |a| + 1, b)
  {
    AtBound(ts, pos, a + [t] + b);
    AtSplit(ts, pos, a + [t], b);
    AtSplit(ts, pos, a, [t]);
    AtFirst(ts, pos + |a|, [t]);
  }

  /** The pieces of a token sequence after its first token. */
  lemma {:induction false} AtAfter(ts: seq<Token>, pos: nat, t: Token, b: seq<Token>)
    requires At(ts, pos, [t] + b)
    ensures ts[pos] == t && At(ts, pos + 1, b)
  {
    AtSplit(ts, pos, [t], b);
    AtFirst(ts, pos, [t]);
  }

  /** The pieces of a token sequence before its last token. */
  lemma {:induction false} AtBefore(ts: seq<Token>, pos: nat, a: seq<Token>, t: Token)
    requires At(ts, pos, a + [t])
    ensures pos + |a| < |ts|
    ensures At(ts, pos, a) && ts[pos + |a|] == t
  {
    AtBound(ts, pos, a + [t]);
    AtSplit(ts, pos, a, [t]);
    AtFirst(ts, pos + |a|, [t]);
  }

  /** The tokens `Render` writes for a canonical tree spell it: the reading
      of tokens that soundness is stated with agrees with the printer. */
  lemma {:induction false} WrittenSpells(ts: seq<Token>, pos: nat, e: Expr)
    requires Canonical(e) && At(ts, pos, Render(e))
    ensures Spells(ts, pos, e)
    decreases e
  {
    hide At, Render, Prec, OperatorRank;
    match e
    case Literal(v) =>
      WrittenLiteral(ts, pos, v);
    case Grouping(x) =>
      WrittenGrouping(ts, pos, x);
      WrittenSpells(ts, pos + 1, x);
    case Unary(op, x) =>
      WrittenUnary(ts, pos, op, x);
      WrittenSpells(ts, pos + 1, x);
    case Binary(l, op, r) =>
      WrittenBinary(ts, pos, l, op, r);
      WrittenSpells(ts, pos, l);
      WrittenSpells(ts, pos + |Render(l)| + 1, r);
  }

  lemma {:induction false} WrittenLiteral(ts: seq<Token>, pos: nat, v: Value)
    requires At(ts, pos, Render(Literal(v)))
    ensures Spells(ts, pos, Literal(v))
  {
    AtBound(ts, pos, Render(Literal(v)));
    AtFirst(ts, pos, Render(Literal(v)));
  }

  lemma {:induction false} WrittenGrouping(ts: seq<Token>, pos: nat, x: Expr)
    requires At(ts, pos, Render(Grouping(x)))
    ensures pos + 1 + |Render(x)| < |ts| && At(ts, pos + 1, Render(x))
    ensures ts[pos].kind == LeftParen && ts[pos + 1 + |Render(x)|].kind == RightParen
  {
    AtBefore(ts, pos, [Token(LeftParen, NoPayload)] + Render(x), Token(RightParen, NoPayload));
    AtAfter(ts, pos, Token(LeftParen, NoPayload), Render(x));
  }

  lemma {:induction false} WrittenUnary(ts: seq<Token>, pos: nat, op: Token, x: Expr)
    requires At(ts, pos, Render(Unary(op, x)))
    ensures pos < |ts| && ts[pos] == op && At(ts, pos + 1, Render(x))
  {
    AtAfter(ts, pos, op, Render(x));
  }

  lemma {:induction false} WrittenBinary(ts: seq<Token>, pos: nat, l: Expr, op: Token, r: Expr)
    requires At(ts, pos, Render(Binary(l, op, r)))
    ensures pos + |Render(l)| < |ts| && At(ts, pos, Render(l))
    ensures ts[pos + |Render(l)|] == op && At(ts, pos + |Render(l)| + 1, Render(r))
  {
    AtAround(ts, pos, Render(l), op, Render(r));
  }

  /** Wherever the written form of a canonical tree stands, it spells that tree. */
  lemma RenderSpells(p: seq<Token>, e: Expr, s: seq<Token>)
    requires Canonical(e)
    ensures Spells(p + Render(e) + s, |p|, e)
  {
    AtInside(p, Render(e), s);
    WrittenSpells(p + Render(e) + s, |p|, e);
  }

  /** A token ends an expression at level `rank` when no loop at that level
      or a tighter one would take it as an operator. */
  predicate Stops(t: Token, rank: nat)
  {
    OperatorRank(t.kind) == 0 || OperatorRank(t.kind) > rank
  }

  /** The rule for level `rank`: `unary` at 0, then factor, term, comparison
      and equality. */
  function ParseAtRank(ts: seq<Token>, pos: nat, rank: nat): Step<Expr>
    requires WellFormed(ts) && pos < |ts| && rank <= 4
  {
    if rank == 0 then ParseUnary(ts, pos) else ParseBinary(ts, pos, rank)
  }

  // One step of each rule, as used by the round trip.

  lemma {:induction false} LiteralStep(ts: seq<Token>, pos: nat, v: Value)
    requires WellFormed(ts) && pos < |ts| && ts[pos] == LiteralToken(v)
    ensures ParseUnary(ts, pos) == Step(Success(Literal(v)), pos + 1)
  {
  }

  lemma {:induction false} GroupingStep(ts: seq<Token>, pos: nat, x: Expr, q: nat)
    requires WellFormed(ts) && pos < |ts| && ts[pos].kind == LeftParen
    requires pos + 1 < |ts| && ParseExpression(ts, pos + 1) == Step(Success(x), q)
    requires ts[q].kind == RightParen
    ensures ParseUnary(ts, pos) == Step(Success(Grouping(x)), q + 1)
  {
    assert ParseUnary(ts, pos) == ParsePrimary(ts, pos);
  }

  lemma {:induction false} UnaryStep(ts: seq<Token>, pos: nat, x: Expr, q: nat)
    requires WellFormed(ts) && pos < |ts| && (ts[pos].kind == Bang || ts[pos].kind == Minus)
    requires pos + 1 < |ts| && ParseUnary(ts, pos + 1) == Step(Success(x), q)
    ensures ParseUnary(ts, pos) == Step(Success(Unary(ts[pos], x)), q)
  {
  }

  lemma {:induction false} OperandStep(ts: seq<Token>, pos: nat, rank: nat)
    requires WellFormed(ts) && pos < |ts| && 1 <= rank <= 4
    ensures ParseOperand(ts, pos, rank) == ParseAtRank(ts, pos, rank - 1)
  {
  }

  /** A canonical tree never starts with the `output` keyword or the end of
      input, so its first token sends `statement` to the expression rule. */
  lemma {:induction false} FirstTokenOfExpression(e: Expr)
    requires Canonical(e)
    ensures Render(e)[0].kind != Output && Render(e)[0].kind != Eof
  {
    match e
    case Literal(_) =>
    case Grouping(_) =>
    case Unary(_, _) =>
    case Binary(l, _, _) =>
      FirstTokenOfExpression(l);
      assert Render(e)[0] == Render(l)[0];
  }

  /** Parsing a written canonical tree at a level it fits in gives the tree
      back and stops right after it. */
  lemma {:induction false} Full(ts: seq<Token>, pos: nat, e: Expr, rank: nat)
    requires WellFormed(ts) && At(ts, pos, Render(e)) && pos + |Render(e)| < |ts|
    requires Canonical(e) && Prec(e) <= rank <= 4
    requires Stops(ts[pos + |Render(e)|], rank)
    ensures ParseAtRank(ts, pos, rank) == Step(Success(e), pos + |Render(e)|)
    decreases e, rank, 2
  {
    hide Render, At, Canonical, Prec, ParseBinary, ParseRest, ParseOperand, ParseUnary, ParsePrimary, ParseExpression, WellFormed;
    if rank == 0 {
      Leaf(ts, pos, e);
    } else {
      Spine(ts, pos, e, rank);
      RestEnds(ts, rank, e, pos + |Render(e)|);
    }
  }

  /** A written tree at precedence 0 (a literal, a grouping or a unary
      node) is what `unary` returns. */
  lemma {:induction false} Leaf(ts: seq<Token>, pos: nat, e: Expr)
    requires WellFormed(ts) && At(ts, pos, Render(e)) && pos + |Render(e)| < |ts|
    requires Canonical(e) && Prec(e) == 0
    ensures ParseUnary(ts, pos) == Step(Success(e), pos + |Render(e)|)
    decreases e, 0, 1
  {
    hide At, ParseBinary, ParseRest, ParseOperand, ParseUnary, ParsePrimary, WellFormed;
    match e
    case Literal(v) =>
      AtFirst(ts, pos, Render(e));
      LiteralStep(ts, pos, v);
    case Grouping(x) =>
      AtBefore(ts, pos, [Token(LeftParen, NoPayload)] + Render(x), Token(RightParen, NoPayload));
      AtAfter(ts, pos, Token(LeftParen, NoPayload), Render(x));
      Full(ts, pos + 1, x, EqualityRank);
      GroupingStep(ts, pos, x, pos + 1 + |Render(x)|);
    case Unary(op, x) =>
      AtAfter(ts, pos, op, Render(x));
      Full(ts, pos + 1, x, 0);
      UnaryStep(ts, pos, x, pos + 1 + |Render(x)|);
  }

  /** The loop of level `rank` is entered with the whole tree as its left
      operand, provided the follower is not an operator of a tighter level. */
  lemma {:induction false} Spine(ts: seq<Token>, pos: nat, e: Expr, rank: nat)
    requires WellFormed(ts) && At(ts, pos, Render(e)) && pos + |Render(e)| < |ts|
    requires Canonical(e) && Prec(e) <= rank && 1 <= rank <= 4
    requires Stops(ts[pos + |Render(e)|], rank - 1)
    ensures ParseBinary(ts, pos, rank) == ParseRest(ts, rank, e, pos + |Render(e)|)
    decreases e, rank, 1
  {
    hide At, ParseBinary, ParseRest, ParseOperand, ParseAtRank, ParseUnary, ParsePrimary, ParseExpression, WellFormed;
    if Prec(e) < rank {
      Full(ts, pos, e, rank - 1);
      OperandStep(ts, pos, rank);
      BinaryStart(ts, pos, rank, e, pos + |Render(e)|);
    } else {
      SpineBinary(ts, pos, e.left, e.operator, e.right, rank);
    }
  }

  /** A tree whose operator belongs to level `rank` is the left operand
      written out, folded by the loop with the operator and the right
      operand. */
  lemma {:induction false} SpineBinary(ts: seq<Token>, pos: nat, l: Expr, op: Token, r: Expr, rank: nat)
    requires WellFormed(ts) && At(ts, pos, Render(l) + [op] + Render(r))
    requires pos + |Render(l)| + 1 + |Render(r)| < |ts|
    requires Canonical(l) && Canonical(r) && OperatorRank(op.kind) == rank && 1 <= rank <= 4
    requires Prec(l) <= rank && Prec(r) < rank
    requires Stops(ts[pos + |Render(l)| + 1 + |Render(r)|], rank - 1)
    ensures ParseBinary(ts, pos, rank) == ParseRest(ts, rank, Binary(l, op, r), pos + |Render(l)| + 1 + |Render(r)|)
    decreases Binary(l, op, r), rank, 0
  {
    hide Render, At, Canonical, Prec, ParseBinary, ParseRest, ParseOperand, ParseAtRank, ParseUnary, ParsePrimary, ParseExpression, WellFormed;
    var q := pos + |Render(l)|;
    AtAround(ts, pos, Render(l), op, Render(r));
    Spine(ts, pos, l, rank);
    Full(ts, q + 1, r, rank - 1);
    OperandStep(ts, q + 1, rank);
    RestTakes(ts, rank, l, q, r, q + 1 + |Render(r)|);
  }

  /** A written canonical tree followed by a token that is no binary
      operator parses back as an expression. */
  lemma {:induction false} ExpressionRoundTrip(ts: seq<Token>, pos: nat, e: Expr)
    requires WellFormed(ts) && At(ts, pos, Render(e)) && pos + |Render(e)| < |ts|
    requires Canonical(e) && OperatorRank(ts[pos + |Render(e)|].kind) == 0
    ensures ParseExpression(ts, pos) == Step(Success(e), pos + |Render(e)|)
  {
    Full(ts, pos, e, EqualityRank);
  }

  /** A written statement parses back to itself. */
  lemma {:induction false} StatementRoundTrip(ts: seq<Token>, pos: nat, s: Statements.Stmt)
    requires WellFormed(ts) && At(ts, pos, RenderStatement(s)) && pos + |RenderStatement(s)| < |ts|
    requires Canonical(Body(s))
    ensures ts[pos].kind != Eof
    ensures ParseStatement(ts, pos) == Step(Success(s), pos + |RenderStatement(s)|)
  {
    hide Render, At, Canonical, Prec, ParseExpression, WellFormed;
    var e := Body(s);
    FirstTokenOfExpression(e);
    AtFirst(ts, pos, RenderStatement(s));
    match s
    case Expression(_) =>
      AtBefore(ts, pos, Render(e), Token(SemiColon, NoPayload));
      AtFirst(ts, pos, Render(e));
      ExpressionRoundTrip(ts, pos, e);
    case Output(_) =>
      AtBefore(ts, pos, [Token(Output, NoPayload)] + Render(e), Token(SemiColon, NoPayload));
      AtAfter(ts, pos, Token(Output, NoPayload), Render(e));
      ExpressionRoundTrip(ts, pos + 1, e);
  }

  lemma {:induction false} CanonicalParts(ss: seq<Statements.Stmt>)
    requires CanonicalProgram(ss) && ss != []
    ensures Canonical(Body(ss[0])) && CanonicalProgram(ss[1..])
  {
    assert forall i :: 0 <= i < |ss[1..]| ==> ss[1..][i] == ss[i + 1];
  }

  /** The statements `ss` stand written one after another from `pos` to
      `end`, each holding a tree the grammar can build. */
  predicate WrittenFrom(ts: seq<Token>, pos: nat, ss: seq<Statements.Stmt>, end: nat)
    decreases |ss|
  {
    if ss == [] then pos == end
    else
      At(ts, pos, RenderStatement(ss[0])) && Canonical(Body(ss[0]))
      && WrittenFrom(ts, pos + |RenderStatement(ss[0])|, ss[1..], end)
  }

  /** Written statements are their first statement, then the rest. */
  lemma {:induction false} WrittenStep(ts: seq<Token>, pos: nat, ss: seq<Statements.Stmt>, end: nat)
    ensures ss == [] ==> (WrittenFrom(ts, pos, ss, end) <==> pos == end)
    ensures ss != [] ==> (WrittenFrom(ts, pos, ss, end) <==>
      At(ts, pos, RenderStatement(ss[0])) && Canonical(Body(ss[0]))
      && WrittenFrom(ts, pos + |RenderStatement(ss[0])|, ss[1..], end))
  {
  }

  lemma {:induction false} WrittenBound(ts: seq<Token>, pos: nat, ss: seq<Statements.Stmt>, end: nat)
    requires WrittenFrom(ts, pos, ss, end)
    ensures pos <= end
    decreases |ss|
  {
    hide *;
    WrittenStep(ts, pos, ss, end);
    if ss != [] {
      WrittenBound(ts, pos + |RenderStatement(ss[0])|, ss[1..], end);
    }
  }

  lemma {:induction false} RenderProgramEmpty()
    ensures RenderProgram([]) == []
  {
  }

  /** A written program is its first statement written out, then the rest. */
  lemma {:induction false} RenderProgramFirst(ss: seq<Statements.Stmt>)
    requires ss != []
    ensures RenderProgram(ss) == RenderStatement(ss[0]) + RenderProgram(ss[1..])
  {
  }

  /** The written form of a canonical program lays its statements out one
      after another. */
  lemma {:induction false} WrittenProgram(ts: seq<Token>, pos: nat, ss: seq<Statements.Stmt>, end: nat)
    requires At(ts, pos, RenderProgram(ss)) && CanonicalProgram(ss) && end == pos + |RenderProgram(ss)|
    ensures WrittenFrom(ts, pos, ss, end)
    decreases |ss|
  {
    hide *;
    WrittenStep(ts, pos, ss, end);
    if ss == [] {
      RenderProgramEmpty();
    } else {
      RenderProgramFirst(ss);
      AtSplit(ts, pos, RenderStatement(ss[0]), RenderProgram(ss[1..]));
      CanonicalParts(ss);
      WrittenProgram(ts, pos + |RenderStatement(ss[0])|, ss[1..], end);
    }
  }

  /** The first of the written statements parses back to itself, and its
      first token is not the end of input. */
  lemma {:induction false} FirstStatement(ts: seq<Token>, pos: nat, ss: seq<Statements.Stmt>, end: nat)
    requires WellFormed(ts) && WrittenFrom(ts, pos, ss, end) && ss != [] && end < |ts|
    ensures pos < |ts| && ts[pos].kind != Eof
    ensures ParseStatement(ts, pos) == Step(Success(ss[0]), pos + |RenderStatement(ss[0])|)
  {
    hide *;
    WrittenStep(ts, pos, ss, end);
    WrittenBound(ts, pos + |RenderStatement(ss[0])|, ss[1..], end);
    StatementRoundTrip(ts, pos, ss[0]);
  }

  /** `parse` takes a statement, then the rest of the program. */
  lemma {:induction false} ProgramTakes(ts: seq<Token>, pos: nat, s: Statements.Stmt, mid: nat, rest: seq<Statements.Stmt>, end: nat)
    requires WellFormed(ts) && pos < mid < |ts| && ts[pos].kind != Eof
    requires ParseStatement(ts, pos) == Step(Success(s), mid)
    requires ParseProgram(ts, mid) == Step(Success(rest), end)
    ensures ParseProgram(ts, pos) == Step(Success([s] + rest), end)
  {
  }

  /** `parse` stops at once on the end-of-input token. */
  lemma {:induction false} ProgramEnds(ts: seq<Token>, pos: nat)
    requires WellFormed(ts) && pos < |ts| && ts[pos].kind == Eof
    ensures ParseProgram(ts, pos) == Step(Success([]), pos)
  {
  }

  /** Statements written one after another and followed by the end of input
      parse back to the same statements, in order, stopping on the
      end-of-input token. */
  lemma {:induction false} ProgramRoundTrip(ts: seq<Token>, pos: nat, ss: seq<Statements.Stmt>, end: nat)
    requires WellFormed(ts) && WrittenFrom(ts, pos, ss, end)
    requires end < |ts| && ts[end].kind == Eof
    ensures ParseProgram(ts, pos) == Step(Success(ss), end)
    decreases |ss|, 1
  {
    hide *;
    WrittenStep(ts, pos, ss, end);
    if ss == [] {
      ProgramEnds(ts, pos);
    } else {
      NextStatement(ts, pos, ss, end);
    }
  }

  /** One turn of `parse` on a written program: its first statement, then
      the rest by induction. */
  lemma {:induction false} NextStatement(ts: seq<Token>, pos: nat, ss: seq<Statements.Stmt>, end: nat)
    requires WellFormed(ts) && WrittenFrom(ts, pos, ss, end) && ss != []
    requires end < |ts| && ts[end].kind == Eof
    ensures ParseProgram(ts, pos) == Step(Success(ss), end)
    decreases |ss|, 0
  {
    hide *;
    FirstStatement(ts, pos, ss, end);
    WrittenStep(ts, pos, ss, end);
    ProgramRoundTrip(ts, pos + |RenderStatement(ss[0])|, ss[1..], end);
    ProgramTakes(ts, pos, ss[0], pos + |RenderStatement(ss[0])|, ss[1..], end);
    assert [ss[0]] + ss[1..] == ss;
  }

  /** Parsing the written form of any program of canonical statements,
      ended by an end-of-input token, gives that program back. */
  lemma {:induction false} ParseInvertsRender(ss: seq<Statements.Stmt>)
    requires CanonicalProgram(ss)
    ensures var ts := RenderProgram(ss) + [Token(Eof, NoPayload)];
      ParseProgram(ts, 0) == Step(Success(ss), |RenderProgram(ss)|)
  {
    var ts := RenderProgram(ss) + [Token(Eof, NoPayload)];
    AtInside([], RenderProgram(ss), [Token(Eof, NoPayload)]);
    assert [] + RenderProgram(ss) + [Token(Eof, NoPayload)] == ts;
    WrittenProgram(ts, 0, ss, |RenderProgram(ss)|);
    ProgramRoundTrip(ts, 0, ss, |RenderProgram(ss)|);
  }
}
