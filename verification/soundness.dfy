/** What the grammar functions guarantee about every token sequence: a
    success returns a tree the grammar can build, written with exactly the
    tokens consumed; a failure carries the token the cursor stopped on. */
module Soundness {
  import opened Tokens
  import opened Expressions
  import Statements
  import opened Printing
  import opened Grammar

  /** What every expression rule guarantees: the cursor stays on the tokens;
      a success returns a canonical tree at precedence `rank` or tighter,
      and the tokens it consumed are exactly a spelling of that tree; a
      failure carries the token the cursor stopped on. */
  predicate Sound(ts: seq<Token>, pos: nat, s: Step<Expr>, rank: nat)
  {
    pos <= s.cursor < |ts| &&
    match s.result
    case Success(e) => Canonical(e) && Prec(e) <= rank && s.cursor == pos + |Render(e)| && Spells(ts, pos, e)
    case Failure(err) => err.token == ts[s.cursor]
  }

  lemma {:induction false} ExpressionSound(ts: seq<Token>, pos: nat)
    requires WellFormed(ts) && pos < |ts|
    ensures Sound(ts, pos, ParseExpression(ts, pos), EqualityRank)
    decreases |ts| - pos, 10
  {
    BinarySound(ts, pos, EqualityRank);
  }

  lemma {:induction false} BinarySound(ts: seq<Token>, pos: nat, rank: nat)
    requires WellFormed(ts) && pos < |ts| && 1 <= rank <= 4
    ensures Sound(ts, pos, ParseBinary(ts, pos, rank), rank)
    decreases |ts| - pos, 2 * rank + 1
  {
    var left := ParseOperand(ts, pos, rank);
    OperandSound(ts, pos, rank);
    if left.result.Success? {
      RestSound(ts, rank, pos, left.result.value, left.cursor);
    }
  }

  lemma {:induction false} OperandSound(ts: seq<Token>, pos: nat, rank: nat)
    requires WellFormed(ts) && pos < |ts| && 1 <= rank <= 4
    ensures Sound(ts, pos, ParseOperand(ts, pos, rank), rank - 1)
    decreases |ts| - pos, 2 * rank
  {
    if rank == FactorRank {
      UnarySound(ts, pos);
    } else {
      BinarySound(ts, pos, rank - 1);
    }
  }

  /** The loop of a binary level keeps the tree it folds canonical and at
      its level; when the tokens from `start` up to `pos` spell the tree
      folded so far, a success has consumed exactly a spelling of the final
      tree from `start` on. */
  lemma {:induction false} RestSound(ts: seq<Token>, rank: nat, start: nat, acc: Expr, pos: nat)
    requires WellFormed(ts) && pos < |ts| && 1 <= rank <= 4
    requires Canonical(acc) && Prec(acc) <= rank
    requires Spells(ts, start, acc) && start + |Render(acc)| == pos
    ensures var s := ParseRest(ts, rank, acc, pos);
      (s.result.Success? ==>
        Canonical(s.result.value) && Prec(s.result.value) <= rank
        && s.cursor == start + |Render(s.result.value)| && Spells(ts, start, s.result.value))
      && (s.result.Failure? ==> s.result.error.token == ts[s.cursor])
    decreases |ts| - pos, 2 * rank + 1
  {
    hide ParseRest, ParseOperand, ParseBinary, ParseUnary, ParsePrimary, ParseExpression, Spells, Canonical, Render, Prec;
    if OperatorRank(ts[pos].kind) == rank {
      var right := ParseOperand(ts, pos + 1, rank);
      OperandSound(ts, pos + 1, rank);
      if right.result.Success? {
        RestTakes(ts, rank, acc, pos, right.result.value, right.cursor);
        FoldSound(ts, start, acc, ts[pos], right.result.value, rank);
        RestSound(ts, rank, start, Binary(acc, ts[pos], right.result.value), right.cursor);
      } else {
        RestFails(ts, rank, acc, pos);
      }
    } else {
      RestEnds(ts, rank, acc, pos);
    }
  }

  /** Folding an operator and its right operand into the tree built so far
      keeps it canonical and at the operator's level, and the spellings of
      the two operands around the operator spell the new node. */
  lemma FoldSound(ts: seq<Token>, start: nat, l: Expr, op: Token, r: Expr, rank: nat)
    requires 1 <= rank <= 4 && OperatorRank(op.kind) == rank
    requires Canonical(l) && Prec(l) <= rank && Canonical(r) && Prec(r) <= rank - 1
    requires Spells(ts, start, l) && start + |Render(l)| < |ts| && ts[start + |Render(l)|] == op
    requires Spells(ts, start + |Render(l)| + 1, r)
    ensures Canonical(Binary(l, op, r)) && Prec(Binary(l, op, r)) <= rank
    ensures Spells(ts, start, Binary(l, op, r))
    ensures |Render(Binary(l, op, r))| == |Render(l)| + 1 + |Render(r)|
  {
  }

  lemma {:induction false} UnarySound(ts: seq<Token>, pos: nat)
    requires WellFormed(ts) && pos < |ts|
    ensures Sound(ts, pos, ParseUnary(ts, pos), 0)
    decreases |ts| - pos, 1
  {
    if ts[pos].kind == Bang || ts[pos].kind == Minus {
      UnarySound(ts, pos + 1);
    } else {
      PrimarySound(ts, pos);
    }
  }

  lemma {:induction false} PrimarySound(ts: seq<Token>, pos: nat)
    requires WellFormed(ts) && pos < |ts|
    ensures Sound(ts, pos, ParsePrimary(ts, pos), 0)
    decreases |ts| - pos, 0
  {
    if ts[pos].kind == LeftParen {
      ExpressionSound(ts, pos + 1);
    }
  }

  /** What every statement rule guarantees: a success returns a statement
      whose expression the grammar can build, and the tokens it consumed
      are exactly a spelling of that statement, the last of them a `;`; a
      failure carries the token the cursor stopped on. */
  predicate StatementSound(ts: seq<Token>, pos: nat, s: Step<Statements.Stmt>)
  {
    pos <= s.cursor < |ts| &&
    match s.result
    case Success(st) =>
      Canonical(Body(st)) && s.cursor == pos + |RenderStatement(st)| && ts[s.cursor - 1].kind == SemiColon
      && SpellsStatement(ts, pos, st)
    case Failure(err) => err.token == ts[s.cursor]
  }

  lemma {:induction false} StatementIsSound(ts: seq<Token>, pos: nat)
    requires WellFormed(ts) && pos < |ts|
    ensures StatementSound(ts, pos, ParseStatement(ts, pos))
    ensures ts[pos].kind == Output && ParseStatement(ts, pos).result.Success? ==>
      ParseStatement(ts, pos).result.value.Output?
    ensures ts[pos].kind != Output && ParseStatement(ts, pos).result.Success? ==>
      ParseStatement(ts, pos).result.value.Expression?
  {
    hide ParseStatement, ParseOutputStatement, ParseExpressionStatement, ParseExpression, ParseBinary, Spells, Canonical, Render;
    var start := if ts[pos].kind == Output then pos + 1 else pos;
    ExpressionSound(ts, start);
    var x := ParseExpression(ts, start);
    if x.result.Success? {
      StatementTerminator(ts, pos, x.result.value, x.cursor);
    } else {
      StatementExpressionFails(ts, pos);
    }
  }

  /** A successful parse returns canonical statements, and the tokens from
      `pos` up to the end-of-input token it stopped on are exactly a
      spelling of them, one after another; a failed one carries the token
      it stopped on. */
  lemma {:induction false} ProgramSound(ts: seq<Token>, pos: nat)
    requires WellFormed(ts) && pos < |ts|
    ensures var s := ParseProgram(ts, pos);
      (s.result.Success? ==>
        CanonicalProgram(s.result.value) && s.cursor == pos + |RenderProgram(s.result.value)|
        && SpellsProgram(ts, pos, s.result.value))
      && (s.result.Failure? ==> s.result.error.token == ts[s.cursor])
    decreases |ts| - pos
  {
    hide ParseStatement, ParseOutputStatement, ParseExpressionStatement, ParseExpression,
      SpellsProgram, SpellsStatement, RenderProgram, RenderStatement, CanonicalProgram, Spells, Render, Canonical;
    if ts[pos].kind == Eof {
      SpellsNothing(ts, pos);
    } else {
      var first := ParseStatement(ts, pos);
      StatementIsSound(ts, pos);
      if first.result.Success? {
        ProgramSound(ts, first.cursor);
        var rest := ParseProgram(ts, first.cursor);
        if rest.result.Success? {
          SpellsCons(ts, pos, first.result.value, rest.result.value);
        }
      }
    }
  }

  /** No statements are spelled by no tokens. */
  lemma SpellsNothing(ts: seq<Token>, pos: nat)
    ensures SpellsProgram(ts, pos, []) && CanonicalProgram([]) && |RenderProgram([])| == 0
  {
  }

  /** A statement spelled at `pos`, followed by a spelling of more
      statements, spells the program made of them all. */
  lemma SpellsCons(ts: seq<Token>, pos: nat, st: Statements.Stmt, rest: seq<Statements.Stmt>)
    requires SpellsStatement(ts, pos, st) && Canonical(Body(st))
    requires SpellsProgram(ts, pos + |RenderStatement(st)|, rest) && CanonicalProgram(rest)
    ensures SpellsProgram(ts, pos, [st] + rest) && CanonicalProgram([st] + rest)
    ensures |RenderProgram([st] + rest)| == |RenderStatement(st)| + |RenderProgram(rest)|
  {
    var ss := [st] + rest;
    assert ss[0] == st && ss[1..] == rest;
  }

  /** An error in the leading operand is the error of the whole expression,
      with the cursor where it happened: no level catches it or goes on. */
  lemma {:induction false} LeadingFailure(ts: seq<Token>, pos: nat)
    requires WellFormed(ts) && pos < |ts| && ParseUnary(ts, pos).result.Failure?
    ensures ParseExpression(ts, pos) == ParseUnary(ts, pos)
  {
    OperandFailure(ts, pos, FactorRank);
    OperandFailure(ts, pos, TermRank);
    OperandFailure(ts, pos, ComparisonRank);
    OperandFailure(ts, pos, EqualityRank);
  }
}
