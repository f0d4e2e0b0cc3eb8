/** The discrepancy in `expression_statement` (parser.py:40-43): the source
    builds its result with the statement base class, which takes no
    arguments, instead of the `Expression` statement class. */
module Findings {
  import opened Tokens
  import opened Options
  import opened Expressions
  import Statements
  import opened Grammar
  import opened RoundTrip

  /** As written, `expression_statement` fails with a TypeError exactly when
      the corrected rule succeeds; wherever it does not fail that way, the
      two agree, errors and cursor included. */
  lemma {:induction false} AsWrittenFailsExactlyOnSuccess(ts: seq<Token>, pos: nat)
    requires WellFormed(ts) && pos < |ts|
    ensures ExpressionStatementAsWritten(ts, pos).None? <==> ParseExpressionStatement(ts, pos).result.Success?
    ensures ExpressionStatementAsWritten(ts, pos).Some? ==>
      ExpressionStatementAsWritten(ts, pos).value == ParseExpressionStatement(ts, pos)
  {
  }

  /** The smallest program that shows it: `1 ;`. As written every
      expression statement raises; the corrected rule returns the statement. */
  lemma OneSemicolon()
    ensures var ts := [Token(Number, "1"), Token(SemiColon, NoPayload), Token(Eof, NoPayload)];
      ExpressionStatementAsWritten(ts, 0) == None &&
      ParseExpressionStatement(ts, 0) == Step(Success(Statements.Expression(Literal(LexedValue("1")))), 2)
  {
    var ts := [Token(Number, "1"), Token(SemiColon, NoPayload), Token(Eof, NoPayload)];
    var one := Literal(LexedValue("1"));
    AtInside([], [Token(Number, "1")], ts[1..]);
    assert [] + [Token(Number, "1")] + ts[1..] == ts;
    ExpressionRoundTrip(ts, 0, one);
    AsWrittenFailsExactlyOnSuccess(ts, 0);
  }
}
