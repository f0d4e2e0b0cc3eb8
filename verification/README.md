# A verified model of the recursive-descent parser

This project models the parser of a small scripting language, written in Dafny:

- The `Parser` class (`parser.py`) turns a token sequence into a list of statements.
- The expression tree it builds is the six node classes of `trees/expr.py`.
- The statement tree is the two node classes the AST generator declares (`astgenerator.py:50-53`).

The grammar is:

```
program    -> statement* EOF
statement  -> "output" expression ";" | expression ";"
expression -> equality
equality   -> comparison ( ( "!=" | "==" ) comparison )*
comparison -> term ( ( ">" | ">=" | "<" | "<=" ) term )*
term       -> factor ( ( "+" | "-" ) factor )*
factor     -> unary ( ( "/" | "*" ) unary )*
unary      -> ( "!" | "-" ) unary | primary
primary    -> "false" | "true" | "null" | NUMBER | STRING | "(" expression ")"
```

The model has three layers:

- **`Grammar`** restates each grammar rule as a pure function of the token sequence and a cursor position. Each function returns the outcome and where the cursor is left. A parse error is a `Failure` carrying the offending token and the message, where the source raises `ParseException`.
- **`Parsing.Parser`** is the class itself: a constant token sequence, a mutable cursor `current`, and methods that mirror the source one for one, loops included.
  - Every grammar method is proved to compute exactly what its `Grammar` rule computes and to leave the cursor where that rule says.
  - The error sink `oof.error` is modelled as a ghost log, `reported`. Every method is proved to add exactly its own error to it, or nothing.
- **`Soundness`** and **`RoundTrip`** prove what the grammar guarantees:
  - **Soundness**: on any well-formed token sequence, a successful parse returns a tree the grammar can build (`Canonical`), and the tokens it consumed spell that tree (`Printing.Spells`): they are its written form, except that keyword literals and parentheses are matched by kind, and a literal value may come from a STRING token as well as a NUMBER token carrying it.
  - **Round trip**: parsing the tokens `Printing.Render` writes for a tree gives the tree back. For whole programs, parsing the written form of any list of canonical statements, followed by the end-of-input token, returns that list.
  - Together these fix left associativity, the precedence of the four binary levels, right-nested prefix operators and grouping.

`Examples` works through concrete token sequences. `Findings` records a discrepancy in `expression_statement` (below).

`Expressions` and `Statements` model the node classes as datatypes, and double dispatch (`accept`) as a function over a record of visitor methods. `NodeSchema` holds the naming rule the generator uses: a class `Name` is visited by `visit_name`.

The file `trees/statement.py` is produced by the generator and is not part of this model. Its shape is taken from `astgenerator.py`.

## Model

| member | source | states |
|---|---|---|
| NodeSchema.LowerChar | astgenerator.py:31 | An upper-case ASCII letter becomes the lower-case letter at the same place in the alphabet; every other character is kept; no upper-case letter is left. |
| NodeSchema.MethodNames | astgenerator.py:34-39 | The generated visitor has one method per declared type, in declaration order, the i-th named `visit_` plus the lower-cased i-th type name. |
| Expressions.Fields | trees/expr.py:23-67 | Every node class is declared in the schema, and a node stores exactly as many constructor arguments as its class declares fields. |
| Expressions.Accept | trees/expr.py:28-67 | `accept` calls the visitor method named `visit_` plus the lower-cased class name, with the node itself, and returns that method's result unchanged; every node class has such a method. |
| Expressions.BuildFromFields | trees/expr.py:23-67 | Rebuilding a node from its class name and its stored arguments gives back the same node. |
| Expressions.FieldsOfBuild | trees/expr.py:23-67 | A constructor stores its arguments verbatim and under its own class: the fields of a freshly built node are the arguments it was given. |
| Expressions.ClassMethodNames | trees/expr.py:8-18 | The naming rule gives each of the six classes the method name the generated visitor declares for it. |
| Expressions.SchemaMethodNames | trees/expr.py:7-19 | The visitor methods are `visit_assign`, `visit_binary`, `visit_grouping`, `visit_literal`, `visit_unary` and `visit_variable`, in that order. |
| Expressions.MethodNamesDistinct | trees/expr.py:7-19 | There are six node classes and their visitor methods have pairwise distinct names. |
| Expressions.OneMethodPerClass | trees/expr.py:7-19 | A visitor has a method of a given name if and only if that name belongs to one of the six node classes. |
| Expressions.DefaultVisitor | trees/expr.py:7-19 | With the base visitor, whose methods all `pass`, `accept` returns `None` for every node. |
| Statements.Accept | astgenerator.py:24-32 | For the two statement classes, `accept` calls `visit_expression` or `visit_output`, the method named after the class, with the statement, and returns its result unchanged. |
| Statements.OneMethodPerClass | astgenerator.py:34-39 | The statement visitor has a method of a given name if and only if the naming rule gives that name to one of the two statement classes. |
| Grammar.OperatorsOfRank | parser.py:48-86 | The token list each binary level passes to `match` holds exactly the operators of that level: `!=` `==`, then `>` `>=` `<` `<=`, then `+` `-`, then `/` `*`. |
| Grammar.CheckAt | parser.py:116-121 | `check` accepts only a token of an expected kind, and a token it accepts is not the last: taking it keeps the cursor on the tokens. |
| Grammar.ConsumeAt | parser.py:123-126 | `consume` succeeds exactly when `check` accepts the current token; the cursor stays on the tokens. |
| Grammar.ParseExpression | parser.py:45-46 | `expression` never moves the cursor backwards or off the tokens, and consumes at least one token when it succeeds. |
| Grammar.ParseBinary | parser.py:48-86 | The same cursor bounds for the four binary levels. |
| Grammar.ParseRest | parser.py:51-54 | The loop of a binary level (the same at parser.py:61-64, 71-74 and 81-84) never moves the cursor back or off the tokens, and a success stops on a token that is none of the level's operators. |
| Grammar.ParseUnary | parser.py:88-93 | The same cursor bounds for `unary`. |
| Grammar.ParsePrimary | parser.py:95-108 | The same cursor bounds for `primary`. |
| Grammar.ParseStatement | parser.py:29-33 | The same cursor bounds for `statement`. |
| Grammar.ParseOutputStatement | parser.py:35-38 | The same cursor bounds for `output_statement`. |
| Grammar.ParseExpressionStatement | parser.py:40-43 | Corrected `expression_statement`: cursor bounds as above, and a success is an `Expression` statement. |
| Grammar.ExpressionStatementAsWritten | parser.py:40-43 | The source's `expression_statement` never returns a statement: it either fails with a parse error or raises the TypeError of the statement base class. |
| Grammar.StatementTerminator | parser.py:35-43 | After the expression of a statement, a `;` ends it as an `Output` statement after `output` and as an `Expression` statement otherwise. Any other token fails it, on that token, with "Expect ';' after value." after `output` and "Expect ';' after expression." otherwise. |
| Grammar.StatementExpressionFails | parser.py:35-43 | A statement whose expression fails fails with the same error and cursor. |
| Grammar.ParseProgram | parser.py:21-27 | `parse` stays on the tokens, and a success stops on an end-of-input token. |
| Grammar.SyncPoint | parser.py:128-150 | Where `synchronize` stops: at or after the position it starts from, on an end-of-input or statement-boundary token, with no such token before it. |
| Parsing.Parser.constructor | parser.py:17-19 | A new parser holds the given tokens, has its cursor at 0, and has reported nothing. |
| Parsing.Parser.Parse | parser.py:21-27 | The loop returns what `Grammar.ParseProgram` returns from the old cursor and stops where it stops; it reports exactly the error it fails with. |
| Parsing.Parser.Statement | parser.py:29-33 | Result and new cursor are those of `Grammar.ParseStatement`; only its own error is reported. |
| Parsing.Parser.OutputStatement | parser.py:35-38 | Result and new cursor are those of `Grammar.ParseOutputStatement`; only its own error is reported. |
| Parsing.Parser.ExpressionStatement | parser.py:40-43 | Corrected: result and new cursor are those of `Grammar.ParseExpressionStatement`; only its own error is reported. |
| Parsing.Parser.Expression | parser.py:45-46 | Result and new cursor are those of `Grammar.ParseExpression`. |
| Parsing.Parser.Equality | parser.py:48-56 | The left-folding loop computes `Grammar.ParseBinary` at the equality level, cursor included. |
| Parsing.Parser.Comparison | parser.py:58-66 | The left-folding loop computes `Grammar.ParseBinary` at the comparison level, cursor included. |
| Parsing.Parser.Term | parser.py:68-76 | The left-folding loop computes `Grammar.ParseBinary` at the term level, cursor included. |
| Parsing.Parser.Factor | parser.py:78-86 | The left-folding loop computes `Grammar.ParseBinary` at the factor level, cursor included. |
| Parsing.Parser.Unary | parser.py:88-93 | Result and new cursor are those of `Grammar.ParseUnary`. |
| Parsing.Parser.Primary | parser.py:95-108 | Result and new cursor are those of `Grammar.ParsePrimary`; an unexpected token is reported once. |
| Parsing.Parser.Match | parser.py:110-114 | The result is true if and only if the current token's kind is expected; the cursor moves by one exactly then. |
| Parsing.Parser.Check | parser.py:116-121 | The result is true if and only if the current token is expected and is not end of input; nothing changes. |
| Parsing.Parser.Consume | parser.py:123-126 | Success returns the current token and advances past it. Failure reports and returns the current token with the message, leaving the cursor where it was. |
| Parsing.Parser.Synchronize | parser.py:128-150 | Advances at least one token and stops at `Grammar.SyncPoint` of the next position: the first boundary or end-of-input token, not taken. |
| Parsing.Parser.Advance | parser.py:152-154 | The cursor moves by one and the token passed is returned. |
| Parsing.Parser.Previous | parser.py:159-160 | The token before the cursor; at cursor 0, Python's index -1 gives the last token, the end of input. |
| Parsing.Parser.Peek | parser.py:156-157 | `peek` returns the token under the cursor without moving it; a token other than end of input is followed by another, so `advance` past it stays on the tokens. |
| Parsing.Parser.AtEnd | parser.py:162-163 | When not at the end, another token follows the current one. |
| Parsing.Parser.Error | parser.py:165-167 | Returns the exception for the token and message and appends it to the reported errors. |
| Soundness.ExpressionSound | parser.py:45-46 | On any well-formed tokens, `expression` either succeeds with a canonical tree, and the tokens it consumed spell that tree, or fails carrying the token it stopped on. |
| Soundness.BinarySound | parser.py:48-86 | The same for every binary level: the consumed tokens spell the tree, which sits at that level or tighter. |
| Soundness.OperandSound | parser.py:49 | The operand of a binary level is a canonical tree of a strictly tighter level, spelled by the tokens consumed. |
| Soundness.RestSound | parser.py:51-54 | The operator loop keeps the folded tree canonical and at its level. When the tokens before the loop spell the tree folded so far, the tokens up to where the loop stops spell the final tree, every operator and operand taken included. |
| Soundness.UnarySound | parser.py:88-93 | `unary` returns a canonical tree of precedence 0 spelled by the tokens consumed, prefix operators included, or fails on the token it stopped on. |
| Soundness.PrimarySound | parser.py:95-108 | The same for `primary`: a keyword literal comes from its keyword, a NUMBER or STRING literal from a token carrying that value, and a group from `(`, a spelling of its expression, and `)`. |
| Soundness.StatementIsSound | parser.py:29-43 | A successful statement holds a canonical tree, and the tokens consumed spell it: `output` when it is an output statement, then its expression, then `;`. It is an output statement exactly when it starts with `output`. A failure carries the token it stopped on. |
| Soundness.ProgramSound | parser.py:21-27 | A successful parse returns canonical statements, and the tokens up to the end of input spell them one after another; a failure carries the token it stopped on. |
| Soundness.LeadingFailure | parser.py:48-93 | An error in the leading `unary` is the error of the whole expression, with the cursor where it happened. |
| RoundTrip.FirstTokenOfExpression | parser.py:29-33 | No canonical tree starts with `output` or end of input, so `statement` sends a written expression statement to `expression_statement`. |
| RoundTrip.WrittenSpells | parser.py:45-108 | The tokens the printer writes for a canonical tree spell it, so the spelling soundness is stated with agrees with the printer. |
| RoundTrip.RenderSpells | parser.py:45-108 | Wherever the written form of a canonical tree stands in a token sequence, it spells that tree. |
| RoundTrip.Full | parser.py:48-108 | A written canonical tree parses back to itself at every level it fits in, stopping right after it, when the next token is no operator of a tighter level. |
| RoundTrip.ExpressionRoundTrip | parser.py:45-46 | A written canonical tree followed by a token that is no binary operator parses back to itself as an expression. |
| RoundTrip.StatementRoundTrip | parser.py:29-43 | A written statement parses back to itself, consuming its written form exactly. |
| RoundTrip.ProgramRoundTrip | parser.py:21-27 | Statements written one after another and followed by end of input parse back to the same statements, in order, stopping on the end-of-input token. |
| RoundTrip.ParseInvertsRender | parser.py:21-108 | For every list of canonical statements, parsing its written form plus an end-of-input token returns that list. |
| Examples.OneStatement | parser.py:21-43 | A written canonical expression followed by `;` and end of input parses to the one-statement program holding it. |
| Examples.LeftAssociative | parser.py:68-76 | `1 - 2 - 3 ;` parses to `(1 - 2) - 3`. |
| Examples.Precedence | parser.py:68-86 | `1 + 2 * 3 ;` parses to `1 + (2 * 3)`. |
| Examples.NestedPrefix | parser.py:88-93 | `- - 1 ;` parses to `-(-1)`. |
| Examples.Parenthesised | parser.py:104-107 | `( 1 + 2 ) * 3 ;` parses to a product whose left operand is a `Grouping` node. |
| Examples.OutputStatement | parser.py:35-38 | `output true ;` parses to one output statement. |
| Examples.MissingSemicolon | parser.py:40-43 | `1` followed by end of input fails on the end-of-input token with "Expect ';' after expression.". |
| Examples.Unclosed | parser.py:104-107 | A group whose expression is followed by anything but `)` fails on that token with "Expect ')' after expression.". |
| Examples.UnclosedExpression | parser.py:104-107 | `( 1 + 2 ;` fails as an expression on the `;` at position 4. |
| Examples.UnclosedGroup | parser.py:104-107 | The program `( 1 + 2 ;` fails on the `;` with "Expect ')' after expression.". |
| Examples.UnexpectedToken | parser.py:108 | `;` alone fails with the unexpected-token error, with the cursor not moved. |
| Findings.AsWrittenFailsExactlyOnSuccess | parser.py:40-43 | The source's `expression_statement` raises exactly when the corrected rule succeeds. Otherwise both return the same error and cursor. |
| Findings.OneSemicolon | parser.py:43 | On `1 ;` the source raises, while the corrected rule returns the statement `Expression(Literal 1)` with the cursor after the `;`. |

## Left out

- The lexer and the `token` and `tokens` modules are not part of this model.
  - A token is a kind plus the lexer's literal value, kept as an uninterpreted string.
  - The lexeme and the line number are not modelled; the parser never reads them.
  - The lexer's guarantee that the sequence ends with an end-of-input token is the precondition `WellFormed`.
- `oof.error` prints a message. Here it is the ghost log `reported` of (token, message) pairs; the text formatting and the output are not modelled.
- The unexpected-token message is built from the token's string form. It is the tag `UnexpectedToken` here, because the token's `__str__` is in the token module.
- `ParseException` is the `ParseError` datatype. A raise is a `Failure` result that every caller returns at once, as the uncaught exception would unwind. No rule in the source catches it.
- Python's `False`, `True`, `None`, and the numbers and strings in `Literal` nodes are the `Value` datatype. Number and string values stay the lexer's literal string.
- The `value` field of `Literal` is called `literal` in the model: Dafny needs one type per destructor name, and `Assign.value` is an expression.
- The base `Expr.accept` (trees/expr.py:20-21) returns `None`. It is not modelled because the base class is never instantiated; only the six subclasses are.
- NodeSchema.LowerChar lower-cases ASCII letters only, where Python's `str.lower` (astgenerator.py:31, 37) is Unicode-aware. That is enough here because every declared class name is ASCII.
- Visitors are records of the six (or two) methods. Python's attribute lookup is modelled only for those names (`VisitorMethod`), and a visitor object with extra methods is not modelled.
- The generator's file writing (`define_ast`, `define_type`, `define_visitor`, and the command line) is I/O. What the generated code looks like is modelled instead: fields in declaration order, and one `visit_` method per class named by the lower-cased class name.
- Parsing.Parser.Synchronize requires the cursor not to be on the end-of-input token. There the source's unconditional `advance` would move past the last token and the next `peek` would fail. No caller in the source invokes `synchronize`.
- Parsing.Parser.Match requires that the end-of-input kind is not among the expected kinds when it matches. `advance` has no guard of its own, and every call in the source passes lists without the end-of-input kind.
- Parsing.Parser.Advance requires the cursor not to be on the end-of-input token, for the same reason.
- RoundTrip.ParseInvertsRender covers every tree the grammar can build. The printer writes number and string literal values as NUMBER tokens, so the round trip goes through NUMBER tokens only. A STRING token is covered by soundness instead (`Soundness.PrimarySound`: the token spells a literal carrying its value) and by `Parser.Primary`'s contract, not by a round trip.
- `Assign` and `Variable` nodes are modelled with their visitor, but no rule of this parser builds them, so `Canonical` excludes them.

## Findings

| source | as written | input that shows it | evidently intended | confidence | as-written member | corrected member |
|---|---|---|---|---|---|---|
| parser.py:43 | `expression_statement` builds its result with `trees.statement.Expr(expr)`. The generator names the statement base class `Expr` and gives it no constructor taking arguments (astgenerator.py:12-16). Every expression statement that parses therefore raises a TypeError. | the tokens `1 ;` followed by end of input | build the `Expression` statement class declared for this rule (astgenerator.py:51), as `output_statement` builds `Output` | not executed | Grammar.ExpressionStatementAsWritten, with Findings.OneSemicolon and Findings.AsWrittenFailsExactlyOnSuccess | Grammar.ParseExpressionStatement and Parsing.Parser.ExpressionStatement, with RoundTrip.StatementRoundTrip |
