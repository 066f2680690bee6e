# YieldExpression parsing, modelled in Dafny

This project models the `YieldExpression` production of Boa's JavaScript
parser. The production implements the YieldExpression rule of ECMA-262,
section 15.5 (Generator Function Definitions), including that rule's
"[no LineTerminator here]" restriction after `yield`.

In Boa the production is a small value, `YieldExpression { allow_in,
allow_await }`, built by `new`. Its `parse` works on a mutable token
cursor in four steps:

1. It consumes an unescaped `yield` keyword with `expect`.
2. It asks whether a line terminator precedes the next token. If one
   does, or the stream has ended, it returns a bare `yield`.
3. Otherwise it peeks at one token:
   - `*` is consumed, and the operand is parsed as a delegating yield;
   - a token from a fixed list of expression starts is left in place,
     and the operand parsed from it becomes a value yield;
   - any other token gives a bare `yield` and stays unread.
4. It never goes back.

The operand is always parsed by the assignment-expression production.
That parser receives the production's own `allow_in` and `allow_await`
unchanged, with `yield` allowed.

Files and modules:

- `ast.dfy` (`Ast`): keywords, punctuators and expression nodes. A yield
  node is `Yield(operand: Option<Node>, delegate: bool)`.
- `lexer.dfy` (`Lexer`): token kinds. Each token records whether a line
  terminator precedes it.
- `parser.dfy` (`Parser`): the parts every production shares. These are
  the error kinds and the `Step` result, which pairs a result with the
  cursor position the run ends at. The module also holds the
  assignment-expression context and the `Cursor` class, whose `pos`
  field advances. The assignment-expression parser itself is a parameter
  of type `AssignmentParser`: a function from a context, the tokens and a
  position to a `Step`. Every property holds for every such parser.
- `yield_expression.dfy` (`YieldParser`): the production. `Run` is a
  function of the tokens and the start position. `Parse` is the same
  production written step by step on a `Cursor`, and it is proved to
  agree with `Run`. The lemmas describe each alternative in terms of the
  tokens.
- `nested_yields.dfy` (`NestedYields`): yields nested inside yields.
  `Assignment` is a stand-in for the assignment-expression production. It
  sends a leading `yield` back to this production and has a
  nesting-depth budget. With identifiers as leaves, it is used to prove
  two things:
  - rendering a yield tree to tokens and parsing the tokens rebuilds the
    tree;
  - every tree the parser builds re-parses to itself.

The operand parser gets the production's own `allow_in` unchanged
(`yield.rs:77`, `yield.rs:114`). Only allow-yield is forced to `true`, as
in ECMA-262's `AssignmentExpression[?In, +Yield, ?Await]`.

The expression-start list is modelled exactly as written. It does not
include `super` or `import`, although ECMA-262 lets both begin an
AssignmentExpression. So in this model, `yield super.x` is a bare
`yield` with `super` left unread.

## Model

| member | source | states |
|---|---|---|
| `Parser.TokenAt` | boa_engine/src/syntax/parser/expression/assignment/yield.rs:73 | The token at a position exists exactly when the position is inside the stream, and then it is that token; past the end it is `None`. |
| `Parser.LineTerminatorBefore` | boa_engine/src/syntax/parser/expression/assignment/yield.rs:66-67 | Defined exactly when the position is inside the stream, and then reports whether a line terminator precedes that token; past the end it is `None`. |
| `Parser.ExpectAt` | boa_engine/src/syntax/parser/expression/assignment/yield.rs:60-64 | Succeeds exactly when the token at the position has the required kind, and returns it. A token of another kind gives `Expected(kind, found)`; past the end the error is `AbruptEnd`. |
| `Parser.Cursor.Expect` | boa_engine/src/syntax/parser/expression/assignment/yield.rs:60-64 | Returns what `ExpectAt` gives at the old position. It advances by one on success and leaves the cursor where it was on failure. |
| `Parser.Cursor.PeekIsLineTerminator` | boa_engine/src/syntax/parser/expression/assignment/yield.rs:66-67 | Reads without moving: `Some(b)` exactly when a token is `skip` ahead, with `b` whether a line terminator precedes it; `None` at the end. |
| `Parser.Cursor.Peek` | boa_engine/src/syntax/parser/expression/assignment/yield.rs:73 | Reads without moving: the token `skip` ahead when it exists, `None` exactly at the end. |
| `Parser.Cursor.Next` | boa_engine/src/syntax/parser/expression/assignment/yield.rs:76 | Returns the token at the old position and advances past it; at the end it returns `None` and does not move. |
| `Parser.Cursor.Run` | boa_engine/src/syntax/parser/expression/assignment/yield.rs:77-115 | Runs the assignment-expression parser from the cursor's old position (lines 77-78 and 114-115): its result is returned and the cursor ends where that run ends. |
| `YieldParser.YieldExpression.New` | boa_engine/src/syntax/parser/expression/assignment/yield.rs:39-48 | The captured flags are the ones the operand parser later receives: `Operand()`, which models the context built at `yield.rs:77` and `yield.rs:114`, is `AssignmentExpression(None, allowIn, true, allowAwait)`. |
| `YieldParser.IsExpressionStart` | boa_engine/src/syntax/parser/expression/assignment/yield.rs:81-113 | The fixed set of tokens that make `yield` take an operand. It never contains `*`, so the three alternatives are disjoint. |
| `YieldParser.YieldExpression.Run` | boa_engine/src/syntax/parser/expression/assignment/yield.rs:57-120 | A successful run always starts at an unescaped `yield` and builds a yield node. A delegating node always has an operand. A node without an operand consumes exactly one token. |
| `YieldParser.YieldExpression.Parse` | boa_engine/src/syntax/parser/expression/assignment/yield.rs:57-120 | Run on the cursor, the production returns what `Run` gives from the cursor's old position and leaves the cursor where `Run` says. |
| `YieldParser.WithOperand` | boa_engine/src/syntax/parser/expression/assignment/yield.rs:77-116 | Builds both operand-carrying nodes: the delegating one of lines 77-79 and the value one of lines 114-116. An operand success becomes `Yield(Some(e), delegate)`. An operand failure becomes the production's failure, unchanged. The end position is the operand's. |
| `YieldParser.MissingYieldFails` | boa_engine/src/syntax/parser/expression/assignment/yield.rs:60-64 | Without an unescaped `yield`, the run fails and consumes nothing. The error is `Expected(yield, found)`, or `AbruptEnd` at the end of the tokens. |
| `YieldParser.LineBreakEndsYield` | boa_engine/src/syntax/parser/expression/assignment/yield.rs:66-71 | A line terminator after `yield`, or the end of the tokens, gives `Yield(None, false)` and consumes only `yield`. |
| `YieldParser.StarDelegates` | boa_engine/src/syntax/parser/expression/assignment/yield.rs:75-80 | For `yield *` on one line, the operand parser runs from just after `*`. Its success gives `Yield(Some(e), true)` and its failure is returned unchanged. The run ends where the operand ends. |
| `YieldParser.ExpressionStartTakesOperand` | boa_engine/src/syntax/parser/expression/assignment/yield.rs:81-117 | An expression-start token on the same line is not consumed by the production. The operand parser runs from that token. Its success gives `Yield(Some(e), false)` and its failure is returned unchanged. |
| `YieldParser.OtherTokenLeftUnread` | boa_engine/src/syntax/parser/expression/assignment/yield.rs:118 | Any other token on the same line gives `Yield(None, false)` with no error. That token stays unread. |
| `YieldParser.BareYieldExactly` | boa_engine/src/syntax/parser/expression/assignment/yield.rs:66-118 | The result is a bare yield if and only if `yield` is present and is followed by a line break, the end, or a token that neither delegates nor starts an expression. A bare yield consumes one token. |
| `YieldParser.OnlyOperandContextMatters` | boa_engine/src/syntax/parser/expression/assignment/yield.rs:74-117 | The operand parser is consulted only with the production's own `allow_in` and `allow_await`, with yield allowed. Two operand parsers that agree in that context give identical runs. |
| `YieldParser.RunAdvances` | boa_engine/src/syntax/parser/expression/assignment/yield.rs:60-118 | If the operand parser never moves backwards, the production never does either. Any node consumes at least `yield`, and `yield*` consumes at least two tokens. |
| `NestedYields.RenderThenParse` | boa_engine/src/syntax/parser/expression/assignment/yield.rs:57-120 | Take any tree of nested yields with no operand-less delegation. Rendered to tokens and followed by a terminating token, it parses back to itself and the parse stops right after it. |
| `NestedYields.ParsedIsPrintable` | boa_engine/src/syntax/parser/expression/assignment/yield.rs:70-118 | Every tree built through nested yield parsing has no `Yield(None, true)` at any depth. It stays within the nesting budget and consumes at least one token. |
| `NestedYields.ParseRenderParse` | boa_engine/src/syntax/parser/expression/assignment/yield.rs:57-120 | Round trip: a parsed tree, rendered again and re-parsed, gives a structurally identical tree. |
| `NestedYields.AssignmentAdvances` | boa_engine/src/syntax/parser/expression/assignment/yield.rs:76-78 | If the leaf parser never moves the cursor backwards, the nested stand-in never does either, at any depth: `Advances(leaf) ==> Advances(Assignment(depth, leaf))`. |

## Left out

- The profiler timer (`yield.rs:58`) is left out: it only traces and does not affect the result.
- The `Interner` and the byte source `R: Read` are left out. String interning and reading bytes belong to the lexer. Tokens are an abstract sequence, and names are symbols (`Sym`).
- The lexer is left out, including the lexing errors that `expect` (`yield.rs:60`), `peek_is_line_terminator` (`yield.rs:67`), `peek` (`yield.rs:73`) and `next` (`yield.rs:76`) can return through `?`. Line terminators are a flag on the following token.
- The cursor's source file is not part of this model. `Cursor.Expect` consumes a token only when its kind matches, so a failed `expect` leaves the position unchanged. The real cursor's position after a failed `expect` is not modelled.
- The internals of the assignment-expression production are not part of this model. The production takes that parser as a parameter, and nothing is assumed about how many tokens it consumes. `NestedYields.Assignment` is a stand-in used only for the nesting and round-trip properties.
- The `expect("token disappeared")` panic (`yield.rs:76`) is not modelled as behaviour. `Parse` asserts that `Next` returns a token there, and the verifier proves it.
- The `AbruptEnd` result after the peek (`yield.rs:73`) is kept in `Run` and `Parse`. In this cursor model the line-terminator query and the peek always agree, so that path cannot be reached, and no property is stated about it.
- Diagnostic labels such as "yield expression", and token spans, are left out. Only the error kind is kept.
- Node kinds other than yield are left out. Operands are `Identifier` or an opaque `Other`.
