/** The tokens the parser consumes. The lexer that produces them is not
    part of this model; only the shape of its output is. */
module Lexer {
  import Ast

  /** The kind of a token. A keyword carries whether it was written with
      a Unicode escape (as in `yi\u0065ld`), which `expect` compares and
      the lookahead of the yield production ignores. */
  datatype TokenKind =
    | BooleanLiteral(truth: bool)
    | Identifier(name: Ast.Sym)
    | Keyword(keyword: Ast.Keyword, escaped: bool)
    | NullLiteral
    | NumericLiteral(number: int)
    | Punctuator(punctuator: Ast.Punctuator)
    | RegularExpressionLiteral(body: Ast.Sym, flags: Ast.Sym)
    | StringLiteral(text: Ast.Sym)
    | TemplateMiddle(cooked: Ast.Sym)
    | TemplateNoSubstitution(cooked: Ast.Sym)

  /** A token together with whether a line terminator occurs in the
      white space before it: the one fact the cursor's line-terminator
      query reports. */
  datatype Token = Token(kind: TokenKind, newlineBefore: bool)
}
