/** Parser infrastructure every production shares: the error kinds, the
    result of one production run, the context flags of the
    assignment-expression production, and the token cursor. */
module Parser {
  import opened Ast
  import opened Lexer

  /** The failure kinds a production reports. Diagnostic labels and
      source spans are not modelled. */
  datatype ParseError =
    | AbruptEnd                                        // the tokens ran out
    | Expected(expected: TokenKind, found: TokenKind)  // a specific token was required
    | Unexpected(found: TokenKind)                     // no alternative begins with this token
    | General                                          // any other failure a sub-production reports

  datatype Result<+T> = Ok(value: T) | Err(error: ParseError)

  /** One run of a production over a token sequence: what it returned and
      where it left the cursor. */
  datatype Step = Step(result: Result<Node>, next: nat)

  /** The assignment-expression production with its context: an optional
      name for anonymous functions, and the three grammar flags. */
  datatype AssignmentExpression =
    AssignmentExpression(name: Option<Sym>, allowIn: bool, allowYield: bool, allowAwait: bool)

  /** How the assignment-expression production runs from a position: its
      internals are not part of this model, so every property below holds
      for every such parser. */
  type AssignmentParser = (AssignmentExpression, seq<Token>, nat) -> Step

  /** A parser that never moves the cursor backwards. */
  ghost predicate Advances(parse: AssignmentParser)
  {
    forall p: AssignmentExpression, tokens: seq<Token>, pos: nat :: pos <= parse(p, tokens, pos).next
  }

  /** The token `i` positions into the stream, or `None` past its end. */
  function TokenAt(tokens: seq<Token>, i: nat): (t: Option<Token>)
    ensures t.Some? <==> i < |tokens|
    ensures t.Some? ==> t.value == tokens[i]
  {
    if i < |tokens| then Some(tokens[i]) else None
  }

  /** Whether a line terminator precedes token `i`, or `None` past the end. */
  function LineTerminatorBefore(tokens: seq<Token>, i: nat): (b: Option<bool>)
    ensures b.Some? <==> i < |tokens|
    ensures b.Some? ==> b.value == tokens[i].newlineBefore
  {
    if i < |tokens| then Some(tokens[i].newlineBefore) else None
  }

  /** What `expect` returns at position `i`: the token when it has exactly
      the required kind, an error naming both kinds when it has another,
      and `AbruptEnd` past the end. */
  function ExpectAt(tokens: seq<Token>, i: nat, kind: TokenKind): (r: Result<Token>)
    ensures r.Ok? <==> i < |tokens| && tokens[i].kind == kind
    ensures r.Ok? ==> r.value == tokens[i]
    ensures i < |tokens| && tokens[i].kind != kind ==> r == Err(Expected(kind, tokens[i].kind))
    ensures |tokens| <= i ==> r == Err(AbruptEnd)
  {
    if |tokens| <= i then Err(AbruptEnd)
    else if tokens[i].kind == kind then Ok(tokens[i])
    else Err(Expected(kind, tokens[i].kind))
  }

  /** A cursor over a fixed token sequence. Peeking reads, `Next` and
      `Expect` advance. */
  class Cursor {
    const tokens: seq<Token>
    var pos: nat

    constructor (tokens: seq<Token>)
      ensures this.tokens == tokens && pos == 0
    {
      this.tokens := tokens;
      pos := 0;
    }

    /** Looks `skip` tokens ahead without consuming anything. */
    method Peek(skip: nat) returns (t: Option<Token>)
      ensures t.Some? <==> pos + skip < |tokens|
      ensures t.Some? ==> t.value == tokens[pos + skip]
    {
      t := TokenAt(tokens, pos + skip);
    }

    /** Reports whether a line terminator precedes the token `skip` ahead. */
    method PeekIsLineTerminator(skip: nat) returns (b: Option<bool>)
      ensures b.Some? <==> pos + skip < |tokens|
      ensures b.Some? ==> b.value == tokens[pos + skip].newlineBefore
    {
      b := LineTerminatorBefore(tokens, pos + skip);
    }

    /** Consumes and returns the next token, if there is one. */
    method Next() returns (t: Option<Token>)
      modifies this
      ensures t == TokenAt(tokens, old(pos))
      ensures pos == if t.Some? then old(pos) + 1 else old(pos)
    {
      t := TokenAt(tokens, pos);
      if t.Some? {
        pos := pos + 1;
      }
    }

    /** Consumes the next token if it has kind `kind`; otherwise fails and
        leaves the cursor where it was. */
    method Expect(kind: TokenKind) returns (r: Result<Token>)
      modifies this
      ensures r == ExpectAt(tokens, old(pos), kind)
      ensures pos == if r.Ok? then old(pos) + 1 else old(pos)
    {
      r := ExpectAt(tokens, pos, kind);
      if r.Ok? {
        pos := pos + 1;
      }
    }

    /** Runs a sub-production from the cursor's position and moves the
        cursor to wherever that run left it. */
    method Run(parse: AssignmentParser, p: AssignmentExpression) returns (r: Result<Node>)
      modifies this
      ensures Step(r, pos) == parse(p, tokens, old(pos))
    {
      var s := parse(p, tokens, pos);
      r, pos := s.result, s.next;
    }
  }
}
