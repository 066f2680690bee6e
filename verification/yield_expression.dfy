/** The `YieldExpression` production of ECMA-262 (section 15.5, Generator
    Function Definitions):

      YieldExpression[In, Await] :
        yield
        yield [no LineTerminator here] AssignmentExpression[?In, +Yield, ?Await]
        yield [no LineTerminator here] * AssignmentExpression[?In, +Yield, ?Await]

    The production is given twice: `Run` says, as a function of the token
    sequence and the starting position, what one parse returns and where
    it leaves the cursor; `Parse` does the same step by step on a `Cursor`
    and is proved to agree with `Run`. The lemmas state the production's
    behaviour in terms of the tokens alone. */
module YieldParser {
  import opened Ast
  import opened Lexer
  import opened Parser

  /** The only token `expect` accepts as the start of this production: the
      keyword `yield` written without escapes. */
  const YieldKeyword: TokenKind := Keyword(Ast.Keyword.Yield, false)

  /** The token that selects the delegating form `yield*`. */
  const Star: TokenKind := Punctuator(Ast.Punctuator.Mul)

  const ExpressionStartPunctuators: set<Ast.Punctuator> :=
    {Ast.Punctuator.OpenParen, Ast.Punctuator.Add, Ast.Punctuator.Sub, Ast.Punctuator.Not,
     Ast.Punctuator.Neg, Ast.Punctuator.Inc, Ast.Punctuator.Dec, Ast.Punctuator.OpenBracket,
     Ast.Punctuator.OpenBlock, Ast.Punctuator.Div}

  const ExpressionStartKeywords: set<Ast.Keyword> :=
    {Ast.Keyword.Yield, Ast.Keyword.Await, Ast.Keyword.Delete, Ast.Keyword.Void,
     Ast.Keyword.TypeOf, Ast.Keyword.New, Ast.Keyword.This, Ast.Keyword.Function,
     Ast.Keyword.Class, Ast.Keyword.Async}

  /** The tokens after which `yield` takes an operand: identifiers, ten
      punctuators, ten keywords (escaped or not) and every literal. `*` is
      not among them, so the three alternatives of the production never
      overlap. */
  predicate IsExpressionStart(kind: TokenKind)
    ensures IsExpressionStart(kind) ==> kind != Star
  {
    match kind
    case Identifier(_) => true
    case Punctuator(p) => p in ExpressionStartPunctuators
    case Keyword(k, _) => k in ExpressionStartKeywords
    case BooleanLiteral(_) => true
    case NullLiteral => true
    case StringLiteral(_) => true
    case TemplateNoSubstitution(_) => true
    case NumericLiteral(_) => true
    case RegularExpressionLiteral(_, _) => true
    case TemplateMiddle(_) => true
  }

  /** Token `pos` is an unescaped `yield`: the case in which
      `ExpectAt(tokens, pos, YieldKeyword)` succeeds. */
  predicate StartsWithYield(tokens: seq<Token>, pos: nat)
  {
    pos < |tokens| && tokens[pos].kind == YieldKeyword
  }

  /** No operand can follow on this line: the stream ends before token
      `i`, or a line terminator precedes it. This is the case in which
      `LineTerminatorBefore(tokens, i)` is not `Some(false)`. */
  predicate LineEndsBefore(tokens: seq<Token>, i: nat)
  {
    |tokens| <= i || tokens[i].newlineBefore
  }

  /** Wraps the outcome of the operand parse into a yield node; a failure
      is passed on as it is. */
  function WithOperand(operand: Step, delegate: bool): (s: Step)
    ensures s.next == operand.next
    ensures s.result.Ok? <==> operand.result.Ok?
    ensures s.result.Ok? ==> s.result.value == Node.Yield(Some(operand.result.value), delegate)
    ensures s.result.Err? ==> s.result == operand.result
  {
    match operand.result
    case Ok(e) => Step(Ok(Node.Yield(Some(e), delegate)), operand.next)
    case Err(error) => Step(Err(error), operand.next)
  }

  /** The production with its two context flags. */
  datatype YieldExpression = YieldExpression(allowIn: bool, allowAwait: bool)
  {
    /** Captures the caller's flags; the operand parser is later set up
        with exactly these, plus `yield` allowed. */
    static function New(allowIn: bool, allowAwait: bool): (y: YieldExpression)
      ensures y.Operand() == AssignmentExpression(None, allowIn, true, allowAwait)
    {
      YieldExpression(allowIn, allowAwait)
    }

    /** The assignment-expression production the operand is parsed with. */
    function Operand(): AssignmentExpression
    {
      AssignmentExpression(None, allowIn, true, allowAwait)
    }

    /** One run of the production from position `pos`. */
    function Run(tokens: seq<Token>, pos: nat, assign: AssignmentParser): (s: Step)
      ensures s.result.Ok? ==> StartsWithYield(tokens, pos) && s.result.value.Yield?
      ensures s.result.Ok? && s.result.value.delegate ==> s.result.value.operand.Some?
      ensures s.result.Ok? && s.result.value.operand.None? ==> s.next == pos + 1
    {
      match ExpectAt(tokens, pos, YieldKeyword)
      case Err(error) => Step(Err(error), pos)
      case Ok(_) =>
        var at := pos + 1;
        if LineTerminatorBefore(tokens, at) != Some(false) then
          Step(Ok(Node.Yield(None, false)), at)
        else
          match TokenAt(tokens, at)
          case None => Step(Err(AbruptEnd), at)
          case Some(token) =>
            if token.kind == Star then
              WithOperand(assign(Operand(), tokens, at + 1), true)
            else if IsExpressionStart(token.kind) then
              WithOperand(assign(Operand(), tokens, at), false)
            else
              Step(Ok(Node.Yield(None, false)), at)
    }

    /** The production as it runs on a cursor: consume `yield`, ask for a
        line terminator, peek one token and dispatch on it. */
    method Parse(cursor: Cursor, assign: AssignmentParser) returns (r: Result<Node>)
      modifies cursor
      ensures Step(r, cursor.pos) == Run(cursor.tokens, old(cursor.pos), assign)
    {
      var keyword := cursor.Expect(YieldKeyword);
      if keyword.Err? {
        return Err(keyword.error);
      }
      var lineTerminator := cursor.PeekIsLineTerminator(0);
      if lineTerminator != Some(false) {
        return Ok(Node.Yield(None, false));
      }
      var token := cursor.Peek(0);
      if token.None? {
        return Err(AbruptEnd);
      }
      if token.value.kind == Star {
        var star := cursor.Next();
        assert star.Some?;
        var operand := cursor.Run(assign, Operand());
        r := if operand.Ok? then Ok(Node.Yield(Some(operand.value), true)) else operand;
      } else if IsExpressionStart(token.value.kind) {
        var operand := cursor.Run(assign, Operand());
        r := if operand.Ok? then Ok(Node.Yield(Some(operand.value), false)) else operand;
      } else {
        r := Ok(Node.Yield(None, false));
      }
    }
  }

  /** Without an unescaped `yield` at the cursor the production fails,
      builds no node and consumes nothing. */
  lemma MissingYieldFails(y: YieldExpression, tokens: seq<Token>, pos: nat, assign: AssignmentParser)
    requires !StartsWithYield(tokens, pos)
    ensures y.Run(tokens, pos, assign).next == pos
    ensures y.Run(tokens, pos, assign).result ==
      Err(if pos < |tokens| then Expected(YieldKeyword, tokens[pos].kind) else AbruptEnd)
  {
  }

  /** A line terminator after `yield`, or the end of the tokens, ends the
      expression: a bare yield, and only `yield` is consumed, whatever
      follows on the next line. */
  lemma LineBreakEndsYield(y: YieldExpression, tokens: seq<Token>, pos: nat, assign: AssignmentParser)
    requires StartsWithYield(tokens, pos) && LineEndsBefore(tokens, pos + 1)
    ensures y.Run(tokens, pos, assign) == Step(Ok(Node.Yield(None, false)), pos + 1)
  {
  }

  /** `yield *` on one line consumes both tokens and delegates to the
      operand parsed from just after `*`; the operand's outcome, failure
      included, and its end position are the production's. */
  lemma StarDelegates(y: YieldExpression, tokens: seq<Token>, pos: nat, assign: AssignmentParser)
    requires StartsWithYield(tokens, pos) && !LineEndsBefore(tokens, pos + 1)
    requires tokens[pos + 1].kind == Star
    ensures var s, o := y.Run(tokens, pos, assign), assign(y.Operand(), tokens, pos + 2);
      && s.next == o.next
      && (s.result.Ok? <==> o.result.Ok?)
      && (o.result.Ok? ==> s.result.value == Node.Yield(Some(o.result.value), true))
      && (o.result.Err? ==> s.result == o.result)
  {
  }

  /** A token that starts an expression, on the same line, is left for
      the operand parser: it runs from that very token and the yield
      carries its result, or fails with its error. */
  lemma ExpressionStartTakesOperand(y: YieldExpression, tokens: seq<Token>, pos: nat, assign: AssignmentParser)
    requires StartsWithYield(tokens, pos) && !LineEndsBefore(tokens, pos + 1)
    requires IsExpressionStart(tokens[pos + 1].kind)
    ensures var s, o := y.Run(tokens, pos, assign), assign(y.Operand(), tokens, pos + 1);
      && s.next == o.next
      && (s.result.Ok? <==> o.result.Ok?)
      && (o.result.Ok? ==> s.result.value == Node.Yield(Some(o.result.value), false))
      && (o.result.Err? ==> s.result == o.result)
  {
  }

  /** Any other token on the same line ends the expression without an
      error and stays unread. */
  lemma OtherTokenLeftUnread(y: YieldExpression, tokens: seq<Token>, pos: nat, assign: AssignmentParser)
    requires StartsWithYield(tokens, pos) && !LineEndsBefore(tokens, pos + 1)
    requires tokens[pos + 1].kind != Star && !IsExpressionStart(tokens[pos + 1].kind)
    ensures y.Run(tokens, pos, assign) == Step(Ok(Node.Yield(None, false)), pos + 1)
  {
  }

  /** The production yields a bare `yield` exactly when `yield` is present
      and is followed by a line break, the end, or a token that neither
      delegates nor starts an expression; then only `yield` is consumed. */
  lemma BareYieldExactly(y: YieldExpression, tokens: seq<Token>, pos: nat, assign: AssignmentParser)
    ensures var s := y.Run(tokens, pos, assign);
      s.result == Ok(Node.Yield(None, false)) <==>
        && StartsWithYield(tokens, pos)
        && (LineEndsBefore(tokens, pos + 1)
            || (tokens[pos + 1].kind != Star && !IsExpressionStart(tokens[pos + 1].kind)))
    ensures var s := y.Run(tokens, pos, assign);
      s.result == Ok(Node.Yield(None, false)) ==> s.next == pos + 1
  {
  }

  /** The operand parser is consulted only under the production's own
      context `y.Operand()`: two operand parsers that agree there give the
      same run, so no other flag combination can influence the result. */
  lemma OnlyOperandContextMatters(y: YieldExpression, tokens: seq<Token>, pos: nat, a: AssignmentParser, b: AssignmentParser)
    requires forall q: nat :: a(y.Operand(), tokens, q) == b(y.Operand(), tokens, q)
    ensures y.Run(tokens, pos, a) == y.Run(tokens, pos, b)
  {
  }

  /** With an operand parser that never moves backwards, the production
      never moves backwards either; a node always consumes `yield`, and
      `yield*` consumes `*` as well. */
  lemma RunAdvances(y: YieldExpression, tokens: seq<Token>, pos: nat, assign: AssignmentParser)
    requires Advances(assign)
    ensures var s := y.Run(tokens, pos, assign);
      && pos <= s.next
      && (s.result.Ok? ==> pos + 1 <= s.next)
      && (s.result.Ok? && s.result.value.delegate ==> pos + 2 <= s.next)
  {
  }
}
