/** Yield expressions nested in one another. The operand of a yield is an
    assignment expression, and with `yield` allowed an assignment
    expression that begins with `yield` is again a yield expression; so
    `yield yield * yield x` nests three productions. This module closes
    that loop with a stand-in for the assignment-expression production
    that hands a leading `yield` back to the yield production and parses
    anything else with a leaf parser. A nesting-depth budget bounds the
    recursion. With identifiers as leaves it proves the round trip:
    rendering a yield tree to tokens and parsing them rebuilds the tree,
    and every tree the parser builds renders and re-parses to itself. */
module NestedYields {
  import opened Ast
  import opened Lexer
  import opened Parser
  import opened YieldParser

  /** The assignment-expression stand-in with nesting budget `depth`, as
      a parser the yield production can be given. */
  function Assignment(depth: nat, leaf: AssignmentParser): AssignmentParser
    decreases depth, 1
  {
    (p: AssignmentExpression, tokens: seq<Token>, pos: nat) => ParseAssignment(depth, leaf, p, tokens, pos)
  }

  /** One run of the stand-in: with yield allowed and budget left, a
      leading `yield` is the yield production; anything else is a leaf. */
  function ParseAssignment(depth: nat, leaf: AssignmentParser, p: AssignmentExpression, tokens: seq<Token>, pos: nat): Step
    decreases depth, 0
  {
    if 0 < depth && p.allowYield && StartsWithYield(tokens, pos) then
      YieldExpression.New(p.allowIn, p.allowAwait).Run(tokens, pos, Assignment(depth - 1, leaf))
    else
      leaf(p, tokens, pos)
  }

  /** A leaf parser that accepts one identifier. */
  function IdentifierLeaf(p: AssignmentExpression, tokens: seq<Token>, pos: nat): (s: Step)
    ensures s.result.Ok? <==> pos < |tokens| && tokens[pos].kind.Identifier?
    ensures s.result.Ok? ==> s == Step(Ok(Node.Identifier(tokens[pos].kind.name)), pos + 1)
    ensures s.result.Err? ==> s.next == pos
  {
    match TokenAt(tokens, pos)
    case None => Step(Err(AbruptEnd), pos)
    case Some(t) =>
      if t.kind.Identifier? then Step(Ok(Node.Identifier(t.kind.name)), pos + 1)
      else Step(Err(Unexpected(t.kind)), pos)
  }

  /** The trees made of yields around an identifier or a bare yield, with
      no delegating yield lacking its operand. */
  predicate Printable(n: Node)
  {
    match n
    case Identifier(_) => true
    case Other(_) => false
    case Yield(operand, delegate) =>
      && (delegate ==> operand.Some?)
      && (operand.Some? ==> Printable(operand.value))
  }

  /** The number of yields on the operand chain. */
  function YieldDepth(n: Node): nat
  {
    match n
    case Yield(operand, _) => 1 + (if operand.Some? then YieldDepth(operand.value) else 0)
    case _ => 0
  }

  /** The tokens of a printable tree, all on one line. */
  function Render(n: Node): (tokens: seq<Token>)
    requires Printable(n)
    ensures 1 <= |tokens|
  {
    match n
    case Identifier(x) => [Token(Lexer.Identifier(x), false)]
    case Yield(operand, delegate) =>
      [Token(YieldKeyword, false)]
      + (if delegate then [Token(Star, false)] else [])
      + (if operand.Some? then Render(operand.value) else [])
  }

  /** What may follow a rendered tree without being read into it: nothing,
      a token on a new line, or a token that neither delegates nor starts
      an expression. */
  predicate Terminates(rest: seq<Token>)
  {
    rest == [] || rest[0].newlineBefore || (rest[0].kind != Star && !IsExpressionStart(rest[0].kind))
  }

  /** A rendered tree begins, on its own line, with a token that starts
      an expression and is not `*`. */
  lemma RenderBegins(n: Node)
    requires Printable(n)
    ensures !Render(n)[0].newlineBefore && IsExpressionStart(Render(n)[0].kind)
  {
  }

  /** Where the stand-in meets `yield` with budget left, it is the yield
      production with one budget unit less for the operand. */
  lemma AssignmentAtYield(depth: nat, leaf: AssignmentParser, p: AssignmentExpression, tokens: seq<Token>, pos: nat)
    requires 0 < depth && p.allowYield && StartsWithYield(tokens, pos)
    ensures ParseAssignment(depth, leaf, p, tokens, pos)
      == YieldExpression.New(p.allowIn, p.allowAwait).Run(tokens, pos, Assignment(depth - 1, leaf))
  {
  }

  /** Anywhere else the stand-in is the leaf parser. */
  lemma AssignmentElsewhere(depth: nat, leaf: AssignmentParser, p: AssignmentExpression, tokens: seq<Token>, pos: nat)
    requires !(0 < depth && p.allowYield && StartsWithYield(tokens, pos))
    ensures ParseAssignment(depth, leaf, p, tokens, pos) == leaf(p, tokens, pos)
  {
  }

  /** A `yield` followed by a terminating token is a bare yield. */
  lemma BareYieldThenParse(depth: nat, p: AssignmentExpression, tokens: seq<Token>, pos: nat)
    requires 0 < depth && p.allowYield && StartsWithYield(tokens, pos)
    requires Terminates(tokens[pos + 1..])
    ensures ParseAssignment(depth, IdentifierLeaf, p, tokens, pos) == Step(Ok(Node.Yield(None, false)), pos + 1)
  {
    var y := YieldExpression.New(p.allowIn, p.allowAwait);
    var inner := Assignment(depth - 1, IdentifierLeaf);
    AssignmentAtYield(depth, IdentifierLeaf, p, tokens, pos);
    if LineEndsBefore(tokens, pos + 1) {
      LineBreakEndsYield(y, tokens, pos, inner);
    } else {
      assert tokens[pos + 1..][0] == tokens[pos + 1];
      OtherTokenLeftUnread(y, tokens, pos, inner);
    }
  }

  /** A `yield`, optionally `*`, then an operand the stand-in parses to
      `e` with budget `depth - 1`, is the yield of `e`. */
  lemma OperandYieldThenParse(depth: nat, p: AssignmentExpression, tokens: seq<Token>, pos: nat, delegate: bool, e: Node, end: nat)
    requires 0 < depth && p.allowYield && StartsWithYield(tokens, pos)
    requires var at := if delegate then pos + 2 else pos + 1;
      && at < |tokens| && !tokens[at].newlineBefore && IsExpressionStart(tokens[at].kind)
      && (delegate ==> tokens[pos + 1] == Token(Star, false))
      && ParseAssignment(depth - 1, IdentifierLeaf, YieldExpression.New(p.allowIn, p.allowAwait).Operand(), tokens, at)
           == Step(Ok(e), end)
    ensures ParseAssignment(depth, IdentifierLeaf, p, tokens, pos) == Step(Ok(Node.Yield(Some(e), delegate)), end)
  {
    var y := YieldExpression.New(p.allowIn, p.allowAwait);
    var inner := Assignment(depth - 1, IdentifierLeaf);
    AssignmentAtYield(depth, IdentifierLeaf, p, tokens, pos);
    if delegate {
      StarDelegates(y, tokens, pos, inner);
    } else {
      ExpressionStartTakesOperand(y, tokens, pos, inner);
    }
  }

  /** A window of the tokens that equals `r` equals it from any offset on. */
  lemma WindowFrom(tokens: seq<Token>, pos: nat, r: seq<Token>, k: nat)
    requires pos + |r| <= |tokens| && tokens[pos .. pos + |r|] == r && k < |r|
    ensures tokens[pos + k .. pos + |r|] == r[k..] && tokens[pos + k] == r[k]
  {
    assert tokens[pos .. pos + |r|][k] == r[k];
  }

  /** The tokens of a yield with an operand: `yield`, `*` when it
      delegates, then the operand's tokens. */
  lemma RenderOperand(n: Node)
    requires Printable(n) && n.Yield? && n.operand.Some?
    ensures var k := if n.delegate then 2 else 1;
      && |Render(n)| == k + |Render(n.operand.value)|
      && Render(n)[k..] == Render(n.operand.value)
      && (n.delegate ==> Render(n)[1] == Token(Star, false))
  {
  }

  /** Parsing a rendered tree, followed by anything that terminates it,
      rebuilds the tree and stops right after its tokens. */
  lemma {:induction false} RenderThenParse(n: Node, depth: nat, p: AssignmentExpression, tokens: seq<Token>, pos: nat)
    requires Printable(n) && YieldDepth(n) <= depth && p.allowYield
    requires pos + |Render(n)| <= |tokens| && tokens[pos .. pos + |Render(n)|] == Render(n)
    requires Terminates(tokens[pos + |Render(n)| ..])
    ensures ParseAssignment(depth, IdentifierLeaf, p, tokens, pos) == Step(Ok(n), pos + |Render(n)|)
    decreases n, 1
  {
    WindowFrom(tokens, pos, Render(n), 0);
    if n.Identifier? {
      AssignmentElsewhere(depth, IdentifierLeaf, p, tokens, pos);
    } else if n.operand.None? {
      BareYieldThenParse(depth, p, tokens, pos);
    } else {
      RenderThenParseOperand(n, depth, p, tokens, pos);
    }
  }

  /** Where a rendered yield with an operand lies in the tokens: its
      operand's tokens start after `yield` (and `*`), end where the yield's
      do, and begin with a token on the same line that starts an
      expression. */
  lemma OperandWindow(n: Node, tokens: seq<Token>, pos: nat)
    requires Printable(n) && n.Yield? && n.operand.Some?
    requires pos + |Render(n)| <= |tokens| && tokens[pos .. pos + |Render(n)|] == Render(n)
    ensures var e, at := n.operand.value, if n.delegate then pos + 2 else pos + 1;
      && at + |Render(e)| == pos + |Render(n)|
      && tokens[at .. at + |Render(e)|] == Render(e)
      && at < |tokens| && !tokens[at].newlineBefore && IsExpressionStart(tokens[at].kind)
      && (n.delegate ==> tokens[pos + 1] == Token(Star, false))
  {
    var r := Render(n);
    var k := if n.delegate then 2 else 1;
    RenderOperand(n);
    RenderBegins(n.operand.value);
    WindowFrom(tokens, pos, r, k);
    WindowFrom(tokens, pos, r, 1);
  }

  /** The case of `RenderThenParse` for a yield with an operand. */
  lemma {:induction false} RenderThenParseOperand(n: Node, depth: nat, p: AssignmentExpression, tokens: seq<Token>, pos: nat)
    requires Printable(n) && n.Yield? && n.operand.Some? && YieldDepth(n) <= depth && p.allowYield
    requires pos + |Render(n)| <= |tokens| && tokens[pos .. pos + |Render(n)|] == Render(n)
    requires Terminates(tokens[pos + |Render(n)| ..])
    requires StartsWithYield(tokens, pos)
    ensures ParseAssignment(depth, IdentifierLeaf, p, tokens, pos) == Step(Ok(n), pos + |Render(n)|)
    decreases n, 0
  {
    var e := n.operand.value;
    var at := if n.delegate then pos + 2 else pos + 1;
    OperandWindow(n, tokens, pos);
    RenderThenParse(e, depth - 1, YieldExpression.New(p.allowIn, p.allowAwait).Operand(), tokens, at);
    OperandYieldThenParse(depth, p, tokens, pos, n.delegate, e, pos + |Render(n)|);
  }

  /** Every tree the stand-in builds is printable, within the nesting
      budget, and ends no earlier than it started. */
  lemma {:induction false} ParsedIsPrintable(depth: nat, p: AssignmentExpression, tokens: seq<Token>, pos: nat)
    ensures var s := ParseAssignment(depth, IdentifierLeaf, p, tokens, pos);
      s.result.Ok? ==> Printable(s.result.value) && YieldDepth(s.result.value) <= depth && pos < s.next
    decreases depth
  {
    var s := ParseAssignment(depth, IdentifierLeaf, p, tokens, pos);
    if 0 < depth && p.allowYield && StartsWithYield(tokens, pos) {
      var y := YieldExpression.New(p.allowIn, p.allowAwait);
      var inner := Assignment(depth - 1, IdentifierLeaf);
      AssignmentAtYield(depth, IdentifierLeaf, p, tokens, pos);
      if s.result.Ok? {
        var n := s.result.value;
        if n.operand.None? {
          assert n == Node.Yield(None, false);
        } else {
          var at := if n.delegate then pos + 2 else pos + 1;
          var o := inner(y.Operand(), tokens, at);
          ParsedIsPrintable(depth - 1, y.Operand(), tokens, at);
          if n.delegate {
            StarDelegates(y, tokens, pos, inner);
          } else {
            ExpressionStartTakesOperand(y, tokens, pos, inner);
          }
          assert n == Node.Yield(Some(o.result.value), n.delegate);
        }
      }
    } else {
      AssignmentElsewhere(depth, IdentifierLeaf, p, tokens, pos);
    }
  }

  /** The round trip: a tree the parser builds, rendered and followed by
      anything that terminates it, parses back to the same tree. */
  lemma ParseRenderParse(depth: nat, p: AssignmentExpression, tokens: seq<Token>, pos: nat, rest: seq<Token>)
    requires p.allowYield && Terminates(rest)
    requires ParseAssignment(depth, IdentifierLeaf, p, tokens, pos).result.Ok?
    ensures var n := ParseAssignment(depth, IdentifierLeaf, p, tokens, pos).result.value;
      Printable(n) && ParseAssignment(depth, IdentifierLeaf, p, Render(n) + rest, 0) == Step(Ok(n), |Render(n)|)
  {
    var n := ParseAssignment(depth, IdentifierLeaf, p, tokens, pos).result.value;
    ParsedIsPrintable(depth, p, tokens, pos);
    var ts := Render(n) + rest;
    assert ts[0 .. |Render(n)|] == Render(n);
    assert ts[|Render(n)| ..] == rest;
    RenderThenParse(n, depth, p, ts, 0);
  }

  /** If the leaf parser never moves backwards, neither does the stand-in,
      however deep the nesting. */
  lemma {:induction false} AssignmentAdvances(depth: nat, leaf: AssignmentParser)
    requires Advances(leaf)
    ensures Advances(Assignment(depth, leaf))
    decreases depth
  {
    if 0 < depth {
      AssignmentAdvances(depth - 1, leaf);
      forall p: AssignmentExpression, tokens: seq<Token>, pos: nat
        ensures pos <= ParseAssignment(depth, leaf, p, tokens, pos).next
      {
        if p.allowYield && StartsWithYield(tokens, pos) {
          RunAdvances(YieldExpression.New(p.allowIn, p.allowAwait), tokens, pos, Assignment(depth - 1, leaf));
        }
      }
    }
  }
}
