/** Abstract syntax shared by the lexer and the parser: keywords,
    punctuators and the expression nodes the yield production builds. */
module Ast {

  /** The conventional optional value. */
  datatype Option<+T> = None | Some(value: T)

  /** An interned string: the lexer hands out symbols, never raw text. */
  type Sym = nat

  /** The reserved and contextual words of ECMAScript, one constructor each. */
  datatype Keyword =
    | Async | Await | Break | Case | Catch | Class | Const | Continue
    | Debugger | Default | Delete | Do | Else | Enum | Export | Extends
    | Finally | For | Function | If | Import | In | InstanceOf | Let
    | New | Of | Return | Super | Switch | This | Throw | Try
    | TypeOf | Var | Void | While | With | Yield

  /** Punctuators. The ten that can begin an expression and `*` are the
      ones the yield production distinguishes; the others stand for the
      tokens that end or continue an enclosing construct. */
  datatype Punctuator =
    | Add          // +
    | Sub          // -
    | Not          // !
    | Neg          // ~
    | Inc          // ++
    | Dec          // --
    | OpenParen    // (
    | OpenBracket  // [
    | OpenBlock    // {
    | Div          // /
    | Mul          // *
    | CloseParen   // )
    | CloseBracket // ]
    | CloseBlock   // }
    | Semicolon    // ;
    | Comma        // ,
    | Colon        // :
    | Question     // ?
    | Assign       // =
    | Dot          // .
    | Arrow        // =>
    | Spread       // ...
    | LessThan     // <
    | Mod          // %

  /** Expression nodes. `Yield` is the node this production builds;
      `Identifier` and `Other` stand for whatever the assignment-expression
      parser builds for an operand. */
  datatype Node =
    | Yield(operand: Option<Node>, delegate: bool)
    | Identifier(name: Sym)
    | Other(tag: nat)
}
