/** The token model shared by the scanner, the parser and the evaluator:
    the union of the kinds the scanner emits and the kinds the parser asks
    for, and a token record that carries the line it was scanned on. */
module Tokens {
  import opened Wrappers

  datatype TokenKind =
    // one-character punctuation
    | LeftParen | RightParen | LeftBrace | RightBrace
    | Comma | Dot | Minus | Plus | Semicolon | Slash | Star
    // one- or two-character operators
    | Bang | BangEqual | Equal | EqualEqual
    | Greater | GreaterEqual | Less | LessEqual
    // literals and keywords the parser consumes
    | String | Number | True | False | Nil
    // end of input
    | Eof

  datatype Token = Token(kind: TokenKind, lexeme: string, literal: Option<string>, line: nat)

  /** The exact text of every kind whose lexeme is fixed; `None` for the
      literal categories and for the end marker, whose text varies or is empty. */
  function FixedSpelling(kind: TokenKind): Option<string> {
    match kind
    case LeftParen => Some("(")
    case RightParen => Some(")")
    case LeftBrace => Some("{")
    case RightBrace => Some("}")
    case Comma => Some(",")
    case Dot => Some(".")
    case Minus => Some("-")
    case Plus => Some("+")
    case Semicolon => Some(";")
    case Slash => Some("/")
    case Star => Some("*")
    case Bang => Some("!")
    case BangEqual => Some("!=")
    case Equal => Some("=")
    case EqualEqual => Some("==")
    case Greater => Some(">")
    case GreaterEqual => Some(">=")
    case Less => Some("<")
    case LessEqual => Some("<=")
    case True => Some("true")
    case False => Some("false")
    case Nil => Some("nil")
    case String => None
    case Number => None
    case Eof => None
  }
}
