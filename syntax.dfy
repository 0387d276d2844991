/** The expression tree that src/parser.rs builds and src/interpreter.rs
    walks: four variants, with a literal carried as optional text. Also the
    binding strength of the binary operators and the shape a tree has when
    precedence and left-associativity are respected. */
module Syntax {
  import opened Wrappers
  import opened Tokens

  datatype Expr =
    | Literal(value: Option<string>)
    | Unary(op: Token, right: Expr)
    | Binary(left: Expr, op: Token, right: Expr)
    | Grouping(inner: Expr)

  /** Binding strength of a binary operator kind: 1 for equality, 2 for
      comparison, 3 for term, 4 for factor; 0 for every other kind. */
  function Prec(kind: TokenKind): nat {
    match kind
    case BangEqual | EqualEqual => 1
    case Greater | GreaterEqual | Less | LessEqual => 2
    case Minus | Plus => 3
    case Slash | Star => 4
    case _ => 0
  }

  /** The kinds each binary level's loop looks for, in the source's order. */
  function Operators(level: nat): (ops: seq<TokenKind>)
    requires 1 <= level <= 4
    ensures forall kind :: kind in ops <==> Prec(kind) == level
  {
    if level == 1 then [BangEqual, EqualEqual]
    else if level == 2 then [Greater, GreaterEqual, Less, LessEqual]
    else if level == 3 then [Plus, Minus]
    else [Star, Slash]
  }

  /** How tightly the root of `e` binds: its operator's strength for a
      Binary, 5 (an atom) for everything else. */
  function Top(e: Expr): nat {
    if e.Binary? then Prec(e.op.kind) else 5
  }

  /** The trees a precedence-climbing, left-associative parser can produce
      without explicit grouping: every Binary has a binary operator, its left
      operand binds at least as tightly and its right operand strictly more
      tightly; a Unary has `!` or `-` and an atom as operand. */
  predicate WellNested(e: Expr) {
    match e
    case Literal(_) => true
    case Grouping(inner) => WellNested(inner)
    case Unary(op, right) => op.kind in {Bang, Minus} && Top(right) == 5 && WellNested(right)
    case Binary(left, op, right) =>
      && 1 <= Prec(op.kind)
      && Top(left) >= Prec(op.kind) && Top(right) > Prec(op.kind)
      && WellNested(left) && WellNested(right)
  }
}
