/** The recursive-descent parser of src/parser.rs as pure functions of the
    token list and a cursor. Each returns the tree (or `None` when the parse
    fails) together with where the cursor ends up, exactly as the methods of
    the `Parser` class leave it, failures included. */
module Parsing {
  import opened Wrappers
  import opened Tokens
  import opened Syntax

  /** What the parser needs of its input: a non-empty list ending in EOF. */
  predicate WellTerminated(toks: seq<Token>) {
    |toks| > 0 && toks[|toks| - 1].kind == Eof
  }

  datatype Parsed = Parsed(expr: Option<Expr>, pos: nat)

  predicate AtEnd(toks: seq<Token>, pos: nat)
    requires pos < |toks|
  {
    toks[pos].kind == Eof
  }

  /** `check`: false at EOF whatever kind is asked for. */
  predicate CheckAt(toks: seq<Token>, pos: nat, kind: TokenKind): (r: bool)
    requires pos < |toks|
    ensures r ==> kind != Eof
    ensures kind != Eof ==> (r <==> toks[pos].kind == kind)
  {
    !AtEnd(toks, pos) && toks[pos].kind == kind
  }

  /** `match_token`: whether some kind in the list checks at the cursor. */
  predicate MatchesAt(toks: seq<Token>, pos: nat, kinds: seq<TokenKind>)
    requires pos < |toks|
  {
    !AtEnd(toks, pos) && toks[pos].kind in kinds
  }

  /** Trying the kinds in order and stopping at the first that checks is
      the same as asking whether any of them does. */
  lemma MatchesSomeKind(toks: seq<Token>, pos: nat, kinds: seq<TokenKind>)
    requires pos < |toks|
    ensures MatchesAt(toks, pos, kinds) <==> exists i | 0 <= i < |kinds| :: CheckAt(toks, pos, kinds[i])
  {
  }

  /** `expression`, which is `equality`. */
  function ExpressionAt(toks: seq<Token>, pos: nat): (r: Parsed)
    requires WellTerminated(toks) && pos < |toks|
    ensures pos <= r.pos < |toks|
    ensures r.expr.Some? ==> pos < r.pos
    decreases |toks| - pos, 16
  {
    LevelAt(toks, 1, pos)
  }

  /** The rung `level` of the ladder: 1 equality, 2 comparison, 3 term,
      4 factor, 5 unary. */
  function LevelAt(toks: seq<Token>, level: nat, pos: nat): (r: Parsed)
    requires WellTerminated(toks) && pos < |toks| && 1 <= level <= 5
    ensures pos <= r.pos < |toks|
    ensures r.expr.Some? ==> pos < r.pos
    decreases |toks| - pos, 3 * (6 - level)
  {
    if level == 5 then UnaryAt(toks, pos) else BinaryAt(toks, level, pos)
  }

  /** A binary level: one operand of the next rung, then the loop. */
  function BinaryAt(toks: seq<Token>, level: nat, pos: nat): (r: Parsed)
    requires WellTerminated(toks) && pos < |toks| && 1 <= level <= 4
    ensures pos <= r.pos < |toks|
    ensures r.expr.Some? ==> pos < r.pos
    decreases |toks| - pos, 3 * (6 - level) - 1
  {
    var left := LevelAt(toks, level + 1, pos);
    FoldAt(toks, level, left.expr, left.pos)
  }

  /** The `while self.match_token(...)` loop of a binary level with `acc`
      in `expr`: each turn consumes an operator and an operand and folds
      them into a new left-nested Binary. A failed operand, or a failed
      `acc`, ends the loop with `None` once the operand has been parsed. */
  function FoldAt(toks: seq<Token>, level: nat, acc: Option<Expr>, pos: nat): (r: Parsed)
    requires WellTerminated(toks) && pos < |toks| && 1 <= level <= 4
    ensures pos <= r.pos < |toks|
    ensures r.expr.Some? ==> acc.Some?
    decreases |toks| - pos, 3 * (6 - level) - 2
  {
    if !MatchesAt(toks, pos, Operators(level)) then Parsed(acc, pos)
    else
      var right := LevelAt(toks, level + 1, pos + 1);
      if acc.None? || right.expr.None? then Parsed(None, right.pos)
      else FoldAt(toks, level, Some(Binary(acc.value, toks[pos], right.expr.value)), right.pos)
  }

  /** One turn of a binary level's loop, as an equation. */
  lemma FoldTurn(toks: seq<Token>, level: nat, acc: Option<Expr>, pos: nat)
    requires WellTerminated(toks) && pos < |toks| && 1 <= level <= 4
    requires MatchesAt(toks, pos, Operators(level))
    ensures var right := LevelAt(toks, level + 1, pos + 1);
      FoldAt(toks, level, acc, pos) ==
        if acc.None? || right.expr.None? then Parsed(None, right.pos)
        else FoldAt(toks, level, Some(Binary(acc.value, toks[pos], right.expr.value)), right.pos)
  {
  }

  /** `unary`: a prefix `!` or `-` applies to a further unary. */
  function UnaryAt(toks: seq<Token>, pos: nat): (r: Parsed)
    requires WellTerminated(toks) && pos < |toks|
    ensures pos <= r.pos < |toks|
    ensures r.expr.Some? ==> pos < r.pos
    decreases |toks| - pos, 2
  {
    if MatchesAt(toks, pos, [Bang, Minus]) then
      var right := UnaryAt(toks, pos + 1);
      Parsed(if right.expr.Some? then Some(Unary(toks[pos], right.expr.value)) else None, right.pos)
    else
      PrimaryAt(toks, pos)
  }

  /** `primary`: a literal token, or a parenthesised expression whose `)`
      must be present; anything else fails without consuming. */
  function PrimaryAt(toks: seq<Token>, pos: nat): (r: Parsed)
    requires WellTerminated(toks) && pos < |toks|
    ensures pos <= r.pos < |toks|
    ensures r.expr.Some? ==> pos < r.pos
    decreases |toks| - pos, 1
  {
    if MatchesAt(toks, pos, [Number]) || MatchesAt(toks, pos, [String]) then
      Parsed(Some(Literal(toks[pos].literal)), pos + 1)
    else if MatchesAt(toks, pos, [True]) then Parsed(Some(Literal(Some("true"))), pos + 1)
    else if MatchesAt(toks, pos, [False]) then Parsed(Some(Literal(Some("false"))), pos + 1)
    else if MatchesAt(toks, pos, [Nil]) then Parsed(Some(Literal(None)), pos + 1)
    else if MatchesAt(toks, pos, [LeftParen]) then
      var inner := ExpressionAt(toks, pos + 1);
      if !CheckAt(toks, inner.pos, RightParen) then Parsed(None, inner.pos)
      else Parsed(if inner.expr.Some? then Some(Grouping(inner.expr.value)) else None, inner.pos + 1)
    else
      Parsed(None, pos)
  }

  // ---------------------------------------------------------------------
  // Which token lists spell which trees

  /** The number of tokens a tree is spelled with. */
  function Width(e: Expr): nat {
    match e
    case Literal(_) => 1
    case Unary(_, right) => 1 + Width(right)
    case Binary(left, _, right) => Width(left) + 1 + Width(right)
    case Grouping(inner) => Width(inner) + 2
  }

  /** The tokens `primary` turns into the literal `v`. */
  predicate LiteralToken(t: Token, v: Option<string>) {
    || (t.kind in {Number, String} && t.literal == v)
    || (t.kind == True && v == Some("true"))
    || (t.kind == False && v == Some("false"))
    || (t.kind == Nil && v == None)
  }

  /** The tokens from `pos` on spell `e` in infix form: operator tokens in
      place, parentheses around every Grouping and nowhere else. */
  predicate Spells(toks: seq<Token>, pos: nat, e: Expr)
    decreases e
  {
    && pos + Width(e) <= |toks|
    && match e
       case Literal(v) => LiteralToken(toks[pos], v)
       case Unary(op, right) => toks[pos] == op && Spells(toks, pos + 1, right)
       case Binary(left, op, right) =>
         Spells(toks, pos, left) && toks[pos + Width(left)] == op && Spells(toks, pos + Width(left) + 1, right)
       case Grouping(inner) =>
         toks[pos].kind == LeftParen && Spells(toks, pos + 1, inner) && toks[pos + Width(inner) + 1].kind == RightParen
  }

  /** The token at `q` stops every loop from rung `level` down: it is the
      end marker or not an operator binding at least that tightly. */
  predicate Ends(toks: seq<Token>, q: nat, level: nat) {
    q < |toks| && (AtEnd(toks, q) || Prec(toks[q].kind) < level)
  }

  /** `e` is well nested, binds at least as tightly as rung `level`, and is
      spelled by the tokens from `pos` up to `q`. */
  predicate Covers(toks: seq<Token>, pos: nat, level: nat, e: Expr, q: nat) {
    WellNested(e) && Top(e) >= level && Spells(toks, pos, e) && q == pos + Width(e)
  }

  // ---------------------------------------------------------------------
  // Soundness: what a successful parse returns

  lemma {:induction false} LevelSound(toks: seq<Token>, level: nat, pos: nat)
    requires WellTerminated(toks) && pos < |toks| && 1 <= level <= 5
    ensures var r := LevelAt(toks, level, pos);
      r.expr.Some? ==> Covers(toks, pos, level, r.expr.value, r.pos) && Ends(toks, r.pos, level)
    decreases |toks| - pos, 3 * (6 - level)
  {
    if level == 5 {
      UnarySound(toks, pos);
    } else {
      BinarySound(toks, level, pos);
    }
  }

  lemma {:induction false} BinarySound(toks: seq<Token>, level: nat, pos: nat)
    requires WellTerminated(toks) && pos < |toks| && 1 <= level <= 4
    ensures var r := BinaryAt(toks, level, pos);
      r.expr.Some? ==> Covers(toks, pos, level, r.expr.value, r.pos) && Ends(toks, r.pos, level)
    decreases |toks| - pos, 3 * (6 - level) - 1
  {
    var left := LevelAt(toks, level + 1, pos);
    LevelSound(toks, level + 1, pos);
    FoldSound(toks, level, left.expr, left.pos, pos);
  }

  lemma {:induction false} FoldSound(toks: seq<Token>, level: nat, acc: Option<Expr>, pos: nat, start: nat)
    requires WellTerminated(toks) && pos < |toks| && 1 <= level <= 4
    requires acc.Some? ==> Covers(toks, start, level, acc.value, pos) && Ends(toks, pos, level + 1)
    ensures var r := FoldAt(toks, level, acc, pos);
      r.expr.Some? ==> Covers(toks, start, level, r.expr.value, r.pos) && Ends(toks, r.pos, level)
    decreases |toks| - pos, 3 * (6 - level) - 2
  {
    if MatchesAt(toks, pos, Operators(level)) {
      var right := LevelAt(toks, level + 1, pos + 1);
      LevelSound(toks, level + 1, pos + 1);
      if acc.Some? && right.expr.Some? {
        var e := Binary(acc.value, toks[pos], right.expr.value);
        assert Spells(toks, start, e);
        FoldSound(toks, level, Some(e), right.pos, start);
      }
    }
  }

  // At rung 5, `Ends` only bounds the cursor: no binary operator binds
  // that tightly, so no loop below can be stopped early.
  lemma {:induction false} UnarySound(toks: seq<Token>, pos: nat)
    requires WellTerminated(toks) && pos < |toks|
    ensures var r := UnaryAt(toks, pos);
      r.expr.Some? ==> Covers(toks, pos, 5, r.expr.value, r.pos) && Ends(toks, r.pos, 5)
    decreases |toks| - pos, 2
  {
    if MatchesAt(toks, pos, [Bang, Minus]) {
      UnarySound(toks, pos + 1);
    } else {
      PrimarySound(toks, pos);
    }
  }

  lemma {:induction false} PrimarySound(toks: seq<Token>, pos: nat)
    requires WellTerminated(toks) && pos < |toks|
    ensures var r := PrimaryAt(toks, pos);
      r.expr.Some? ==> Covers(toks, pos, 5, r.expr.value, r.pos) && Ends(toks, r.pos, 5)
    ensures toks[pos].kind !in {Number, String, True, False, Nil, LeftParen} ==> PrimaryAt(toks, pos) == Parsed(None, pos)
    decreases |toks| - pos, 1
  {
    var r := PrimaryAt(toks, pos);
    if MatchesAt(toks, pos, [Number]) || MatchesAt(toks, pos, [String]) || MatchesAt(toks, pos, [True])
       || MatchesAt(toks, pos, [False]) || MatchesAt(toks, pos, [Nil]) {
      assert LiteralToken(toks[pos], r.expr.value.value);
    } else if MatchesAt(toks, pos, [LeftParen]) {
      var inner := ExpressionAt(toks, pos + 1);
      LevelSound(toks, 1, pos + 1);
      if r.expr.Some? {
        assert Spells(toks, pos, Grouping(inner.expr.value));
      }
    }
  }

  /** Failure propagates: when the leading operand fails (an unclosed `(`
      say), every rung above it fails too, the whole expression included,
      whatever follows. */
  lemma {:induction false} LeadingFailureFails(toks: seq<Token>, level: nat, pos: nat)
    requires WellTerminated(toks) && pos < |toks| && 1 <= level <= 5
    requires UnaryAt(toks, pos).expr.None?
    ensures LevelAt(toks, level, pos).expr.None?
    decreases 5 - level
  {
    if level < 5 {
      LeadingFailureFails(toks, level + 1, pos);
    }
  }

  /** A `(` whose expression is not followed by `)` fails. */
  lemma UnclosedGroupFails(toks: seq<Token>, pos: nat)
    requires WellTerminated(toks) && pos < |toks| && toks[pos].kind == LeftParen
    requires !CheckAt(toks, ExpressionAt(toks, pos + 1).pos, RightParen)
    ensures ExpressionAt(toks, pos).expr.None?
  {
    assert !MatchesAt(toks, pos, [Bang, Minus]) && MatchesAt(toks, pos, [LeftParen]);
    assert UnaryAt(toks, pos).expr.None?;
    LeadingFailureFails(toks, 1, pos);
  }

  // ---------------------------------------------------------------------
  // Completeness: every well-nested tree is recovered from its spelling

  lemma {:induction false} LevelComplete(toks: seq<Token>, level: nat, pos: nat, e: Expr, q: nat)
    requires WellTerminated(toks) && pos < |toks| && 1 <= level <= 5
    requires Covers(toks, pos, level, e, q) && Ends(toks, q, level)
    ensures LevelAt(toks, level, pos) == Parsed(Some(e), q)
    decreases e, 2 * (5 - level) + 1, 0
  {
    if level < 5 {
      BinaryComplete(toks, level, pos, e, q);
    } else {
      UnaryComplete(toks, pos, e, q);
    }
  }

  lemma {:induction false} UnaryComplete(toks: seq<Token>, pos: nat, e: Expr, q: nat)
    requires WellTerminated(toks) && pos < |toks|
    requires Covers(toks, pos, 5, e, q) && q < |toks|
    ensures UnaryAt(toks, pos) == Parsed(Some(e), q)
    decreases e, 0, 0
  {
    match e
    case Literal(v) =>
      assert LiteralToken(toks[pos], v);
      assert UnaryAt(toks, pos) == PrimaryAt(toks, pos);
    case Unary(op, right) =>
      assert MatchesAt(toks, pos, [Bang, Minus]);
      LevelComplete(toks, 5, pos + 1, right, q);
    case Grouping(inner) =>
      var close := q - 1;
      assert toks[pos].kind == LeftParen && toks[close].kind == RightParen;
      assert Spells(toks, pos + 1, inner) && WellNested(inner);
      assert Top(inner) >= 1 by {
        if inner.Binary? { assert WellNested(inner); }
      }
      LevelComplete(toks, 1, pos + 1, inner, close);
      GroupingStep(toks, pos, inner, close);
  }

  /** One parenthesised operand: `(`, a parsed expression, `)`. */
  lemma GroupingStep(toks: seq<Token>, pos: nat, inner: Expr, close: nat)
    requires WellTerminated(toks) && pos < close < |toks|
    requires toks[pos].kind == LeftParen && toks[close].kind == RightParen
    requires LevelAt(toks, 1, pos + 1) == Parsed(Some(inner), close)
    ensures UnaryAt(toks, pos) == Parsed(Some(Grouping(inner)), close + 1)
  {
    assert !MatchesAt(toks, pos, [Bang, Minus]);
    assert UnaryAt(toks, pos) == PrimaryAt(toks, pos);
    assert ExpressionAt(toks, pos + 1) == Parsed(Some(inner), close);
    assert MatchesAt(toks, pos, [LeftParen]) && CheckAt(toks, close, RightParen);
  }

  /** A binary rung returns the tree spelled up to `q` and then runs its
      loop from there: operators of looser rungs stop that loop. */
  lemma {:induction false} BinaryComplete(toks: seq<Token>, level: nat, pos: nat, e: Expr, q: nat)
    requires WellTerminated(toks) && pos < |toks| && 1 <= level <= 4
    requires Covers(toks, pos, level, e, q) && Ends(toks, q, level + 1)
    ensures BinaryAt(toks, level, pos) == FoldAt(toks, level, Some(e), q)
    decreases e, 2 * (5 - level), 1
  {
    if Top(e) > level {
      LevelComplete(toks, level + 1, pos, e, q);
    } else {
      ChainComplete(toks, level, pos, e, q);
    }
  }

  lemma {:induction false} ChainComplete(toks: seq<Token>, level: nat, pos: nat, e: Expr, q: nat)
    requires WellTerminated(toks) && pos < |toks| && 1 <= level <= 4
    requires Covers(toks, pos, level, e, q) && Ends(toks, q, level + 1) && Top(e) == level
    ensures BinaryAt(toks, level, pos) == FoldAt(toks, level, Some(e), q)
    decreases e, 2 * (5 - level), 0
  {
    var Binary(left, op, right) := e;
    var mid := pos + Width(left);
    CoversBinary(toks, pos, level, e, q);
    assert Ends(toks, mid, level + 1);
    BinaryComplete(toks, level, pos, left, mid);
    LevelComplete(toks, level + 1, mid + 1, right, q);
    FoldStep(toks, level, left, op, mid, right, q);
  }

  /** A binary tree at the top of rung `level` splits into a left operand
      of the same rung, its operator and a right operand of the next. */
  lemma CoversBinary(toks: seq<Token>, pos: nat, level: nat, e: Expr, q: nat)
    requires e.Binary? && Covers(toks, pos, level, e, q) && Top(e) == level
    ensures var mid := pos + Width(e.left);
      && Covers(toks, pos, level, e.left, mid)
      && mid < |toks| && toks[mid] == e.op && Prec(e.op.kind) == level
      && Covers(toks, mid + 1, level + 1, e.right, q)
  {
    assert WellNested(e) && Spells(toks, pos, e);
  }

  /** One turn of a binary level's loop: an operator of the level and a
      parsed operand fold onto the accumulated tree. */
  lemma FoldStep(toks: seq<Token>, level: nat, left: Expr, op: Token, mid: nat, right: Expr, q: nat)
    requires WellTerminated(toks) && mid < q < |toks| && 1 <= level <= 4
    requires toks[mid] == op && Prec(op.kind) == level
    requires LevelAt(toks, level + 1, mid + 1) == Parsed(Some(right), q)
    ensures FoldAt(toks, level, Some(left), mid) == FoldAt(toks, level, Some(Binary(left, op, right)), q)
  {
    assert MatchesAt(toks, mid, Operators(level));
  }

  /** The parser's meaning, both directions: `expression` succeeds from
      `pos` with `e`, leaving the cursor at `q`, exactly when `e` is well
      nested, the tokens from `pos` to `q` spell it, and the token at `q`
      is not a binary operator. Precedence, left-associativity and the
      role of parentheses all follow from this. */
  lemma ExpressionMeaning(toks: seq<Token>, pos: nat, e: Expr, q: nat)
    requires WellTerminated(toks) && pos < |toks|
    ensures ExpressionAt(toks, pos) == Parsed(Some(e), q) <==> Covers(toks, pos, 1, e, q) && Ends(toks, q, 1)
  {
    LevelSound(toks, 1, pos);
    if Covers(toks, pos, 1, e, q) && Ends(toks, q, 1) {
      LevelComplete(toks, 1, pos, e, q);
    }
  }
}
