/** The `Parser` struct of src/parser.rs: a token list and a cursor that the
    recursive-descent methods move. Every method is proved to return the
    tree, and leave the cursor, exactly where the matching function of
    module Parsing says. */
module Parser {
  import opened Wrappers
  import opened Tokens
  import opened Syntax
  import opened Parsing

  class Parser {
    const tokens: seq<Token>
    var current: nat

    /** The cursor stays on a token of a list that ends in EOF. */
    ghost predicate Valid()
      reads this
    {
      WellTerminated(tokens) && current < |tokens|
    }

    constructor (tokens: seq<Token>)
      requires WellTerminated(tokens)
      ensures Valid() && this.tokens == tokens && current == 0
    {
      this.tokens := tokens;
      current := 0;
    }

    function Peek(): (t: Token)
      reads this
      requires Valid()
      ensures t in tokens
    {
      tokens[current]
    }

    function Previous(): (t: Token)
      reads this
      requires Valid() && current > 0
      ensures t in tokens
    {
      tokens[current - 1]
    }

    /** At the end marker; the cursor never moves past it. */
    predicate IsAtEnd(): (r: bool)
      reads this
      requires Valid()
      ensures current == |tokens| - 1 ==> r
    {
      Peek().kind == Eof
    }

    /** Whether the current token has kind `kind`; never at the end marker,
        whatever is asked for (even EOF). */
    predicate Check(kind: TokenKind): (r: bool)
      reads this
      requires Valid()
      ensures r <==> !IsAtEnd() && tokens[current].kind == kind
      ensures r ==> kind != Eof
    {
      if IsAtEnd() then false else Peek().kind == kind
    }

    /** Steps over the current token unless it is the end marker and returns
        the token just behind the cursor. The source indexes one before the
        cursor, so it may not be called with the cursor at 0 on an EOF token. */
    method Advance() returns (t: Token)
      requires Valid() && (current > 0 || !IsAtEnd())
      modifies this`current
      ensures Valid()
      ensures current == if old(IsAtEnd()) then old(current) else old(current) + 1
      ensures current > 0 && t == tokens[current - 1]
    {
      if !IsAtEnd() {
        current := current + 1;
      }
      t := Previous();
    }

    /** Consumes the current token when its kind is among `types`, trying
        them in order. */
    method MatchToken(types: seq<TokenKind>) returns (matched: bool)
      requires Valid()
      modifies this`current
      ensures Valid()
      ensures matched == MatchesAt(tokens, old(current), types)
      ensures current == if matched then old(current) + 1 else old(current)
    {
      for i := 0 to |types|
        invariant current == old(current)
        invariant forall j | 0 <= j < i :: !CheckAt(tokens, current, types[j])
      {
        if Check(types[i]) {
          var _ := Advance();
          return true;
        }
      }
      return false;
    }

    /** Consumes a token of kind `kind` or fails without moving; the source
        prints `message` on failure, which is not modelled. */
    method Consume(kind: TokenKind, message: string) returns (r: Option<Token>)
      requires Valid()
      modifies this`current
      ensures Valid()
      ensures r.Some? <==> CheckAt(tokens, old(current), kind)
      ensures r.Some? ==> r.value == tokens[old(current)] && current == old(current) + 1
      ensures r.None? ==> current == old(current)
    {
      if Check(kind) {
        var t := Advance();
        return Some(t);
      }
      return None;
    }

    method Parse() returns (e: Option<Expr>)
      requires Valid()
      modifies this`current
      ensures Valid() && Parsed(e, current) == ExpressionAt(tokens, old(current))
      decreases |tokens| - current, 17
    {
      e := Expression();
    }

    method Expression() returns (e: Option<Expr>)
      requires Valid()
      modifies this`current
      ensures Valid() && Parsed(e, current) == ExpressionAt(tokens, old(current))
      decreases |tokens| - current, 16
    {
      e := Equality();
    }

    method Equality() returns (e: Option<Expr>)
      requires Valid()
      modifies this`current
      ensures Valid() && Parsed(e, current) == LevelAt(tokens, 1, old(current))
      decreases |tokens| - current, 15
    {
      var expr := Comparison();
      ghost var at := current;
      var matched := MatchToken([BangEqual, EqualEqual]);
      while matched
        invariant Valid() && old(current) <= at < |tokens|
        invariant matched == MatchesAt(tokens, at, Operators(1))
        invariant current == if matched then at + 1 else at
        invariant FoldAt(tokens, 1, expr, at) == LevelAt(tokens, 1, old(current))
        decreases |tokens| - at
      {
        FoldTurn(tokens, 1, expr, at);
        var operator := Previous();
        var right := Comparison();
        if expr.None? || right.None? {
          return None;
        }
        expr := Some(Binary(expr.value, operator, right.value));
        at := current;
        matched := MatchToken([BangEqual, EqualEqual]);
      }
      return expr;
    }

    method Comparison() returns (e: Option<Expr>)
      requires Valid()
      modifies this`current
      ensures Valid() && Parsed(e, current) == LevelAt(tokens, 2, old(current))
      decreases |tokens| - current, 12
    {
      var expr := Term();
      ghost var at := current;
      var matched := MatchToken([Greater, GreaterEqual, Less, LessEqual]);
      while matched
        invariant Valid() && old(current) <= at < |tokens|
        invariant matched == MatchesAt(tokens, at, Operators(2))
        invariant current == if matched then at + 1 else at
        invariant FoldAt(tokens, 2, expr, at) == LevelAt(tokens, 2, old(current))
        decreases |tokens| - at
      {
        FoldTurn(tokens, 2, expr, at);
        var operator := Previous();
        var right := Term();
        if expr.None? || right.None? {
          return None;
        }
        expr := Some(Binary(expr.value, operator, right.value));
        at := current;
        matched := MatchToken([Greater, GreaterEqual, Less, LessEqual]);
      }
      return expr;
    }

    method Term() returns (e: Option<Expr>)
      requires Valid()
      modifies this`current
      ensures Valid() && Parsed(e, current) == LevelAt(tokens, 3, old(current))
      decreases |tokens| - current, 9
    {
      var expr := Factor();
      ghost var at := current;
      var matched := MatchToken([Plus, Minus]);
      while matched
        invariant Valid() && old(current) <= at < |tokens|
        invariant matched == MatchesAt(tokens, at, Operators(3))
        invariant current == if matched then at + 1 else at
        invariant FoldAt(tokens, 3, expr, at) == LevelAt(tokens, 3, old(current))
        decreases |tokens| - at
      {
        FoldTurn(tokens, 3, expr, at);
        var operator := Previous();
        var right := Factor();
        if expr.None? || right.None? {
          return None;
        }
        expr := Some(Binary(expr.value, operator, right.value));
        at := current;
        matched := MatchToken([Plus, Minus]);
      }
      return expr;
    }

    method Factor() returns (e: Option<Expr>)
      requires Valid()
      modifies this`current
      ensures Valid() && Parsed(e, current) == LevelAt(tokens, 4, old(current))
      decreases |tokens| - current, 6
    {
      var expr := Unary();
      assert LevelAt(tokens, 5, old(current)) == UnaryAt(tokens, old(current));
      ghost var at := current;
      var matched := MatchToken([Star, Slash]);
      while matched
        invariant Valid() && old(current) <= at < |tokens|
        invariant matched == MatchesAt(tokens, at, Operators(4))
        invariant current == if matched then at + 1 else at
        invariant FoldAt(tokens, 4, expr, at) == LevelAt(tokens, 4, old(current))
        decreases |tokens| - at
      {
        FoldTurn(tokens, 4, expr, at);
        var operator := Previous();
        var right := Unary();
        assert LevelAt(tokens, 5, at + 1) == UnaryAt(tokens, at + 1);
        if expr.None? || right.None? {
          return None;
        }
        expr := Some(Binary(expr.value, operator, right.value));
        at := current;
        matched := MatchToken([Star, Slash]);
      }
      return expr;
    }

    method Unary() returns (e: Option<Expr>)
      requires Valid()
      modifies this`current
      ensures Valid() && Parsed(e, current) == UnaryAt(tokens, old(current))
      decreases |tokens| - current, 2
    {
      var matched := MatchToken([Bang, Minus]);
      if matched {
        var operator := Previous();
        var right := Unary();
        if right.None? {
          return None;
        }
        return Some(Expr.Unary(operator, right.value));
      }
      e := Primary();
    }

    method Primary() returns (e: Option<Expr>)
      requires Valid()
      modifies this`current
      ensures Valid() && Parsed(e, current) == PrimaryAt(tokens, old(current))
      decreases |tokens| - current, 1
    {
      var matched := MatchToken([Number]);
      if matched {
        return Some(Literal(Previous().literal));
      }
      matched := MatchToken([String]);
      if matched {
        return Some(Literal(Previous().literal));
      }
      matched := MatchToken([True]);
      if matched {
        return Some(Literal(Some("true")));
      }
      matched := MatchToken([False]);
      if matched {
        return Some(Literal(Some("false")));
      }
      matched := MatchToken([Nil]);
      if matched {
        return Some(Literal(None));
      }
      matched := MatchToken([LeftParen]);
      if matched {
        var expr := Expression();
        var closed := Consume(RightParen, "Expect ')' after expression.");
        if closed.None? || expr.None? {
          return None;
        }
        return Some(Grouping(expr.value));
      }
      return None;
    }
  }

  /** `Parser::new(tokens).parse()`: the tree `expression` builds from the
      first token. A tree it returns is well nested and spelled by a prefix
      of the tokens; what follows that prefix is not looked at. */
  method ParseTokens(tokens: seq<Token>) returns (e: Option<Expr>)
    requires WellTerminated(tokens)
    ensures e == ExpressionAt(tokens, 0).expr
    ensures e.Some? ==> WellNested(e.value) && Spells(tokens, 0, e.value)
  {
    var parser := new Parser(tokens);
    e := parser.Parse();
    LevelSound(tokens, 1, 0);
  }
}
