/** Concrete consequences of the parser's meaning: precedence, left
    associativity, an unclosed parenthesis and trailing tokens. */
module ParsingExamples {
  import opened Wrappers
  import opened Tokens
  import opened Syntax
  import opened Parsing

  function Num(text: string): Token {
    Token(Number, text, Some(text), 1)
  }

  function Op(kind: TokenKind, text: string): Token {
    Token(kind, text, None, 1)
  }

  const End := Token(Eof, "", None, 1)

  /** `1 + 2 * 3` groups as `1 + (2 * 3)`: `*` binds more tightly. */
  lemma TighterOperatorNestsRight()
    ensures var toks := [Num("1"), Op(Plus, "+"), Num("2"), Op(Star, "*"), Num("3"), End];
      ExpressionAt(toks, 0) ==
        Parsed(Some(Binary(Literal(Some("1")), Op(Plus, "+"), Binary(Literal(Some("2")), Op(Star, "*"), Literal(Some("3"))))), 5)
  {
    var toks := [Num("1"), Op(Plus, "+"), Num("2"), Op(Star, "*"), Num("3"), End];
    var product := Binary(Literal(Some("2")), Op(Star, "*"), Literal(Some("3")));
    var e := Binary(Literal(Some("1")), Op(Plus, "+"), product);
    assert Spells(toks, 2, product);
    assert Spells(toks, 0, e);
    ExpressionMeaning(toks, 0, e, 5);
  }

  /** `1 - 2 - 3` groups as `(1 - 2) - 3`: operators of one level fold to
      the left. */
  lemma SameLevelFoldsLeft()
    ensures var toks := [Num("1"), Op(Minus, "-"), Num("2"), Op(Minus, "-"), Num("3"), End];
      ExpressionAt(toks, 0) ==
        Parsed(Some(Binary(Binary(Literal(Some("1")), Op(Minus, "-"), Literal(Some("2"))), Op(Minus, "-"), Literal(Some("3")))), 5)
  {
    var toks := [Num("1"), Op(Minus, "-"), Num("2"), Op(Minus, "-"), Num("3"), End];
    var difference := Binary(Literal(Some("1")), Op(Minus, "-"), Literal(Some("2")));
    var e := Binary(difference, Op(Minus, "-"), Literal(Some("3")));
    assert Spells(toks, 0, difference);
    assert Spells(toks, 0, e);
    ExpressionMeaning(toks, 0, e, 5);
  }

  /** `(1` fails: the missing `)` is reported and the cursor is left on the
      end marker. */
  lemma UnclosedParenthesisFails()
    ensures ExpressionAt([Op(LeftParen, "("), Num("1"), End], 0) == Parsed(None, 2)
  {
    var toks := [Op(LeftParen, "("), Num("1"), End];
    assert LevelAt(toks, 1, 1) == Parsed(Some(Literal(Some("1"))), 2) by {
      LevelComplete(toks, 1, 1, Literal(Some("1")), 2);
    }
    assert PrimaryAt(toks, 0) == Parsed(None, 2);
    assert LevelAt(toks, 5, 0) == Parsed(None, 2) by {
      assert UnaryAt(toks, 0) == PrimaryAt(toks, 0);
    }
    // no operator at the end marker: every rung above hands the failure on
    assert AtEnd(toks, 2);
    assert LevelAt(toks, 4, 0) == Parsed(None, 2);
    assert LevelAt(toks, 3, 0) == Parsed(None, 2);
    assert LevelAt(toks, 2, 0) == Parsed(None, 2);
    assert LevelAt(toks, 1, 0) == Parsed(None, 2);
    assert ExpressionAt(toks, 0) == Parsed(None, 2);
  }

  /** `1 2` yields just `1`: `parse` stops after one expression and does not
      require the end marker to follow. */
  lemma TrailingTokensIgnored()
    ensures ExpressionAt([Num("1"), Num("2"), End], 0) == Parsed(Some(Literal(Some("1"))), 1)
  {
    ExpressionMeaning([Num("1"), Num("2"), End], 0, Literal(Some("1")), 1);
  }
}
