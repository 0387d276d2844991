/** The six-variant expression tree of src/expr.rs and its `Display`
    printer, which writes a tree in parenthesised prefix form:
    `(+ 1.0 (group (- 2.0)))`. Number literals are 64-bit floats; how one
    is formatted is the parameter `fmt`. */
module Ast {
  import opened Wrappers
  import opened Tokens

  datatype LiteralValue<F> =
    | StringLiteral(text: string)
    | NumberLiteral(number: F)
    | BooleanLiteral(flag: bool)
    | Nil

  datatype Expr<F> =
    | Assign(name: Token, value: Expr<F>)
    | Binary(left: Expr<F>, operator: Token, right: Expr<F>)
    | Grouping(inner: Expr<F>)
    | Literal(literal: LiteralValue<F>)
    | Unary(operator: Token, right: Expr<F>)
    | Variable(name: Token)

  /** Float formatting: `isWhole` tests a zero fractional part, `oneDecimal`
      is the `{:.1}` format, `shortest` the plain `{}` format. */
  datatype NumberFormat<!F> = NumberFormat(isWhole: F -> bool, oneDecimal: F -> string, shortest: F -> string)

  function Parens(s: string): string {
    "(" + s + ")"
  }

  /** A string literal prints its raw text, without quotes; booleans and
      nil print as keywords. */
  function ShowLiteral<F>(fmt: NumberFormat<F>, literal: LiteralValue<F>): (s: string)
    ensures literal.StringLiteral? ==> s == literal.text
    ensures literal.BooleanLiteral? ==> s == (if literal.flag then "true" else "false")
    ensures literal.Nil? ==> s == "nil"
    ensures literal.BooleanLiteral? || literal.Nil? ==> ParenFree(s)
  {
    match literal
    case StringLiteral(text) => text
    case NumberLiteral(n) => if fmt.isWhole(n) then fmt.oneDecimal(n) else fmt.shortest(n)
    case BooleanLiteral(b) => if b then "true" else "false"
    case Nil => "nil"
  }

  /** The `Display` text of a tree: every node but a literal or a variable
      is written inside one pair of parentheses. */
  function Show<F>(fmt: NumberFormat<F>, e: Expr<F>): (s: string)
    ensures !e.Literal? && !e.Variable? ==> 2 <= |s| && s[0] == '(' && s[|s| - 1] == ')'
  {
    match e
    case Binary(left, operator, right) => Parens(operator.lexeme + " " + Show(fmt, left) + " " + Show(fmt, right))
    case Grouping(inner) => Parens("group " + Show(fmt, inner))
    case Literal(literal) => ShowLiteral(fmt, literal)
    case Unary(operator, right) => Parens(operator.lexeme + " " + Show(fmt, right))
    case Variable(name) => name.lexeme
    case Assign(name, value) => Parens("assign " + name.lexeme + " = " + Show(fmt, value))
  }

  // ---------------------------------------------------------------------
  // Parenthesis structure of the printed form

  function Weight(c: char): int {
    if c == '(' then 1 else if c == ')' then -1 else 0
  }

  /** Opening minus closing parentheses in `s`. */
  function Net(s: string): int
    decreases |s|
  {
    if s == [] then 0 else Net(s[..|s| - 1]) + Weight(s[|s| - 1])
  }

  /** Every prefix of `s` has at least `k` more openings than closings. */
  predicate Floor(s: string, k: int) {
    forall i | 0 <= i <= |s| :: Net(s[..i]) >= k
  }

  /** Every parenthesis is closed, and never before it was opened. */
  predicate Balanced(s: string) {
    Net(s) == 0 && Floor(s, 0)
  }

  /** `s` is one parenthesised group: the parenthesis opened by its first
      character closes at its last and not before. */
  predicate Enclosed(s: string) {
    && 2 <= |s| && s[0] == '(' && s[|s| - 1] == ')' && Balanced(s)
    && forall i | 0 < i < |s| :: Net(s[..i]) >= 1
  }

  predicate ParenFree(s: string) {
    forall c | c in s :: c != '(' && c != ')'
  }

  /** The texts the printer copies verbatim: lexemes, string literals and
      formatted numbers. */
  predicate PlainLeaves<F>(fmt: NumberFormat<F>, e: Expr<F>) {
    match e
    case Binary(left, operator, right) => ParenFree(operator.lexeme) && PlainLeaves(fmt, left) && PlainLeaves(fmt, right)
    case Grouping(inner) => PlainLeaves(fmt, inner)
    case Literal(literal) => ParenFree(ShowLiteral(fmt, literal))
    case Unary(operator, right) => ParenFree(operator.lexeme) && PlainLeaves(fmt, right)
    case Variable(name) => ParenFree(name.lexeme)
    case Assign(name, value) => ParenFree(name.lexeme) && PlainLeaves(fmt, value)
  }

  lemma {:induction false} NetConcat(a: string, b: string)
    ensures Net(a + b) == Net(a) + Net(b)
    decreases |b|
  {
    if b == [] {
      assert a + b == a;
    } else {
      var b' := b[..|b| - 1];
      assert (a + b)[..|a + b| - 1] == a + b';
      NetConcat(a, b');
    }
  }

  lemma {:induction false} ParenFreeNet(s: string)
    requires ParenFree(s)
    ensures Net(s) == 0
    decreases |s|
  {
    if s != [] {
      assert s[|s| - 1] in s;
      var s' := s[..|s| - 1];
      assert forall c | c in s' :: c in s;
      ParenFreeNet(s');
    }
  }

  lemma ParenFreeBalanced(s: string)
    requires ParenFree(s)
    ensures Balanced(s)
  {
    ParenFreeNet(s);
    forall i | 0 <= i <= |s|
      ensures Net(s[..i]) >= 0
    {
      assert forall c | c in s[..i] :: c in s;
      ParenFreeNet(s[..i]);
    }
  }

  /** Prefixes of a concatenation: the floor of `a + b` is the lower of
      the floor of `a` and the floor of `b` lifted by the net of `a`. */
  lemma FloorConcat(a: string, b: string, k: int)
    requires Floor(a, k) && Floor(b, k - Net(a))
    ensures Floor(a + b, k)
  {
    forall i | 0 <= i <= |a + b|
      ensures Net((a + b)[..i]) >= k
    {
      if i <= |a| {
        assert (a + b)[..i] == a[..i];
      } else {
        assert (a + b)[..i] == a + b[..i - |a|];
        NetConcat(a, b[..i - |a|]);
      }
    }
  }

  lemma BalancedConcat(a: string, b: string)
    requires Balanced(a) && Balanced(b)
    ensures Balanced(a + b)
  {
    NetConcat(a, b);
    FloorConcat(a, b, 0);
  }

  /** Wrapping a balanced text in parentheses gives one enclosed group. */
  lemma ParensEnclosed(s: string)
    requires Balanced(s)
    ensures Enclosed(Parens(s))
  {
    var p := Parens(s);
    assert p == ("(" + s) + ")";
    assert Net("(") == 1 && Net(")") == -1 by {
      assert "("[..0] == [] && ")"[..0] == [];
    }
    NetConcat("(", s);
    NetConcat("(" + s, ")");
    forall i | 0 < i < |p|
      ensures Net(p[..i]) >= 1
    {
      assert p[..i] == "(" + s[..i - 1];
      NetConcat("(", s[..i - 1]);
    }
    assert p[..0] == [];
    assert p[..|p|] == p;
  }

  /** The printed form of a tree over plain leaves is balanced, and each
      compound node (binary, unary, grouping, assignment) prints as a
      single parenthesised group. */
  lemma {:induction false} ShowIsBalanced<F>(fmt: NumberFormat<F>, e: Expr<F>)
    requires PlainLeaves(fmt, e)
    ensures Balanced(Show(fmt, e))
    ensures !e.Literal? && !e.Variable? ==> Enclosed(Show(fmt, e))
  {
    match e
    case Literal(literal) =>
      ParenFreeBalanced(ShowLiteral(fmt, literal));
    case Variable(name) =>
      ParenFreeBalanced(name.lexeme);
    case Binary(left, operator, right) =>
      ShowIsBalanced(fmt, left);
      ShowIsBalanced(fmt, right);
      ParenFreeBalanced(operator.lexeme);
      ParenFreeBalanced(" ");
      var l, r := Show(fmt, left), Show(fmt, right);
      BalancedConcat(operator.lexeme, " ");
      BalancedConcat(operator.lexeme + " ", l);
      BalancedConcat(operator.lexeme + " " + l, " ");
      BalancedConcat(operator.lexeme + " " + l + " ", r);
      ParensEnclosed(operator.lexeme + " " + l + " " + r);
    case Grouping(inner) =>
      ShowIsBalanced(fmt, inner);
      ParenFreeBalanced("group ");
      BalancedConcat("group ", Show(fmt, inner));
      ParensEnclosed("group " + Show(fmt, inner));
    case Unary(operator, right) =>
      ShowIsBalanced(fmt, right);
      ParenFreeBalanced(operator.lexeme);
      ParenFreeBalanced(" ");
      BalancedConcat(operator.lexeme, " ");
      BalancedConcat(operator.lexeme + " ", Show(fmt, right));
      ParensEnclosed(operator.lexeme + " " + Show(fmt, right));
    case Assign(name, value) =>
      ShowIsBalanced(fmt, value);
      ParenFreeBalanced("assign ");
      ParenFreeBalanced(name.lexeme);
      ParenFreeBalanced(" = ");
      BalancedConcat("assign ", name.lexeme);
      BalancedConcat("assign " + name.lexeme, " = ");
      BalancedConcat("assign " + name.lexeme + " = ", Show(fmt, value));
      ParensEnclosed("assign " + name.lexeme + " = " + Show(fmt, value));
  }

  // ---------------------------------------------------------------------
  // Integer-valued numbers

  function DigitChar(d: nat): char
    requires d < 10
  {
    "0123456789"[d]
  }

  function DigitValue(c: char): nat {
    if '0' <= c <= '9' then (c - '0') as nat else 0
  }

  /** Decimal digits of `n`, most significant first, no leading zeros. */
  function NatText(n: nat): (s: string)
    ensures |s| >= 1 && AllDigits(s)
    decreases n
  {
    if n < 10 then [DigitChar(n)] else NatText(n / 10) + [DigitChar(n % 10)]
  }

  predicate AllDigits(s: string) {
    forall c | c in s :: '0' <= c <= '9'
  }

  /** An optional `-` followed by at least one decimal digit, and nothing
      else: no point, no space. */
  predicate IntegerText(s: string) {
    if |s| > 0 && s[0] == '-' then |s| >= 2 && AllDigits(s[1..]) else |s| >= 1 && AllDigits(s)
  }

  /** The integer part of the `{:.1}` format: a `-` before negative values. */
  function IntText(n: int): string {
    if n < 0 then "-" + NatText(-n) else NatText(n)
  }

  /** Reads back decimal digits. */
  function ParseNat(s: string): nat
    decreases |s|
  {
    if s == [] then 0 else ParseNat(s[..|s| - 1]) * 10 + DigitValue(s[|s| - 1])
  }

  function ParseInt(s: string): int {
    if |s| > 0 && s[0] == '-' then -(ParseNat(s[1..]) as int) else ParseNat(s)
  }

  /** Number formatting restricted to integer values: every value is whole,
      so the printer always takes the `{:.1}` branch. */
  function IntegerFormat(): NumberFormat<int> {
    NumberFormat(n => true, n => IntText(n) + ".0", n => IntText(n))
  }

  lemma DigitRoundTrip(d: nat)
    requires d < 10
    ensures DigitValue(DigitChar(d)) == d
  {
  }

  lemma {:induction false} NatTextRoundTrip(n: nat)
    ensures ParseNat(NatText(n)) == n
    decreases n
  {
    var s := NatText(n);
    DigitRoundTrip(n % 10);
    if n < 10 {
      assert s[..0] == [];
    } else {
      NatTextRoundTrip(n / 10);
      assert s[..|s| - 1] == NatText(n / 10) && s[|s| - 1] == DigitChar(n % 10);
      assert n == n / 10 * 10 + n % 10;
    }
  }

  /** The printed integer reads back as the same integer. */
  lemma IntTextRoundTrip(n: int)
    ensures IntegerText(IntText(n))
    ensures ParseInt(IntText(n)) == n
  {
    var m: nat := if n < 0 then -n else n;
    var digits := NatText(m);
    NatTextRoundTrip(m);
    assert ParseNat(digits) == m;
    if n < 0 {
      assert IntText(n) == "-" + digits && ("-" + digits)[1..] == digits;
      SignedDigits(digits);
    } else {
      assert IntText(n) == digits && digits[0] in digits;
      UnsignedDigits(digits);
    }
  }

  lemma SignedDigits(digits: string)
    ensures ParseInt("-" + digits) == -(ParseNat(digits) as int)
  {
    assert ("-" + digits)[1..] == digits;
  }

  lemma UnsignedDigits(digits: string)
    requires |digits| >= 1 && AllDigits(digits)
    ensures ParseInt(digits) == ParseNat(digits)
  {
    assert digits[0] in digits;
  }

  /** A whole number prints with exactly one decimal place (`3` prints as
      `3.0`): before the `.0` stand only a sign and digits, which read back
      as the number. */
  lemma WholeNumberPrinting(n: int)
    ensures var s := Show(IntegerFormat(), Literal(NumberLiteral(n)));
      && |s| >= 3 && s[|s| - 2..] == ".0"
      && IntegerText(s[..|s| - 2])
      && ParseInt(s[..|s| - 2]) == n
      && ParenFree(s)
  {
    var s := Show(IntegerFormat(), Literal(NumberLiteral(n)));
    assert s == IntText(n) + ".0";
    assert s[..|s| - 2] == IntText(n);
    IntTextRoundTrip(n);
  }

  lemma ThreePrintsWithOneDecimal()
    ensures Show(IntegerFormat(), Literal(NumberLiteral(3))) == "3.0"
  {
    assert NatText(3) == "3";
  }

  /** `true == (nil)` prints as `(== true (group nil))`. */
  lemma ShowExample<F>(fmt: NumberFormat<F>)
    ensures Show(fmt, Binary(Literal(BooleanLiteral(true)), Token(EqualEqual, "==", None, 1), Grouping(Literal(LiteralValue.Nil))))
            == "(== true (group nil))"
  {
    assert Show(fmt, Grouping(Literal(LiteralValue.Nil))) == "(group nil)" by {
      assert "(" + ("group " + "nil") + ")" == "(group nil)";
    }
    assert "(" + ("==" + " " + "true" + " " + "(group nil)") + ")" == "(== true (group nil))";
  }
}
