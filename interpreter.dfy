/** The tree-walking evaluator of src/interpreter.rs. Every value is text:
    a literal evaluates to its text (numbers re-formatted), `!` and the
    comparisons give "true" or "false", arithmetic formats its result. A
    failure is a `RuntimeError` carrying the operator's line.

    The 64-bit floating-point behaviour the evaluator relies on (parsing
    text as a float, formatting, the four operations, the comparisons) is
    not modelled: it is the parameter `fl`, and every property below holds
    whatever those operations compute. */
module Interpreter {
  import opened Wrappers
  import opened Tokens
  import opened Syntax
  import Parsing

  datatype RuntimeError = RuntimeError(message: string, line: nat)

  /** The floating-point operations of the host language, over a float
      type `F`: `parse` is `str::parse::<f64>` (None when it fails),
      `isWhole` tests a zero fractional part, `wholeText` formats the value
      cast to a 64-bit integer, `text` is the float's `to_string`. */
  datatype Floats<!F> = Floats(
    parse: string -> Option<F>,
    isWhole: F -> bool,
    wholeText: F -> string,
    text: F -> string,
    neg: F -> F,
    add: (F, F) -> F,
    sub: (F, F) -> F,
    mul: (F, F) -> F,
    div: (F, F) -> F,
    isZero: F -> bool,
    greater: (F, F) -> bool,
    greaterEqual: (F, F) -> bool,
    less: (F, F) -> bool,
    lessEqual: (F, F) -> bool)

  const OperandNumber := "Operand must be a number."
  const OperandsNumbersOrStrings := "Operands must be two numbers or two strings."
  const OperandsNumbers := "Operands must be numbers."
  const DivisionByZero := "Division by zero."

  /** The messages an evaluation of a parser-built tree can fail with. */
  const OperandMessages: set<string> := {OperandNumber, OperandsNumbersOrStrings, OperandsNumbers, DivisionByZero}

  /** Rust's `bool::to_string`. */
  function BoolText(b: bool): string {
    if b then "true" else "false"
  }

  /** Only the texts "false" and "nil" are falsy; everything else,
      including "0" and "", is truthy. */
  predicate IsTruthy(value: string): (r: bool)
    ensures !r <==> value in {"false", "nil"}
    ensures value in {"0", "", "true"} ==> r
  {
    !(value == "false" || value == "nil")
  }

  function IsNumeric<F>(fl: Floats<F>, value: string): bool {
    fl.parse(value).Some?
  }

  /** The lines of the operator tokens of a tree: the only lines an error
      can be reported on. */
  function OperatorLines(e: Expr): set<nat> {
    match e
    case Literal(_) => {}
    case Unary(op, right) => {op.line} + OperatorLines(right)
    case Binary(left, op, right) => OperatorLines(left) + {op.line} + OperatorLines(right)
    case Grouping(inner) => OperatorLines(inner)
  }

  /** Both operands must parse as floats. */
  function CheckNumericOperands<F>(fl: Floats<F>, left: string, right: string, line: nat): (r: Result<(), RuntimeError>)
    ensures r.Success? <==> IsNumeric(fl, left) && IsNumeric(fl, right)
    ensures r.Failure? ==> r.error == RuntimeError(OperandsNumbers, line)
  {
    if fl.parse(left).None? || fl.parse(right).None? then Failure(RuntimeError(OperandsNumbers, line))
    else Success(())
  }

  function Evaluate<F>(fl: Floats<F>, e: Expr): (r: Result<string, RuntimeError>)
    ensures r.Failure? ==> r.error.line in OperatorLines(e)
    ensures r.Failure? && WellNested(e) ==> r.error.message in OperandMessages
    decreases e, 1
  {
    match e
    case Literal(value) => VisitLiteral(fl, value)
    case Unary(op, right) => VisitUnary(fl, op, right)
    case Binary(left, op, right) => VisitBinary(fl, left, op, right)
    case Grouping(inner) => VisitGrouping(fl, inner)
  }

  /** Nil reads "nil"; a text that parses as a float is re-formatted (whole
      numbers without a fractional part); any other text is itself. */
  function VisitLiteral<F>(fl: Floats<F>, value: Option<string>): (r: Result<string, RuntimeError>)
    ensures r.Success?
    ensures value.None? ==> r.value == "nil"
    ensures value.Some? && !IsNumeric(fl, value.value) ==> r.value == value.value
  {
    match value
    case None => Success("nil")
    case Some(v) =>
      match fl.parse(v)
      case Some(num) => Success(if fl.isWhole(num) then fl.wholeText(num) else fl.text(num))
      case None => Success(v)
  }

  function VisitGrouping<F>(fl: Floats<F>, inner: Expr): (r: Result<string, RuntimeError>)
    ensures r.Failure? ==> r.error.line in OperatorLines(inner)
    ensures r.Failure? && WellNested(inner) ==> r.error.message in OperandMessages
    decreases Grouping(inner), 0
  {
    Evaluate(fl, inner)
  }

  /** The operand is evaluated first and its failure passed on; `-` needs a
      number, `!` negates truthiness, any other operator is refused. */
  function VisitUnary<F>(fl: Floats<F>, op: Token, right: Expr): (r: Result<string, RuntimeError>)
    ensures r.Failure? ==> r.error.line in {op.line} + OperatorLines(right)
    ensures r.Failure? && op.kind in {Bang, Minus} && WellNested(right) ==> r.error.message in OperandMessages
    ensures Evaluate(fl, right).Failure? ==> r == Evaluate(fl, right)
    decreases Unary(op, right), 0
  {
    var value :- Evaluate(fl, right);
    match op.kind
    case Minus =>
      (match fl.parse(value)
       case None => Failure(RuntimeError(OperandNumber, op.line))
       case Some(number) => Success(fl.text(fl.neg(number))))
    case Bang => Success(BoolText(!IsTruthy(value)))
    case _ => Failure(RuntimeError("Unknown unary operator: " + op.lexeme, op.line))
  }

  /** Left operand first, then right, each failure passed on; then the
      operator decides. */
  function VisitBinary<F>(fl: Floats<F>, left: Expr, op: Token, right: Expr): (r: Result<string, RuntimeError>)
    ensures r.Failure? ==> r.error.line in OperatorLines(left) + {op.line} + OperatorLines(right)
    ensures r.Failure? && 1 <= Prec(op.kind) && WellNested(left) && WellNested(right) ==>
              r.error.message in OperandMessages
    decreases Binary(left, op, right), 0
  {
    var l :- Evaluate(fl, left);
    var r :- Evaluate(fl, right);
    match op.kind
    case Plus =>
      if IsNumeric(fl, l) && IsNumeric(fl, r) then Success(fl.text(fl.add(fl.parse(l).value, fl.parse(r).value)))
      else if !IsNumeric(fl, l) && !IsNumeric(fl, r) then Success(l + r)
      else Failure(RuntimeError(OperandsNumbersOrStrings, op.line))
    case Minus | Star | Slash =>
      var _ :- CheckNumericOperands(fl, l, r, op.line);
      var x, y := fl.parse(l).value, fl.parse(r).value;
      if op.kind == Minus then Success(fl.text(fl.sub(x, y)))
      else if op.kind == Star then Success(fl.text(fl.mul(x, y)))
      else if fl.isZero(y) then Failure(RuntimeError(DivisionByZero, op.line))
      else Success(fl.text(fl.div(x, y)))
    case Greater | GreaterEqual | Less | LessEqual =>
      var _ :- CheckNumericOperands(fl, l, r, op.line);
      var x, y := fl.parse(l).value, fl.parse(r).value;
      Success(BoolText(
        if op.kind == Greater then fl.greater(x, y)
        else if op.kind == GreaterEqual then fl.greaterEqual(x, y)
        else if op.kind == Less then fl.less(x, y)
        else fl.lessEqual(x, y)))
    case EqualEqual => Success(BoolText(l == r))
    case BangEqual => Success(BoolText(l != r))
    case _ => Failure(RuntimeError("Unknown binary operator: " + op.lexeme, op.line))
  }

  // ---------------------------------------------------------------------
  // Properties of the evaluator

  /** Parentheses do not change a value or an error. */
  lemma GroupingIsTransparent<F>(fl: Floats<F>, e: Expr)
    ensures Evaluate(fl, Grouping(e)) == Evaluate(fl, e)
  {
  }

  /** Operands are evaluated left to right and the first failure wins,
      whatever the operator. */
  lemma FirstFailureWins<F>(fl: Floats<F>, left: Expr, op: Token, right: Expr)
    ensures Evaluate(fl, left).Failure? ==> Evaluate(fl, Binary(left, op, right)) == Evaluate(fl, left)
    ensures Evaluate(fl, left).Success? && Evaluate(fl, right).Failure? ==>
              Evaluate(fl, Binary(left, op, right)) == Evaluate(fl, right)
  {
  }

  /** `+` adds two numbers, concatenates two non-numbers, and refuses a
      number with a non-number. */
  lemma PlusMeaning<F>(fl: Floats<F>, left: Expr, op: Token, right: Expr, l: string, r: string)
    requires op.kind == Plus
    requires Evaluate(fl, left) == Success(l) && Evaluate(fl, right) == Success(r)
    ensures IsNumeric(fl, l) && IsNumeric(fl, r) ==>
              Evaluate(fl, Binary(left, op, right)) == Success(fl.text(fl.add(fl.parse(l).value, fl.parse(r).value)))
    ensures !IsNumeric(fl, l) && !IsNumeric(fl, r) ==> Evaluate(fl, Binary(left, op, right)) == Success(l + r)
    ensures IsNumeric(fl, l) != IsNumeric(fl, r) ==>
              Evaluate(fl, Binary(left, op, right)) == Failure(RuntimeError(OperandsNumbersOrStrings, op.line))
  {
  }

  /** `-`, `*`, `/` and the four comparisons fail with "Operands must be
      numbers." exactly when an operand is not a number. */
  lemma NumericOperatorsNeedNumbers<F>(fl: Floats<F>, left: Expr, op: Token, right: Expr, l: string, r: string)
    requires op.kind in {Minus, Star, Slash, Greater, GreaterEqual, Less, LessEqual}
    requires Evaluate(fl, left) == Success(l) && Evaluate(fl, right) == Success(r)
    ensures Evaluate(fl, Binary(left, op, right)) == Failure(RuntimeError(OperandsNumbers, op.line)) <==>
              !(IsNumeric(fl, l) && IsNumeric(fl, r))
  {
    var result := Evaluate(fl, Binary(left, op, right));
    assert result == VisitBinary(fl, left, op, right);
    var check := CheckNumericOperands(fl, l, r, op.line);
    if IsNumeric(fl, l) && IsNumeric(fl, r) {
      assert check.Success?;
      assert result.Success? || result.error.message == DivisionByZero;
    } else {
      assert check == Failure(RuntimeError(OperandsNumbers, op.line));
      assert result == Failure(RuntimeError(OperandsNumbers, op.line));
    }
  }

  /** Division fails exactly when the divisor is zero (operands numeric). */
  lemma DivisionByZeroFails<F>(fl: Floats<F>, left: Expr, op: Token, right: Expr, l: string, r: string)
    requires op.kind == Slash
    requires Evaluate(fl, left) == Success(l) && Evaluate(fl, right) == Success(r)
    requires IsNumeric(fl, l) && IsNumeric(fl, r)
    ensures Evaluate(fl, Binary(left, op, right)).Failure? <==> fl.isZero(fl.parse(r).value)
    ensures fl.isZero(fl.parse(r).value) ==>
              Evaluate(fl, Binary(left, op, right)) == Failure(RuntimeError(DivisionByZero, op.line))
  {
  }

  /** `==` and `!=` compare the texts of the two values: no operand is
      refused and no type is consulted. */
  lemma EqualityComparesText<F>(fl: Floats<F>, left: Expr, op: Token, right: Expr, l: string, r: string)
    requires op.kind in {EqualEqual, BangEqual}
    requires Evaluate(fl, left) == Success(l) && Evaluate(fl, right) == Success(r)
    ensures Evaluate(fl, Binary(left, op, right)) == Success(BoolText((l == r) == (op.kind == EqualEqual)))
  {
  }

  /** A number token and a string token with the same text give equal
      values: `1 == "1"` is true. */
  lemma NumberEqualsStringOfSameText<F>(fl: Floats<F>, v: string)
    ensures var toks := [Token(Number, v, Some(v), 1), Token(EqualEqual, "==", None, 1),
                         Token(String, "\"" + v + "\"", Some(v), 1), Token(Eof, "", None, 1)];
      var parsed := Parsing.ExpressionAt(toks, 0);
      parsed.expr.Some? && Evaluate(fl, parsed.expr.value) == Success("true")
  {
    var toks := [Token(Number, v, Some(v), 1), Token(EqualEqual, "==", None, 1),
                 Token(String, "\"" + v + "\"", Some(v), 1), Token(Eof, "", None, 1)];
    var op := Token(EqualEqual, "==", None, 1);
    var e := Binary(Literal(Some(v)), op, Literal(Some(v)));
    assert Prec(op.kind) == 1 && Top(e) == 1 && WellNested(e);
    assert Parsing.LiteralToken(toks[0], Some(v)) && Parsing.LiteralToken(toks[2], Some(v));
    assert Parsing.Spells(toks, 2, Literal(Some(v)));
    assert Parsing.Spells(toks, 0, e);
    assert Parsing.Covers(toks, 0, 1, e, 3) && Parsing.Ends(toks, 3, 1);
    Parsing.ExpressionMeaning(toks, 0, e, 3);
  }

  /** `!` never fails on a value and yields its falsiness. */
  lemma BangMeaning<F>(fl: Floats<F>, op: Token, right: Expr, v: string)
    requires op.kind == Bang && Evaluate(fl, right) == Success(v)
    ensures Evaluate(fl, Unary(op, right)) == Success(if IsTruthy(v) then "false" else "true")
  {
  }

  /** `!!e` turns the value of `e` into its truthiness. */
  lemma DoubleNegation<F>(fl: Floats<F>, op: Token, e: Expr, v: string)
    requires op.kind == Bang && Evaluate(fl, e) == Success(v)
    ensures Evaluate(fl, Unary(op, Unary(op, e))) == Success(BoolText(IsTruthy(v)))
  {
    BangMeaning(fl, op, e, v);
    BangMeaning(fl, op, Unary(op, e), BoolText(!IsTruthy(v)));
  }

  /** The text "false" is falsy whether it came from the keyword or from a
      string literal, since values carry no type: `!"false"` is "true". */
  lemma FalseTextIsFalsy<F>(fl: Floats<F>, op: Token)
    requires op.kind == Bang && !IsNumeric(fl, "false")
    ensures Evaluate(fl, Unary(op, Literal(Some("false")))) == Success("true")
  {
    assert Evaluate(fl, Literal(Some("false"))) == Success("false");
    BangMeaning(fl, op, Literal(Some("false")), "false");
  }

  /** A prefix `-` needs a number. */
  lemma NegationNeedsNumber<F>(fl: Floats<F>, op: Token, right: Expr, v: string)
    requires op.kind == Minus && Evaluate(fl, right) == Success(v)
    ensures Evaluate(fl, Unary(op, right)).Failure? <==> !IsNumeric(fl, v)
    ensures !IsNumeric(fl, v) ==> Evaluate(fl, Unary(op, right)) == Failure(RuntimeError(OperandNumber, op.line))
  {
  }

  /** Operators the parser never builds into a Binary are refused by name. */
  lemma UnknownBinaryOperator<F>(fl: Floats<F>, left: Expr, op: Token, right: Expr, l: string, r: string)
    requires Prec(op.kind) == 0
    requires Evaluate(fl, left) == Success(l) && Evaluate(fl, right) == Success(r)
    ensures Evaluate(fl, Binary(left, op, right)) == Failure(RuntimeError("Unknown binary operator: " + op.lexeme, op.line))
  {
  }

  /** Trees built only from literals, groupings, `!`, `==` and `!=`. */
  predicate Logical(e: Expr) {
    match e
    case Literal(_) => true
    case Grouping(inner) => Logical(inner)
    case Unary(op, right) => op.kind == Bang && Logical(right)
    case Binary(left, op, right) => op.kind in {EqualEqual, BangEqual} && Logical(left) && Logical(right)
  }

  /** Without arithmetic, comparison or `-` there is nothing to refuse: the
      evaluation of such a tree never fails. */
  lemma {:induction false} LogicalNeverFails<F>(fl: Floats<F>, e: Expr)
    requires Logical(e)
    ensures Evaluate(fl, e).Success?
  {
    match e
    case Literal(_) =>
    case Grouping(inner) =>
      LogicalNeverFails(fl, inner);
    case Unary(op, right) =>
      LogicalNeverFails(fl, right);
    case Binary(left, op, right) =>
      LogicalNeverFails(fl, left);
      LogicalNeverFails(fl, right);
  }

  /** `!`, `==`, `!=` and the comparisons produce only "true" or "false". */
  lemma LogicalResultsAreBooleans<F>(fl: Floats<F>, e: Expr)
    requires (e.Unary? && e.op.kind == Bang) || (e.Binary? && Prec(e.op.kind) in {1, 2})
    requires Evaluate(fl, e).Success?
    ensures Evaluate(fl, e).value in {"true", "false"}
  {
  }

  /** A tree the parser returns only ever fails on its operands: never
      with "Unknown unary operator" or "Unknown binary operator". */
  lemma ParsedTreesFailOnlyOnOperands<F>(fl: Floats<F>, toks: seq<Token>, pos: nat)
    requires Parsing.WellTerminated(toks) && pos < |toks|
    ensures var parsed := Parsing.ExpressionAt(toks, pos);
      parsed.expr.Some? && Evaluate(fl, parsed.expr.value).Failure? ==>
        Evaluate(fl, parsed.expr.value).error.message in OperandMessages
  {
    Parsing.LevelSound(toks, 1, pos);
  }
}
