/** The operator functions of runtime/evals/expressions.ts: the numeric dispatch, the operand
    tag test of evaluate_binary_expr, and the two comparison switches, modelled with their
    fall-through as written and, beside them, as evidently intended. */
module Operators {
  import opened Wrappers
  import opened Values

  /** Truncation toward zero, as JavaScript's `%` uses it. */
  function Trunc(x: real): (t: int)
    ensures x >= 0.0 ==> 0.0 <= x - (t as real) < 1.0
    ensures x < 0.0 ==> -1.0 < x - (t as real) <= 0.0
  {
    if x >= 0.0 then x.Floor else -((-x).Floor)
  }

  lemma ProductSign(x: real, y: real)
    ensures x > 0.0 && y > 0.0 ==> x * y > 0.0
    ensures x >= 0.0 && y >= 0.0 ==> x * y >= 0.0
  {
  }

  /** A fraction below one in size, scaled by a positive `c`, stays below `c` in size. */
  lemma ScaledBelow(c: real, f: real)
    requires c > 0.0 && -1.0 < f < 1.0
    ensures -c < c * f < c
  {
    ProductSign(c, 1.0 - f);
    ProductSign(c, 1.0 + f);
  }

  /** A fraction below one in size, scaled by `b`, stays below `b` in size and keeps its sign. */
  lemma ScaledFraction(b: real, f: real)
    requires b != 0.0 && -1.0 < f < 1.0
    ensures (if b * f >= 0.0 then b * f else -(b * f)) < (if b >= 0.0 then b else -b)
    ensures f >= 0.0 ==> (b > 0.0 ==> b * f >= 0.0) && (b < 0.0 ==> b * f <= 0.0)
    ensures f <= 0.0 ==> (b > 0.0 ==> b * f <= 0.0) && (b < 0.0 ==> b * f >= 0.0)
  {
    if b > 0.0 {
      ScaledBelow(b, f);
      ProductSign(b, f);
      ProductSign(b, -f);
    } else {
      ScaledBelow(-b, f);
      ProductSign(-b, f);
      ProductSign(-b, -f);
    }
  }

  /** The remainder of the truncated quotient is below the divisor in size and has the
      dividend's sign. */
  lemma RemainderBounds(a: real, b: real)
    requires b != 0.0
    ensures var r := a - b * (Trunc(a / b) as real);
      (if r >= 0.0 then r else -r) < (if b >= 0.0 then b else -b) && (a > 0.0 ==> r >= 0.0) && (a < 0.0 ==> r <= 0.0)
  {
    var q := a / b;
    var t := Trunc(q) as real;
    var f := q - t;
    assert a == b * q;
    assert a - b * t == b * f by {
      assert b * f == b * q - b * t;
    }
    ScaledFraction(b, f);
    if a > 0.0 {
      assert (b > 0.0) == (q > 0.0) by { ProductSign(b, q); ProductSign(-b, -q); ProductSign(b, -q); ProductSign(-b, q); }
    }
    if a < 0.0 {
      assert (b > 0.0) == (q < 0.0) by { ProductSign(b, q); ProductSign(-b, -q); ProductSign(b, -q); ProductSign(-b, q); }
    }
  }

  /** JavaScript `%`: the remainder of the quotient truncated toward zero.  Dividend, divisor,
      truncated quotient and remainder are related as in integer division, the remainder is
      below the divisor in size, and it has the dividend's sign. */
  function Rem(a: real, b: real): (r: real)
    requires b != 0.0
    ensures a == b * (Trunc(a / b) as real) + r
    ensures (if r >= 0.0 then r else -r) < (if b >= 0.0 then b else -b)
    ensures a > 0.0 ==> r >= 0.0
    ensures a < 0.0 ==> r <= 0.0
  {
    RemainderBounds(a, b);
    a - b * (Trunc(a / b) as real)
  }

  /** evaluate_numeric_binary_expr on the operands' numbers: `+ - * /`, and `%` for every other
      operator string.  Division or remainder by zero is an error here (the host gives
      Infinity or NaN). */
  function NumericBinary(lhs: real, rhs: real, operator: string): (r: Result<real, RuntimeError>)
    ensures r.Err? <==> rhs == 0.0 && operator != "+" && operator != "-" && operator != "*"
    ensures r.Err? ==> r.error == NonFiniteNumber
  {
    if operator == "+" then Ok(lhs + rhs)
    else if operator == "-" then Ok(lhs - rhs)
    else if operator == "*" then Ok(lhs * rhs)
    else if operator == "/" then (if rhs == 0.0 then Err(NonFiniteNumber) else Ok(lhs / rhs))
    else if rhs == 0.0 then Err(NonFiniteNumber) else Ok(Rem(lhs, rhs))
  }

  /** `+ - * /` compute the named operation (a quotient times the divisor is the dividend), and
      any other operator string, `%` included, computes the truncated remainder. */
  lemma NumericBinaryDispatch(lhs: real, rhs: real, operator: string)
    ensures NumericBinary(lhs, rhs, "+") == Ok(lhs + rhs)
    ensures NumericBinary(lhs, rhs, "-") == Ok(lhs - rhs)
    ensures NumericBinary(lhs, rhs, "*") == Ok(lhs * rhs)
    ensures rhs != 0.0 ==> NumericBinary(lhs, rhs, "/").Ok? && NumericBinary(lhs, rhs, "/").value * rhs == lhs
    ensures operator != "+" && operator != "-" && operator != "*" && operator != "/" ==>
      NumericBinary(lhs, rhs, operator) == NumericBinary(lhs, rhs, "%")
    ensures rhs != 0.0 ==> NumericBinary(lhs, rhs, "%") == Ok(Rem(lhs, rhs))
  {
    assert "*"[0] != "+"[0] && "*"[0] != "-"[0];
    assert "/"[0] != "+"[0] && "/"[0] != "-"[0] && "/"[0] != "*"[0];
    NumericBinaryProduct(lhs, rhs);
    if rhs != 0.0 {
      assert NumericBinary(lhs, rhs, "/") == Ok(lhs / rhs);
      assert (lhs / rhs) * rhs == lhs;
    }
  }

  /** `*` is the product. */
  lemma NumericBinaryProduct(lhs: real, rhs: real)
    ensures NumericBinary(lhs, rhs, "*") == Ok(lhs * rhs)
  {
    assert "*"[0] != "+"[0] && "*"[0] != "-"[0];
  }

  /** evaluate_numeric_binary_expr: the result, when there is one, is a `number`. */
  function EvaluateNumericBinaryExpr(lhs: Value, rhs: Value, operator: string): (r: Result<Value, RuntimeError>)
    requires lhs.NumberVal? && rhs.NumberVal?
    ensures r.Ok? ==> r.value.NumberVal? && Tag(r.value) == "number"
    ensures r.Ok? <==> NumericBinary(lhs.num, rhs.num, operator).Ok?
  {
    match NumericBinary(lhs.num, rhs.num, operator)
    case Ok(n) => Ok(NumberVal(n))
    case Err(e) => Err(e)
  }

  /** The tag test of evaluate_binary_expr on the two evaluated operands.  Reading `.type` of
      `undefined` is a host type error; the right operand's tag is read only when the left one is
      a number. */
  function BinaryOperands(lhs: Value, rhs: Value, operator: string): (r: Result<Value, RuntimeError>)
    ensures !lhs.Undefined? && !rhs.Undefined? ==>
      (r.Ok? && !r.value.NullVal? ==> lhs.NumberVal? && rhs.NumberVal?)
  {
    if lhs.Undefined? then Err(HostTypeError)
    else if lhs.NumberVal? && rhs.Undefined? then Err(HostTypeError)
    else if lhs.NumberVal? && rhs.NumberVal? then EvaluateNumericBinaryExpr(lhs, rhs, operator)
    else Ok(NullVal)
  }

  /** Operands that are not both numbers give `null`, without an error. */
  lemma NonNumbersGiveNull(lhs: Value, rhs: Value, operator: string)
    requires !lhs.Undefined? && !rhs.Undefined? && !(lhs.NumberVal? && rhs.NumberVal?)
    ensures BinaryOperands(lhs, rhs, operator) == Ok(NullVal)
  {
  }

  /** One `case label:` clause: the value it assigns to `result` and whether a `break` ends it. */
  datatype Case = Case(name: string, result: bool, breaks: bool)

  /** Where a switch on `op` enters: the first clause labelled `op`, or the default (|cases|). */
  function Entry(cases: seq<Case>, op: string): (k: nat)
    ensures k <= |cases|
    ensures k < |cases| ==> cases[k].name == op
    ensures forall i :: 0 <= i < k ==> cases[i].name != op
  {
    if cases == [] then 0
    else if cases[0].name == op then 0
    else 1 + Entry(cases[1..], op)
  }

  /** Run the clauses from `k`: each assigns its result, a `break` leaves the switch, and
      otherwise control falls into the next clause and finally into the default, which assigns
      `dflt`.  The last assignment made is the switch's result. */
  function RunFrom(cases: seq<Case>, k: nat, dflt: bool): bool
    decreases |cases| - k
  {
    if k >= |cases| then dflt
    else if cases[k].breaks then cases[k].result
    else RunFrom(cases, k + 1, dflt)
  }

  function Switch(cases: seq<Case>, dflt: bool, op: string): bool {
    RunFrom(cases, Entry(cases, op), dflt)
  }

  /** Without any `break`, every entry point falls through to the default. */
  lemma {:induction false} NoBreakReachesDefault(cases: seq<Case>, k: nat, dflt: bool)
    requires forall i :: 0 <= i < |cases| ==> !cases[i].breaks
    ensures RunFrom(cases, k, dflt) == dflt
    decreases |cases| - k
  {
    if k < |cases| {
      NoBreakReachesDefault(cases, k + 1, dflt);
    }
  }

  /** With a `break` in every clause, the first clause labelled `op` decides the result alone. */
  lemma AllBreakSelects(cases: seq<Case>, dflt: bool, k: nat)
    requires forall i :: 0 <= i < |cases| ==> cases[i].breaks
    requires k < |cases| && forall i :: 0 <= i < k ==> cases[i].name != cases[k].name
    ensures Switch(cases, dflt, cases[k].name) == cases[k].result
  {
  }

  /** With a `break` in every clause, an operator no clause names takes the default. */
  lemma AllBreakDefault(cases: seq<Case>, dflt: bool, op: string)
    requires forall i :: 0 <= i < |cases| ==> cases[i].name != op
    ensures Switch(cases, dflt, op) == dflt
  {
  }

  /** The clauses of evaluate_comparison_expr as written: no `break`, and `!=` computes `<=`. */
  function ComparisonCases(l: real, r: real): seq<Case> {
    [Case(">", l > r, false), Case(">=", l >= r, false), Case("<", l < r, false),
     Case("<=", l <= r, false), Case("!=", l <= r, false)]
  }

  /** evaluate_comparison_expr as written. */
  function EvaluateComparisonExpr(lhs: Value, rhs: Value, operator: string): (r: Value)
    requires lhs.NumberVal? && rhs.NumberVal?
    ensures r.BooleanVal? && Tag(r) == "boolean"
  {
    BooleanVal(Switch(ComparisonCases(lhs.num, rhs.num), lhs.num != rhs.num, operator))
  }

  /** As written, every operator yields `lhs != rhs`. */
  lemma ComparisonIsAlwaysInequality(l: real, r: real, operator: string)
    ensures EvaluateComparisonExpr(NumberVal(l), NumberVal(r), operator) == BooleanVal(l != r)
  {
    NoBreakReachesDefault(ComparisonCases(l, r), Entry(ComparisonCases(l, r), operator), l != r);
  }

  /** So `2 < 1` is true as written. */
  lemma ComparisonAsWrittenCounterexample()
    ensures EvaluateComparisonExpr(NumberVal(2.0), NumberVal(1.0), "<") == BooleanVal(true)
  {
    ComparisonIsAlwaysInequality(2.0, 1.0, "<");
  }

  /** The clauses as evidently intended: each ends with `break`, and `!=` is inequality. */
  function ComparisonCasesWithBreaks(l: real, r: real): seq<Case> {
    [Case(">", l > r, true), Case(">=", l >= r, true), Case("<", l < r, true),
     Case("<=", l <= r, true), Case("!=", l != r, true)]
  }

  function ComparisonWithBreaks(lhs: Value, rhs: Value, operator: string): (r: Value)
    requires lhs.NumberVal? && rhs.NumberVal?
    ensures r.BooleanVal? && Tag(r) == "boolean"
  {
    BooleanVal(Switch(ComparisonCasesWithBreaks(lhs.num, rhs.num), lhs.num != rhs.num, operator))
  }

  /** With the breaks, each operator computes its own relation (`2 < 1` is false); an unknown
      operator still takes the default. */
  lemma ComparisonWithBreaksMeaning(l: real, r: real, operator: string)
    ensures ComparisonWithBreaks(NumberVal(l), NumberVal(r), ">") == BooleanVal(l > r)
    ensures ComparisonWithBreaks(NumberVal(l), NumberVal(r), ">=") == BooleanVal(l >= r)
    ensures ComparisonWithBreaks(NumberVal(l), NumberVal(r), "<") == BooleanVal(l < r)
    ensures ComparisonWithBreaks(NumberVal(l), NumberVal(r), "<=") == BooleanVal(l <= r)
    ensures ComparisonWithBreaks(NumberVal(l), NumberVal(r), "!=") == BooleanVal(l != r)
    ensures operator != ">" && operator != ">=" && operator != "<" && operator != "<=" && operator != "!=" ==>
      ComparisonWithBreaks(NumberVal(l), NumberVal(r), operator) == BooleanVal(l != r)
  {
    var cs := ComparisonCasesWithBreaks(l, r);
    AllBreakSelects(cs, l != r, 0);
    AllBreakSelects(cs, l != r, 1);
    AllBreakSelects(cs, l != r, 2);
    AllBreakSelects(cs, l != r, 3);
    AllBreakSelects(cs, l != r, 4);
    if operator != ">" && operator != ">=" && operator != "<" && operator != "<=" && operator != "!=" {
      AllBreakDefault(cs, l != r, operator);
    }
  }

  /** A boolean as the number JavaScript's relational operators compare it as. */
  function BoolNum(b: bool): int {
    if b then 1 else 0
  }

  /** The clauses of evaluate_relation_expr as written: no `break`, and `!=` computes `<=`. */
  function RelationCases(l: bool, r: bool): seq<Case> {
    [Case("&&", l && r, false), Case("||", l || r, false),
     Case(">", BoolNum(l) > BoolNum(r), false), Case(">=", BoolNum(l) >= BoolNum(r), false),
     Case("<", BoolNum(l) < BoolNum(r), false), Case("<=", BoolNum(l) <= BoolNum(r), false),
     Case("!=", BoolNum(l) <= BoolNum(r), false)]
  }

  /** evaluate_relation_expr as written. */
  function EvaluateRelationExpr(lhs: Value, rhs: Value, operator: string): (r: Value)
    requires lhs.BooleanVal? && rhs.BooleanVal?
    ensures r.BooleanVal? && Tag(r) == "boolean"
  {
    BooleanVal(Switch(RelationCases(lhs.b, rhs.b), lhs.b != rhs.b, operator))
  }

  /** As written, every operator yields `lhs != rhs`, so `true && true` is false. */
  lemma RelationIsAlwaysInequality(l: bool, r: bool, operator: string)
    ensures EvaluateRelationExpr(BooleanVal(l), BooleanVal(r), operator) == BooleanVal(l != r)
    ensures EvaluateRelationExpr(BooleanVal(true), BooleanVal(true), "&&") == BooleanVal(false)
  {
    NoBreakReachesDefault(RelationCases(l, r), Entry(RelationCases(l, r), operator), l != r);
    NoBreakReachesDefault(RelationCases(true, true), Entry(RelationCases(true, true), "&&"), false);
  }

  function RelationCasesWithBreaks(l: bool, r: bool): seq<Case> {
    [Case("&&", l && r, true), Case("||", l || r, true),
     Case(">", BoolNum(l) > BoolNum(r), true), Case(">=", BoolNum(l) >= BoolNum(r), true),
     Case("<", BoolNum(l) < BoolNum(r), true), Case("<=", BoolNum(l) <= BoolNum(r), true),
     Case("!=", l != r, true)]
  }

  function RelationWithBreaks(lhs: Value, rhs: Value, operator: string): (r: Value)
    requires lhs.BooleanVal? && rhs.BooleanVal?
    ensures r.BooleanVal? && Tag(r) == "boolean"
  {
    BooleanVal(Switch(RelationCasesWithBreaks(lhs.b, rhs.b), lhs.b != rhs.b, operator))
  }

  /** With the breaks, `&&` and `||` are conjunction and disjunction (`true && true` is true), and
      the orderings compare `false` below `true`. */
  lemma RelationWithBreaksMeaning(l: bool, r: bool)
    ensures RelationWithBreaks(BooleanVal(l), BooleanVal(r), "&&") == BooleanVal(l && r)
    ensures RelationWithBreaks(BooleanVal(l), BooleanVal(r), "||") == BooleanVal(l || r)
    ensures RelationWithBreaks(BooleanVal(l), BooleanVal(r), ">") == BooleanVal(l && !r)
    ensures RelationWithBreaks(BooleanVal(l), BooleanVal(r), "<") == BooleanVal(!l && r)
    ensures RelationWithBreaks(BooleanVal(l), BooleanVal(r), "!=") == BooleanVal(l != r)
  {
    var cs := RelationCasesWithBreaks(l, r);
    AllBreakSelects(cs, l != r, 0);
    AllBreakSelects(cs, l != r, 1);
    AllBreakSelects(cs, l != r, 2);
    AllBreakSelects(cs, l != r, 4);
    AllBreakSelects(cs, l != r, 6);
  }
}
