/**
 * Arithmetic shared by both solvers: the four operators, the binary
 * operation that refuses division by zero, and expression trees.
 *
 * Numbers are modelled as `real`: floating-point rounding, NaN and
 * Infinity other than from a division by zero are not modelled.
 */
module Arith {

  datatype Option<+T> = None | Some(value: T)

  /** The operator type '+' | '-' | '*' | '/'. */
  datatype Op = Add | Sub | Mul | Div

  /** The operator table, in the order both solvers try operators. */
  const Operators: seq<Op> := [Add, Sub, Mul, Div]

  /** Position of an operator in `Operators`. */
  function Rank(op: Op): (k: nat)
    ensures k < |Operators| && Operators[k] == op
  {
    match op
    case Add => 0
    case Sub => 1
    case Mul => 2
    case Div => 3
  }

  function Abs(x: real): real
  {
    if x < 0.0 then -x else x
  }

  /**
   * One binary operation. Division by a zero divisor produces no number:
   * it throws in the fixed-arity solver and yields NaN, which is then
   * discarded, in the general solver.
   */
  function Calculate(a: real, b: real, op: Op): (r: Option<real>)
    ensures r.None? <==> op == Div && b == 0.0
    ensures r.Some? && op == Add ==> r.value - b == a
    ensures r.Some? && op == Sub ==> r.value + b == a
    ensures r.Some? && op == Mul && b != 0.0 ==> r.value / b == a
    ensures op == Mul && b == 0.0 ==> r == Some(0.0)
    ensures r.Some? && op == Div ==> r.value * b == a
  {
    match op
    case Add => Some(a + b)
    case Sub => Some(a - b)
    case Mul => MulDivCancel(a, b); Some(a * b)
    case Div => if b == 0.0 then None else Some(a / b)
  }

  /** Dividing a product by a non-zero factor gives the other factor back. */
  lemma MulDivCancel(a: real, b: real)
    ensures b != 0.0 ==> (a * b) / b == a
  {
    if b != 0.0 {
      var q := (a * b) / b;
      assert q * b == a * b;
      assert (q - a) * b == 0.0;
    }
  }

  /** A fully parenthesised arithmetic expression over numbers. */
  datatype Term = Lit(x: real) | Bin(op: Op, left: Term, right: Term)

  /** The value of a term, or None when some division step has a zero divisor. */
  function Eval(t: Term): Option<real>
  {
    match t
    case Lit(x) => Some(x)
    case Bin(op, l, r) =>
      match Eval(l)
      case None => None
      case Some(x) =>
        match Eval(r)
        case None => None
        case Some(y) => Calculate(x, y, op)
  }

  /** Some division inside t has a divisor that evaluates to zero. */
  predicate ZeroDivision(t: Term)
  {
    match t
    case Lit(_) => false
    case Bin(op, l, r) =>
      ZeroDivision(l) || ZeroDivision(r) || (op == Div && Eval(r) == Some(0.0))
  }

  /** A term fails to evaluate exactly when it divides by zero somewhere. */
  lemma {:induction false} EvalFailsIffZeroDivision(t: Term)
    ensures Eval(t).None? <==> ZeroDivision(t)
  {
    match t
    case Lit(_) =>
    case Bin(op, l, r) =>
      EvalFailsIffZeroDivision(l);
      EvalFailsIffZeroDivision(r);
  }
}
