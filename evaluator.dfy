/** `evaluate_expression`: the value of a tree, computed bottom-up. Values
    are exact rationals, so `/` is the true quotient; a zero divisor raises
    "Division by zero" instead of producing a value. */
module Evaluator {
  import opened Results
  import opened Ast

  datatype EvalError = DivisionByZero

  /** The arithmetic of one operator on exact values (the quotient is only
      used when the divisor is not zero). */
  function Arith(op: Op, a: real, b: real): real {
    match op
    case Add => a + b
    case Sub => a - b
    case Mul => a * b
    case Div => if b == 0.0 then 0.0 else a / b
  }

  /** One operator applied to the values of its operands: `/` with a zero
      divisor fails. */
  function Apply(op: Op, a: real, b: real): (r: Result<real, EvalError>)
    ensures r.Err? <==> op == Div && b == 0.0
    ensures r.Ok? ==> r.value == Arith(op, a, b)
  {
    if op == Div && b == 0.0 then Err(DivisionByZero) else Ok(Arith(op, a, b))
  }

  /** Left operand first, then right, then the operator; a failure in
      either operand propagates. */
  function Eval(e: Expr): Result<real, EvalError> {
    match e
    case Leaf(n) => Ok(n as real)
    case Bin(l, r, op) =>
      match Eval(l)
      case Err(x) => Err(x)
      case Ok(a) =>
        match Eval(r)
        case Err(x) => Err(x)
        case Ok(b) => Apply(op, a, b)
  }

  /** The arithmetic value of a tree, reading every quotient by zero as 0;
      it is the value of the tree wherever no divisor is zero. */
  function Value(e: Expr): real {
    match e
    case Leaf(n) => n as real
    case Bin(l, r, op) => Arith(op, Value(l), Value(r))
  }

  /** No division node of the tree has a divisor whose value is zero. */
  predicate DivisorsNonZero(e: Expr) {
    match e
    case Leaf(_) => true
    case Bin(l, r, op) => DivisorsNonZero(l) && DivisorsNonZero(r) && (op == Div ==> Value(r) != 0.0)
  }

  /** Evaluation fails exactly when some divisor evaluates to zero, and
      otherwise yields the arithmetic value. */
  lemma {:induction false} EvalCharacterised(e: Expr)
    ensures Eval(e) == if DivisorsNonZero(e) then Ok(Value(e)) else Err(DivisionByZero)
  {
    match e
    case Leaf(_) =>
    case Bin(l, r, _) =>
      EvalCharacterised(l);
      EvalCharacterised(r);
  }

  /** A division whose right operand evaluates to zero fails with
      DivisionByZero and yields no value, whatever its left operand. */
  lemma DivisionByZeroFails(l: Expr, r: Expr)
    requires Eval(r) == Ok(0.0)
    ensures Eval(Bin(l, r, Div)) == Err(DivisionByZero)
  {
    if Eval(l).Err? {
      assert Eval(l).error.DivisionByZero?;
    }
  }

  /** Whether `/` occurs in the tree. */
  predicate HasDivision(e: Expr) {
    match e
    case Leaf(_) => false
    case Bin(l, r, op) => op == Div || HasDivision(l) || HasDivision(r)
  }

  /** Integer arithmetic, as Python's unbounded `int` does it. */
  function IntValue(e: Expr): int {
    match e
    case Leaf(n) => n
    case Bin(l, r, op) =>
      match op
      case Add => IntValue(l) + IntValue(r)
      case Sub => IntValue(l) - IntValue(r)
      case Mul => IntValue(l) * IntValue(r)
      case Div => 0
  }

  /** Integer addition, subtraction and product agree with the exact
      ones. */
  lemma CastArith(op: Op, a: int, b: int)
    requires op != Div
    ensures Arith(op, a as real, b as real)
         == (match op case Add => a + b case Sub => a - b case _ => a * b) as real
  {
  }

  /** Without `/` evaluation never fails and stays exact integer arithmetic. */
  lemma {:induction false} IntegerWithoutDivision(e: Expr)
    requires !HasDivision(e)
    ensures Eval(e) == Ok(IntValue(e) as real)
  {
    match e
    case Leaf(_) =>
    case Bin(l, r, op) =>
      IntegerWithoutDivision(l);
      IntegerWithoutDivision(r);
      var a, b := IntValue(l), IntValue(r);
      assert Eval(e) == Apply(op, a as real, b as real);
      CastArith(op, a, b);
  }
}
