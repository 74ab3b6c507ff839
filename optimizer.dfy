/** The constant folder: a bottom-up rewrite of expressions that evaluates
    integer arithmetic on literals and concatenates string literals. */
module Optimizer {
  import opened Base
  import opened Ast

  /** Why folding stops: the Rust code panics on i32 overflow (and on
      division by zero), and has no match arm for boolean literals. */
  datatype FoldError = Overflow | DivisionByZero | NoBoolArm

  /** Rust's `/` on integers: the quotient truncated toward zero (Dafny's own
      `/` is Euclidean). */
  function TruncDiv(a: int, b: int): int
    requires b != 0
  {
    if a >= 0 && b > 0 then a / b
    else if a < 0 && b < 0 then (-a) / (-b)
    else if a >= 0 then -(a / (-b))
    else -((-a) / b)
  }

  function CheckedI32(v: int): (r: Result<int32, FoldError>)
    ensures r.Ok? <==> I32_MIN <= v <= I32_MAX
    ensures r.Ok? ==> r.value == v
    ensures r.Err? ==> r.error == Overflow
  {
    if I32_MIN <= v <= I32_MAX then Ok(v) else Err(Overflow)
  }

  /** One i32 operation as the folder evaluates it. */
  function FoldInts(op: Operator, a: int32, b: int32): (r: Result<int32, FoldError>)
    ensures op == Div && b == 0 <==> r == Err(DivisionByZero)
    ensures op == Add ==> r == CheckedI32(a + b)
    ensures op == Sub ==> r == CheckedI32(a - b)
    ensures op == Mul ==> r == CheckedI32(a * b)
    ensures op == Div && b != 0 ==> r == CheckedI32(TruncDiv(a, b))
  {
    match op
    case Add => CheckedI32(a + b)
    case Sub => CheckedI32(a - b)
    case Mul => CheckedI32(a * b)
    case Div => if b == 0 then Err(DivisionByZero) else CheckedI32(TruncDiv(a, b))
  }

  /** `Optimizer::fold_expression`. Children are folded first (left, then
      right); two integer literals combine into one; a string literal on the
      left absorbs an integer or string literal on the right whatever the
      operator; anything else is rebuilt with the folded children. */
  function Fold(e: Expression): (r: Result<Expression, FoldError>)
    ensures e.Integer? || e.String? || e.Variable? ==> r == Ok(e)
    ensures e.Bool? ==> r == Err(NoBoolArm)
  {
    match e
    case BinaryOperation(l, op, rt) =>
      (match Fold(l)
       case Err(err) => Err(err)
       case Ok(l') =>
         match Fold(rt)
         case Err(err) => Err(err)
         case Ok(r') => Combine(l', op, r'))
    case Integer(_) => Ok(e)
    case Variable(_) => Ok(e)
    case String(_) => Ok(e)
    case Bool(_) => Err(NoBoolArm)
  }

  /** The parent step of `Fold`, given already-folded operands. Only the
      arithmetic on two integer literals can fail, and two operands in normal
      form combine into normal form. */
  function Combine(l: Expression, op: Operator, rt: Expression): (r: Result<Expression, FoldError>)
    ensures r.Err? ==> l.Integer? && rt.Integer? && FoldInts(op, l.ival, rt.ival) == Err(r.error)
    ensures Folded(l) && Folded(rt) && r.Ok? ==> Folded(r.value)
  {
    if l.Integer? && rt.Integer? then
      match FoldInts(op, l.ival, rt.ival)
      case Err(err) => Err(err)
      case Ok(v) => Ok(Integer(v))
    else if l.String? && ExpressionToString(rt).Ok? then
      Ok(String(l.sval + ExpressionToString(rt).value))
    else
      Ok(BinaryOperation(l, op, rt))
  }

  // ---------------------------------------------------------------------------
  // Normal form and idempotence.

  /** An expression the folder has nothing left to do in: no boolean literal,
      no operation on two integer literals, and no string literal on the left
      of an integer or string literal. */
  predicate Folded(e: Expression) {
    match e
    case Bool(_) => false
    case BinaryOperation(l, _, r) =>
      Folded(l) && Folded(r) &&
      !(l.Integer? && r.Integer?) &&
      !(l.String? && (r.Integer? || r.String?))
    case _ => true
  }

  /** Whatever the folder returns is in normal form. */
  lemma {:induction false} FoldIsFolded(e: Expression)
    requires Fold(e).Ok?
    ensures Folded(Fold(e).value)
  {
    if e.BinaryOperation? {
      FoldIsFolded(e.lhs);
      FoldIsFolded(e.rhs);
    }
  }

  /** An expression in normal form is left unchanged. */
  lemma {:induction false} FoldFixesFolded(e: Expression)
    requires Folded(e)
    ensures Fold(e) == Ok(e)
  {
    if e.BinaryOperation? {
      FoldFixesFolded(e.lhs);
      FoldFixesFolded(e.rhs);
    }
  }

  /** Folding an already folded expression returns it unchanged. */
  lemma FoldIdempotent(e: Expression)
    requires Fold(e).Ok?
    ensures Fold(Fold(e).value) == Fold(e)
  {
    FoldIsFolded(e);
    FoldFixesFolded(Fold(e).value);
  }

  // ---------------------------------------------------------------------------
  // Integer constant expressions against an independent evaluator.

  predicate IsIntConstant(e: Expression) {
    match e
    case Integer(_) => true
    case BinaryOperation(l, _, r) => IsIntConstant(l) && IsIntConstant(r)
    case _ => false
  }

  /** i32 evaluation of an integer constant expression, left operand first. */
  function Evaluate(e: Expression): Result<int32, FoldError>
    requires IsIntConstant(e)
  {
    match e
    case Integer(v) => Ok(v)
    case BinaryOperation(l, op, r) =>
      match Evaluate(l)
      case Err(err) => Err(err)
      case Ok(a) =>
        match Evaluate(r)
        case Err(err) => Err(err)
        case Ok(b) => FoldInts(op, a, b)
  }

  /** The folder reduces an integer constant expression to the single literal
      of its value, and fails exactly when evaluation fails, with the same error. */
  lemma {:induction false} FoldEvaluates(e: Expression)
    requires IsIntConstant(e)
    ensures Evaluate(e).Ok? ==> Fold(e) == Ok(Integer(Evaluate(e).value))
    ensures Evaluate(e).Err? ==> Fold(e) == Err(Evaluate(e).error)
  {
    if e.BinaryOperation? {
      FoldEvaluates(e.lhs);
      FoldEvaluates(e.rhs);
    }
  }

  /** A string operand on the left absorbs an integer or string operand on the
      right, for every operator (including `-`, `*` and `/`). */
  lemma FoldConcatenates(l: Expression, op: Operator, r: Expression, a: string)
    requires Fold(l) == Ok(String(a))
    requires Fold(r).Ok? && (Fold(r).value.Integer? || Fold(r).value.String?)
    ensures Fold(BinaryOperation(l, op, r)) ==
      Ok(String(a + if Fold(r).value.Integer? then IntToString(Fold(r).value.ival) else Fold(r).value.sval))
  {
  }

  /** Any other pair of folded operands is rebuilt with the same operator. */
  lemma FoldRebuilds(l: Expression, op: Operator, r: Expression)
    requires Fold(l).Ok? && Fold(r).Ok?
    requires !(Fold(l).value.Integer? && Fold(r).value.Integer?)
    requires !(Fold(l).value.String? && (Fold(r).value.Integer? || Fold(r).value.String?))
    ensures Fold(BinaryOperation(l, op, r)) == Ok(BinaryOperation(Fold(l).value, op, Fold(r).value))
  {
  }

  /** `("a" - 1)` folds to the string `"a1"`. */
  lemma SubtractionConcatenates()
    ensures Fold(BinaryOperation(String("a"), Sub, Integer(1))) == Ok(String("a1"))
  {
    assert DigitChar(1) == '1';
    assert IntToString(1) == "1";
    assert "a" + "1" == "a1";
  }

  /** `1 + 2 * 3` folds to `7`; `7 / -2` and `-7 / 2` fold to `-3`
      (truncation, where Euclidean division would give `-3` and `-4`). */
  lemma FoldExamples()
    ensures Fold(BinaryOperation(Integer(1), Add, BinaryOperation(Integer(2), Mul, Integer(3)))) == Ok(Integer(7))
    ensures Fold(BinaryOperation(Integer(7), Div, Integer(-2))) == Ok(Integer(-3))
    ensures Fold(BinaryOperation(Integer(-7), Div, Integer(2))) == Ok(Integer(-3))
    ensures Fold(BinaryOperation(Integer(I32_MIN), Div, Integer(-1))) == Err(Overflow)
    ensures Fold(BinaryOperation(Integer(0x7fff_ffff), Add, Integer(1))) == Err(Overflow)
    ensures Fold(BinaryOperation(Integer(1), Div, Integer(0))) == Err(DivisionByZero)
  {
  }
}
