/** The read-only AST visitor and its default `walk_*` descent.

    A visitor is modelled by its own action on entering a node, `step`, which
    threads the visitor's state and may fail; after a successful step the
    default descent continues into the node's children. The `walk_*` helpers
    visit children left to right and stop at the first failure. The reference
    for all of them is `Run` over the pre-order list of node visits. */
module AstVisitor {
  import opened Base
  import opened Ast

  datatype Visit =
    | VExpression(e: Expression)
    | VStatement(s: Statement)
    | VFunction(f: Function)
    | VClass(c: Class)
    | VPackage(p: Package)

  /** Applies `step` to each visit in order, stopping at the first failure. */
  function Run<S, E>(step: (S, Visit) -> Result<S, E>, s: S, visits: seq<Visit>): Result<S, E>
    decreases |visits|
  {
    if |visits| == 0 then Ok(s)
    else match step(s, visits[0])
      case Err(e) => Err(e)
      case Ok(s') => Run(step, s', visits[1..])
  }

  // Pre-order lists of the visits the default descent makes.

  function ExpressionVisits(e: Expression): seq<Visit>
    decreases e, 1
  {
    [VExpression(e)] + ChildVisits(e)
  }

  /** The visits `walk_expression` makes: the left operand's, then the right's,
      and none for a leaf. */
  function ChildVisits(e: Expression): seq<Visit>
    decreases e, 0
  {
    match e
    case BinaryOperation(l, _, r) => ExpressionVisits(l) + ExpressionVisits(r)
    case _ => []
  }

  function StatementVisits(st: Statement): seq<Visit> {
    [VStatement(st)] + ExpressionVisits(st.value)
  }

  function StatementsVisits(block: seq<Statement>): seq<Visit>
    decreases |block|
  {
    if |block| == 0 then [] else StatementVisits(block[0]) + StatementsVisits(block[1..])
  }

  function FunctionVisits(f: Function): seq<Visit> {
    [VFunction(f)] + StatementsVisits(f.block)
  }

  function FunctionsVisits(fs: seq<Function>): seq<Visit>
    decreases |fs|
  {
    if |fs| == 0 then [] else FunctionVisits(fs[0]) + FunctionsVisits(fs[1..])
  }

  function ClassVisits(c: Class): seq<Visit> {
    [VClass(c)] + FunctionsVisits(c.functions)
  }

  function ClassesVisits(cs: seq<Class>): seq<Visit>
    decreases |cs|
  {
    if |cs| == 0 then [] else ClassVisits(cs[0]) + ClassesVisits(cs[1..])
  }

  function PackageVisits(p: Package): seq<Visit> {
    [VPackage(p)] + ClassesVisits(p.classes)
  }

  // ---------------------------------------------------------------------------
  // The default visit methods and the walk helpers.

  /** `visit_expression` of a visitor whose own action is `step`. */
  function VisitExpression<S, E>(step: (S, Visit) -> Result<S, E>, s: S, e: Expression): Result<S, E>
    decreases e, 1
  {
    match step(s, VExpression(e))
    case Err(err) => Err(err)
    case Ok(s') => WalkExpression(step, s', e)
  }

  /** `walk_expression`: left operand, then right operand; a leaf visits nothing. */
  function WalkExpression<S, E>(step: (S, Visit) -> Result<S, E>, s: S, e: Expression): Result<S, E>
    decreases e, 0
  {
    match e
    case BinaryOperation(l, _, r) =>
      (match VisitExpression(step, s, l)
       case Err(err) => Err(err)
       case Ok(s') => VisitExpression(step, s', r))
    case _ => Ok(s)
  }

  /** `walk_statement`: visits the initialiser expression. */
  function WalkStatement<S, E>(step: (S, Visit) -> Result<S, E>, s: S, st: Statement): Result<S, E> {
    VisitExpression(step, s, st.value)
  }

  function VisitStatement<S, E>(step: (S, Visit) -> Result<S, E>, s: S, st: Statement): Result<S, E> {
    match step(s, VStatement(st))
    case Err(err) => Err(err)
    case Ok(s') => WalkStatement(step, s', st)
  }

  /** `walk_function`: the statements of the body in declaration order,
      stopping at the first failure. */
  method WalkFunction<S, E>(step: (S, Visit) -> Result<S, E>, s: S, f: Function) returns (r: Result<S, E>)
    ensures r == Run(step, s, StatementsVisits(f.block))
  {
    var cur := s;
    var i := 0;
    while i < |f.block|
      invariant 0 <= i <= |f.block|
      invariant Run(step, s, StatementsVisits(f.block)) == Run(step, cur, StatementsVisits(f.block[i..]))
    {
      var st := f.block[i];
      assert f.block[i..] == [st] + f.block[i + 1..];
      RunAppend(step, cur, StatementVisits(st), StatementsVisits(f.block[i + 1..]));
      VisitStatementRuns(step, cur, st);
      var res := VisitStatement(step, cur, st);
      if res.Err? {
        return Err(res.error);
      }
      cur := res.value;
      i := i + 1;
    }
    assert f.block[i..] == [];
    r := Ok(cur);
  }

  /** `visit_function` with the default descent. */
  method VisitFunction<S, E>(step: (S, Visit) -> Result<S, E>, s: S, f: Function) returns (r: Result<S, E>)
    ensures r == Run(step, s, FunctionVisits(f))
  {
    var first := step(s, VFunction(f));
    if first.Err? {
      return Err(first.error);
    }
    r := WalkFunction(step, first.value, f);
  }

  /** `walk_class`: the functions in declaration order, stopping at the first failure. */
  method WalkClass<S, E>(step: (S, Visit) -> Result<S, E>, s: S, c: Class) returns (r: Result<S, E>)
    ensures r == Run(step, s, FunctionsVisits(c.functions))
  {
    var cur := s;
    var i := 0;
    while i < |c.functions|
      invariant 0 <= i <= |c.functions|
      invariant Run(step, s, FunctionsVisits(c.functions)) == Run(step, cur, FunctionsVisits(c.functions[i..]))
    {
      var f := c.functions[i];
      assert c.functions[i..] == [f] + c.functions[i + 1..];
      RunAppend(step, cur, FunctionVisits(f), FunctionsVisits(c.functions[i + 1..]));
      var res := VisitFunction(step, cur, f);
      if res.Err? {
        return Err(res.error);
      }
      cur := res.value;
      i := i + 1;
    }
    assert c.functions[i..] == [];
    r := Ok(cur);
  }

  method VisitClass<S, E>(step: (S, Visit) -> Result<S, E>, s: S, c: Class) returns (r: Result<S, E>)
    ensures r == Run(step, s, ClassVisits(c))
  {
    var first := step(s, VClass(c));
    if first.Err? {
      return Err(first.error);
    }
    r := WalkClass(step, first.value, c);
  }

  /** `walk_package`: the classes in declaration order, stopping at the first failure. */
  method WalkPackage<S, E>(step: (S, Visit) -> Result<S, E>, s: S, p: Package) returns (r: Result<S, E>)
    ensures r == Run(step, s, ClassesVisits(p.classes))
  {
    var cur := s;
    var i := 0;
    while i < |p.classes|
      invariant 0 <= i <= |p.classes|
      invariant Run(step, s, ClassesVisits(p.classes)) == Run(step, cur, ClassesVisits(p.classes[i..]))
    {
      var c := p.classes[i];
      assert p.classes[i..] == [c] + p.classes[i + 1..];
      RunAppend(step, cur, ClassVisits(c), ClassesVisits(p.classes[i + 1..]));
      var res := VisitClass(step, cur, c);
      if res.Err? {
        return Err(res.error);
      }
      cur := res.value;
      i := i + 1;
    }
    assert p.classes[i..] == [];
    r := Ok(cur);
  }

  method VisitPackage<S, E>(step: (S, Visit) -> Result<S, E>, s: S, p: Package) returns (r: Result<S, E>)
    ensures r == Run(step, s, PackageVisits(p))
  {
    var first := step(s, VPackage(p));
    if first.Err? {
      return Err(first.error);
    }
    r := WalkPackage(step, first.value, p);
  }

  // ---------------------------------------------------------------------------
  // Lemmas.

  /** Running two lists of visits is running the first, then (if it did not
      fail) the second from the state the first left. */
  lemma {:induction false} RunAppend<S, E>(step: (S, Visit) -> Result<S, E>, s: S, a: seq<Visit>, b: seq<Visit>)
    ensures Run(step, s, a + b) ==
      match Run(step, s, a)
      case Err(e) => Err(e)
      case Ok(t) => Run(step, t, b)
    decreases |a|
  {
    if |a| == 0 {
      assert a + b == b;
    } else {
      assert (a + b)[0] == a[0];
      assert (a + b)[1..] == a[1..] + b;
      if step(s, a[0]).Ok? {
        RunAppend(step, step(s, a[0]).value, a[1..], b);
      }
    }
  }

  /** `visit_expression` makes exactly the pre-order visits of the expression:
      the node, then its left subtree, then its right subtree. */
  lemma {:induction false} VisitExpressionRuns<S, E>(step: (S, Visit) -> Result<S, E>, s: S, e: Expression)
    ensures VisitExpression(step, s, e) == Run(step, s, ExpressionVisits(e))
    ensures !e.BinaryOperation? ==> WalkExpression(step, s, e) == Ok(s)
    decreases e
  {
    RunAppend(step, s, [VExpression(e)], ChildVisits(e));
    if step(s, VExpression(e)).Ok? && e.BinaryOperation? {
      var s' := step(s, VExpression(e)).value;
      VisitExpressionRuns(step, s', e.lhs);
      RunAppend(step, s', ExpressionVisits(e.lhs), ExpressionVisits(e.rhs));
      if VisitExpression(step, s', e.lhs).Ok? {
        VisitExpressionRuns(step, VisitExpression(step, s', e.lhs).value, e.rhs);
      }
    }
  }

  lemma VisitStatementRuns<S, E>(step: (S, Visit) -> Result<S, E>, s: S, st: Statement)
    ensures VisitStatement(step, s, st) == Run(step, s, StatementVisits(st))
  {
    RunAppend(step, s, [VStatement(st)], ExpressionVisits(st.value));
    if step(s, VStatement(st)).Ok? {
      VisitExpressionRuns(step, step(s, VStatement(st)).value, st.value);
    }
  }

  /** Short-circuit: once a visit fails, no later visit is made and that
      failure is the result. */
  lemma {:induction false} RunStopsAtFirstFailure<S, E>(step: (S, Visit) -> Result<S, E>, s: S, visits: seq<Visit>, k: nat, t: S)
    requires k < |visits|
    requires Run(step, s, visits[..k]) == Ok(t)
    requires step(t, visits[k]).Err?
    ensures Run(step, s, visits) == Err(step(t, visits[k]).error)
  {
    assert visits == visits[..k] + visits[k..];
    RunAppend(step, s, visits[..k], visits[k..]);
  }

  /** Without failures the run visits everything: the final state is the
      left fold of `step` over the visits. */
  lemma {:induction false} RunTotal<S, E>(step: (S, Visit) -> Result<S, E>, s: S, visits: seq<Visit>)
    requires forall t: S, i :: 0 <= i < |visits| ==> step(t, visits[i]).Ok?
    ensures Run(step, s, visits).Ok?
    decreases |visits|
  {
    if |visits| > 0 {
      assert step(s, visits[0]).Ok?;
      RunTotal(step, step(s, visits[0]).value, visits[1..]);
    }
  }
}
