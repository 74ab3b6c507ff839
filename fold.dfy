/** The AST folder: default methods that rebuild each node from its folded
    children. A folder is modelled by its expression rewrite `fe`, which may
    fail (the constant folder panics on overflow); every other level copies its
    fields and maps its children in order, stopping at the first failure. */
module AstFold {
  import opened Base
  import opened Ast

  /** The default `fold_expression`: the identity. */
  function DefaultFoldExpression<E>(e: Expression): (r: Result<Expression, E>)
    ensures r == Ok(e)
  {
    Ok(e)
  }

  /** `fold_statement`: keeps the name and type, folds the initialiser. */
  function FoldStatement<E>(fe: Expression -> Result<Expression, E>, st: Statement): (r: Result<Statement, E>)
    ensures r.Ok? <==> fe(st.value).Ok?
    ensures r.Ok? ==> r.value == VarDecl(st.name, st.varType, fe(st.value).value)
    ensures r.Err? ==> r.error == fe(st.value).error
  {
    match fe(st.value)
    case Err(e) => Err(e)
    case Ok(v) => Ok(VarDecl(st.name, st.varType, v))
  }

  function FoldStatements<E>(fe: Expression -> Result<Expression, E>, block: seq<Statement>): (r: Result<seq<Statement>, E>)
    ensures r.Ok? <==> forall i :: 0 <= i < |block| ==> FoldStatement(fe, block[i]).Ok?
    ensures r.Ok? ==> |r.value| == |block|
    ensures r.Ok? ==> forall i :: 0 <= i < |block| ==> FoldStatement(fe, block[i]) == Ok(r.value[i])
    decreases |block|
  {
    if |block| == 0 then Ok([])
    else match FoldStatement(fe, block[0])
      case Err(e) => Err(e)
      case Ok(st) =>
        match FoldStatements(fe, block[1..])
        case Err(e) => Err(e)
        case Ok(rest) => Ok([st] + rest)
  }

  /** `fold_function`: folds the body statement by statement; the name,
      visibility, arguments and return type are copied. */
  function FoldFunction<E>(fe: Expression -> Result<Expression, E>, f: Function): (r: Result<Function, E>)
    ensures r.Ok? <==> FoldStatements(fe, f.block).Ok?
    ensures r.Ok? ==> r.value == f.(block := FoldStatements(fe, f.block).value)
  {
    match FoldStatements(fe, f.block)
    case Err(e) => Err(e)
    case Ok(block) => Ok(Function(f.name, f.visibility, f.arguments, f.returnType, block))
  }

  function FoldFunctions<E>(fe: Expression -> Result<Expression, E>, fs: seq<Function>): (r: Result<seq<Function>, E>)
    ensures r.Ok? <==> forall i :: 0 <= i < |fs| ==> FoldFunction(fe, fs[i]).Ok?
    ensures r.Ok? ==> |r.value| == |fs|
    ensures r.Ok? ==> forall i :: 0 <= i < |fs| ==> FoldFunction(fe, fs[i]) == Ok(r.value[i])
    decreases |fs|
  {
    if |fs| == 0 then Ok([])
    else match FoldFunction(fe, fs[0])
      case Err(e) => Err(e)
      case Ok(f) =>
        match FoldFunctions(fe, fs[1..])
        case Err(e) => Err(e)
        case Ok(rest) => Ok([f] + rest)
  }

  /** `fold_class`: folds the functions; name, visibility and members are copied. */
  function FoldClass<E>(fe: Expression -> Result<Expression, E>, c: Class): (r: Result<Class, E>)
    ensures r.Ok? <==> FoldFunctions(fe, c.functions).Ok?
    ensures r.Ok? ==> r.value == c.(functions := FoldFunctions(fe, c.functions).value)
  {
    match FoldFunctions(fe, c.functions)
    case Err(e) => Err(e)
    case Ok(functions) => Ok(Class(c.name, c.visibility, functions, c.members))
  }

  function FoldClasses<E>(fe: Expression -> Result<Expression, E>, cs: seq<Class>): (r: Result<seq<Class>, E>)
    ensures r.Ok? <==> forall i :: 0 <= i < |cs| ==> FoldClass(fe, cs[i]).Ok?
    ensures r.Ok? ==> |r.value| == |cs|
    ensures r.Ok? ==> forall i :: 0 <= i < |cs| ==> FoldClass(fe, cs[i]) == Ok(r.value[i])
    decreases |cs|
  {
    if |cs| == 0 then Ok([])
    else match FoldClass(fe, cs[0])
      case Err(e) => Err(e)
      case Ok(c) =>
        match FoldClasses(fe, cs[1..])
        case Err(e) => Err(e)
        case Ok(rest) => Ok([c] + rest)
  }

  /** `fold_package`: folds the classes; the package name is copied. */
  function FoldPackage<E>(fe: Expression -> Result<Expression, E>, p: Package): (r: Result<Package, E>)
    ensures r.Ok? <==> FoldClasses(fe, p.classes).Ok?
    ensures r.Ok? ==> r.value == p.(classes := FoldClasses(fe, p.classes).value)
  {
    match FoldClasses(fe, p.classes)
    case Err(e) => Err(e)
    case Ok(classes) => Ok(Package(p.name, classes))
  }

  /** A statement list whose every statement folds to itself folds to itself. */
  lemma {:induction false} FoldStatementsIdentity<E>(fe: Expression -> Result<Expression, E>, block: seq<Statement>)
    requires forall st :: st in block ==> FoldStatement(fe, st) == Ok(st)
    ensures FoldStatements(fe, block) == Ok(block)
    decreases |block|
  {
    if |block| > 0 {
      assert block[0] in block;
      FoldStatementsIdentity(fe, block[1..]);
      assert [block[0]] + block[1..] == block;
    }
  }

  /** A function list whose every function folds to itself folds to itself. */
  lemma {:induction false} FoldFunctionsIdentity<E>(fe: Expression -> Result<Expression, E>, fs: seq<Function>)
    requires forall f :: f in fs ==> FoldFunction(fe, f) == Ok(f)
    ensures FoldFunctions(fe, fs) == Ok(fs)
    decreases |fs|
  {
    if |fs| > 0 {
      assert fs[0] in fs;
      FoldFunctionsIdentity(fe, fs[1..]);
      assert [fs[0]] + fs[1..] == fs;
    }
  }

  /** A class list whose every class folds to itself folds to itself. */
  lemma {:induction false} FoldClassesIdentity<E>(fe: Expression -> Result<Expression, E>, cs: seq<Class>)
    requires forall c :: c in cs ==> FoldClass(fe, c) == Ok(c)
    ensures FoldClasses(fe, cs) == Ok(cs)
    decreases |cs|
  {
    if |cs| > 0 {
      assert cs[0] in cs;
      FoldClassesIdentity(fe, cs[1..]);
      assert [cs[0]] + cs[1..] == cs;
    }
  }

  /** A folder whose expression rewrite never changes anything rebuilds every
      function unchanged. */
  lemma FoldFunctionIdentity<E>(fe: Expression -> Result<Expression, E>, f: Function)
    requires forall e :: fe(e) == Ok(e)
    ensures FoldFunction(fe, f) == Ok(f)
  {
    FoldStatementsIdentity(fe, f.block);
  }

  /** ... and every class. */
  lemma FoldClassIdentity<E>(fe: Expression -> Result<Expression, E>, c: Class)
    requires forall e :: fe(e) == Ok(e)
    ensures FoldClass(fe, c) == Ok(c)
  {
    forall f | f in c.functions
      ensures FoldFunction(fe, f) == Ok(f)
    {
      FoldFunctionIdentity(fe, f);
    }
    FoldFunctionsIdentity(fe, c.functions);
  }

  /** ... and every package. */
  lemma FoldPackageIdentity<E>(fe: Expression -> Result<Expression, E>, p: Package)
    requires forall e :: fe(e) == Ok(e)
    ensures FoldPackage(fe, p) == Ok(p)
  {
    forall c | c in p.classes
      ensures FoldClass(fe, c) == Ok(c)
    {
      FoldClassIdentity(fe, c);
    }
    FoldClassesIdentity(fe, p.classes);
  }

  /** With only the default methods, folding a package is the identity. */
  lemma DefaultFoldPackageIsIdentity<E>(p: Package)
    ensures FoldPackage(DefaultFoldExpression<E>, p) == Ok(p)
  {
    FoldPackageIdentity(DefaultFoldExpression<E>, p);
  }
}
