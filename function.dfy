/** Lowering of one function body: a first pass that numbers the function's
    locals (arguments, then declared variables, from register 1), and a
    second that emits stack-machine code for the body, post-order. */
module FunctionGen {
  import opened Base
  import opened ParserCommon
  import opened Ast
  import Abc
  import Pool
  import opened CodeGen

  // ---------------------------------------------------------------------------
  // Register numbering.

  /** The collector's state: name-to-register map and the last register handed out. */
  datatype Registers = Registers(vars: map<string, uint32>, current: uint32)

  const NoRegisters := Registers(map[], 0)

  /** The numbering invariant: registers are distinct, lie in 1 .. current and
      are as many as current, so they are exactly 1 .. current (register 0,
      the receiver, is never handed out). */
  predicate Numbered(r: Registers) {
    (forall a, b :: a in r.vars && b in r.vars && a != b ==> r.vars[a] != r.vars[b]) &&
    (forall n :: n in r.vars ==> 1 <= r.vars[n] <= r.current) &&
    |r.vars| == r.current as int
  }

  /** `add_var`: a new name gets the next register; a known name keeps its own. */
  function Register(r: Registers, name: string): (s: Registers)
    requires name in r.vars || r.current < U32_LIMIT - 1
    ensures name in s.vars
    ensures name in r.vars ==> s == r
    ensures name !in r.vars ==> s.current == r.current + 1 && s.vars == r.vars[name := s.current]
  {
    if name in r.vars then r
    else Registers(r.vars[name := r.current + 1], r.current + 1)
  }

  /** Registering `names` in order. */
  function RegisterAll(r: Registers, names: seq<string>): (s: Registers)
    requires r.current + |names| < U32_LIMIT
    ensures r.current <= s.current <= r.current + |names|
    decreases |names|
  {
    if |names| == 0 then r
    else Register(RegisterAll(r, names[..|names| - 1]), names[|names| - 1])
  }

  /** Registering one more name of a list extends the numbering of the names before it. */
  lemma RegisterAllSnoc(r: Registers, names: seq<string>, i: nat)
    requires i < |names| && r.current + |names| < U32_LIMIT
    ensures RegisterAll(r, names[..i + 1]) == Register(RegisterAll(r, names[..i]), names[i])
  {
    assert names[..i + 1][..i] == names[..i];
  }

  /** Registering two lists in turn is registering their concatenation. */
  lemma {:induction false} RegisterAllAppend(r: Registers, a: seq<string>, b: seq<string>)
    requires r.current + |a| + |b| < U32_LIMIT
    ensures RegisterAll(r, a + b) == RegisterAll(RegisterAll(r, a), b)
    decreases |b|
  {
    if |b| == 0 {
      assert a + b == a;
    } else {
      var init := b[..|b| - 1];
      assert (a + b)[..|a + b| - 1] == a + init;
      RegisterAllAppend(r, a, init);
    }
  }

  /** The names `name` reads off `xs`, in order. */
  function Names<T>(xs: seq<T>, name: T -> string): (names: seq<string>)
    ensures |names| == |xs| && forall i :: 0 <= i < |xs| ==> names[i] == name(xs[i])
    decreases |xs|
  {
    if |xs| == 0 then [] else [name(xs[0])] + Names(xs[1..], name)
  }

  function ArgumentNames(args: seq<Argument>): seq<string> {
    Names(args, (a: Argument) => a.name)
  }

  function DeclaredNames(block: seq<Statement>): seq<string> {
    Names(block, (st: Statement) => st.name)
  }

  /** Every name the collector registers for `f`, in registration order. */
  function LocalNames(f: Function): seq<string> {
    ArgumentNames(f.arguments) + DeclaredNames(f.block)
  }

  /** Registering a new name keeps the numbering invariant. */
  lemma RegisterNumbered(r: Registers, name: string)
    requires Numbered(r) && (name in r.vars || r.current < U32_LIMIT - 1)
    ensures Numbered(Register(r, name))
  {
  }

  /** Registering any names keeps the numbering invariant, never renumbers a
      name, and registers exactly the given names. */
  lemma {:induction false} AddVarsNumbered(r: Registers, names: seq<string>)
    requires Numbered(r) && r.current + |names| < U32_LIMIT
    ensures Numbered(RegisterAll(r, names))
    ensures forall n :: n in r.vars ==> n in RegisterAll(r, names).vars && RegisterAll(r, names).vars[n] == r.vars[n]
    ensures forall n :: n in RegisterAll(r, names).vars <==> n in r.vars || n in names
    decreases |names|
  {
    if |names| > 0 {
      var init := names[..|names| - 1];
      AddVarsNumbered(r, init);
      RegisterNumbered(RegisterAll(r, init), names[|names| - 1]);
      assert names == init + [names[|names| - 1]];
    }
  }

  /** From no registrations, every name gets 1 + its position among the
      distinct names in first-seen order: the first registration wins. */
  lemma {:induction false} AddVarsFirstSeen(names: seq<string>)
    requires |names| < U32_LIMIT
    ensures RegisterAll(NoRegisters, names).current == |Pool.FirstSeen(names)|
    ensures forall n :: n in RegisterAll(NoRegisters, names).vars <==> n in names
    ensures forall n :: n in RegisterAll(NoRegisters, names).vars ==>
      IndexOf(Pool.FirstSeen(names), n).Some? &&
      RegisterAll(NoRegisters, names).vars[n] == IndexOf(Pool.FirstSeen(names), n).value + 1
    decreases |names|
  {
    Pool.FirstSeenElements(names);
    if |names| > 0 {
      var init := names[..|names| - 1];
      var last := names[|names| - 1];
      AddVarsFirstSeen(init);
      Pool.FirstSeenElements(init);
      var prev := Pool.FirstSeen(init);
      var r := RegisterAll(NoRegisters, init);
      assert names == init + [last];
      assert RegisterAll(NoRegisters, names) == Register(r, last);
      if last !in init {
        assert Pool.FirstSeen(names) == prev + [last];
        RegisterFirstSeenStep(r, prev, last);
      }
    }
  }

  /** One new name: it takes the next register, which is 1 + its position at
      the end of the first-seen list; earlier names keep theirs. */
  lemma RegisterFirstSeenStep(r: Registers, prev: seq<string>, last: string)
    requires last !in r.vars && last !in prev
    requires r.current == |prev| && |prev| < U32_LIMIT - 1
    requires forall n :: n in r.vars ==> IndexOf(prev, n).Some? && r.vars[n] == IndexOf(prev, n).value + 1
    ensures forall n :: n in Register(r, last).vars ==>
      IndexOf(prev + [last], n).Some? && Register(r, last).vars[n] == IndexOf(prev + [last], n).value + 1
  {
    forall n | n in Register(r, last).vars
      ensures IndexOf(prev + [last], n).Some? && Register(r, last).vars[n] == IndexOf(prev + [last], n).value + 1
    {
      if n == last {
        assert (prev + [last])[..|prev|] == prev;
      } else {
        IndexOfPrefix(prev + [last], prev, n);
      }
    }
  }

  /** A function's arguments, when distinct, get registers 1 .. N in order,
      whatever its body declares. */
  lemma ArgumentsNumberedFirst(f: Function)
    requires |LocalNames(f)| < U32_LIMIT
    requires NoDuplicates(ArgumentNames(f.arguments))
    ensures var r := RegisterAll(NoRegisters, LocalNames(f));
      forall i :: 0 <= i < |f.arguments| ==>
        f.arguments[i].name in r.vars && r.vars[f.arguments[i].name] == i + 1
  {
    var args := ArgumentNames(f.arguments);
    AddVarsFirstSeen(LocalNames(f));
    DistinctPrefixFirstSeen(args, DeclaredNames(f.block));
    forall i | 0 <= i < |f.arguments|
      ensures args[i] in LocalNames(f)
    {
      assert LocalNames(f)[i] == args[i];
    }
  }

  /** The distinct values of `a + b`, for duplicate-free `a`, list `a` first. */
  lemma DistinctPrefixFirstSeen<T>(a: seq<T>, b: seq<T>)
    requires NoDuplicates(a)
    ensures forall i :: 0 <= i < |a| ==> IndexOf(Pool.FirstSeen(a + b), a[i]) == Some(i)
  {
    Pool.FirstSeenAppend(a, b);
    Pool.FirstSeenOfDistinct(a);
    forall i | 0 <= i < |a|
      ensures IndexOf(Pool.FirstSeen(a + b), a[i]) == Some(i)
    {
      IndexOfPrefix(Pool.FirstSeen(a + b), a, a[i]);
    }
  }

  /** Arguments `a, b` and declarations `c, a`: `a` is 1, `b` is 2, `c` is 3,
      and the redeclared `a` keeps 1. */
  lemma CollectExample()
    ensures RegisterAll(NoRegisters, ["a", "b", "c", "a"]) == Registers(map["a" := 1, "b" := 2, "c" := 3], 3)
  {
    var names := ["a", "b", "c", "a"];
    assert names[..3] == ["a", "b", "c"];
    assert names[..3][..2] == ["a", "b"];
    assert names[..3][..2][..1] == ["a"];
    assert names[..3][..2][..1][..0] == [];
    assert RegisterAll(NoRegisters, ["a"]) == Registers(map["a" := 1], 1);
    assert RegisterAll(NoRegisters, ["a", "b"]) == Registers(map["a" := 1, "b" := 2], 2);
    assert RegisterAll(NoRegisters, ["a", "b", "c"]) == Registers(map["a" := 1, "b" := 2, "c" := 3], 3);
  }

  /** A declaration may repeat an argument's name; it keeps the argument's
      register and hands out no new one. */
  lemma RedeclarationKeepsRegister(r: Registers, name: string)
    requires name in r.vars
    ensures Register(r, name) == r
  {
  }

  // ---------------------------------------------------------------------------
  // Code for expressions, statements and functions.

  function ArithOp(op: Operator): Abc.AbcOp {
    match op
    case Add => Abc.AbcOp.Add
    case Sub => Abc.AbcOp.Subtract
    case Mul => Abc.AbcOp.Multiply
    case Div => Abc.AbcOp.Divide
  }

  /** The code `visit_expression` emits: operands left then right, then the
      operator; integers by `PushIntOp`; strings as a placeholder push;
      variables as a read of their register. */
  function ExpressionCode(vars: map<string, uint32>, e: Expression): Result<seq<WrappedOp>, GenError> {
    match e
    case BinaryOperation(l, op, r) =>
      (match ExpressionCode(vars, l)
       case Err(err) => Err(err)
       case Ok(a) =>
         match ExpressionCode(vars, r)
         case Err(err) => Err(err)
         case Ok(b) => Ok(a + b + [RawOp(ArithOp(op))]))
    case Integer(v) =>
      (match PushIntOp(v)
       case Err(err) => Err(err)
       case Ok(push) => Ok([RawOp(push)]))
    case String(s) => Ok([PushString(s)])
    case Bool(b) => Ok([RawOp(if b then Abc.AbcOp.PushTrue else Abc.AbcOp.PushFalse)])
    case Variable(n) => if n in vars then Ok([RawOp(Abc.AbcOp.GetLocal(vars[n]))]) else Err(UnknownVariable(n))
  }

  /** `visit_statement`: the value, a coercion (only `*` is supported), and a
      write of the variable's register. */
  function StatementCode(vars: map<string, uint32>, st: Statement): Result<seq<WrappedOp>, GenError> {
    match ExpressionCode(vars, st.value)
    case Err(err) => Err(err)
    case Ok(c) =>
      if st.varType != Any then Err(UnsupportedVarType)
      else if st.name !in vars then Err(UnknownVariable(st.name))
      else Ok(c + [RawOp(Abc.AbcOp.CoerceA), RawOp(Abc.AbcOp.SetLocal(vars[st.name]))])
  }

  function BlockCode(vars: map<string, uint32>, block: seq<Statement>): Result<seq<WrappedOp>, GenError>
    decreases |block|
  {
    if |block| == 0 then Ok([])
    else
      match BlockCode(vars, block[..|block| - 1])
      case Err(err) => Err(err)
      case Ok(c) =>
        match StatementCode(vars, block[|block| - 1])
        case Err(err) => Err(err)
        case Ok(d) => Ok(c + d)
  }

  const Prologue: seq<WrappedOp> := [RawOp(Abc.AbcOp.GetLocal(0)), RawOp(Abc.AbcOp.PushScope)]

  /** `visit_function`: the prologue, the body, and `ReturnVoid` (only `void`
      functions are supported). */
  function FunctionCode(vars: map<string, uint32>, f: Function): Result<seq<WrappedOp>, GenError> {
    match BlockCode(vars, f.block)
    case Err(err) => Err(err)
    case Ok(body) =>
      if f.returnType == Void then Ok(Prologue + body + [RawOp(Abc.AbcOp.ReturnVoid)])
      else Err(UnsupportedReturnType)
  }

  // ---------------------------------------------------------------------------
  // An independent reading of the code: a symbolic stack machine.

  /** What a stack slot or register holds: a literal, the content of a
      register at function entry, or an operation on two such values. */
  datatype SymValue =
    | SInt(intValue: int)
    | SStr(strValue: string)
    | SBool(boolValue: bool)
    | SRegister(register: nat)
    | SBin(left: SymValue, op: Operator, right: SymValue)

  datatype Machine = Machine(stack: seq<SymValue>, locals: map<nat, SymValue>, scopes: seq<SymValue>, returned: bool)

  function Pop2(m: Machine, op: Operator): Option<Machine> {
    if |m.stack| < 2 then None
    else
      var n := |m.stack|;
      Some(m.(stack := m.stack[..n - 2] + [SBin(m.stack[n - 2], op, m.stack[n - 1])]))
  }

  /** One operation; `None` on stack underflow or an operation the lowering never emits. */
  function Step(m: Machine, w: WrappedOp): Option<Machine> {
    match w
    case PushString(s) => Some(m.(stack := m.stack + [SStr(s)]))
    case GetLocal(_) => None
    case SetLocal(_) => None
    case RawOp(op) => RawStep(m, op)
  }

  function RawStep(m: Machine, op: Abc.AbcOp): Option<Machine> {
    match op
    case PushByte(v) => Some(m.(stack := m.stack + [SInt(v)]))
    case PushShort(v) => Some(m.(stack := m.stack + [SInt(v)]))
    case PushTrue => Some(m.(stack := m.stack + [SBool(true)]))
    case PushFalse => Some(m.(stack := m.stack + [SBool(false)]))
    case GetLocal(i) =>
      if i in m.locals then Some(m.(stack := m.stack + [m.locals[i]]))
      else Some(m.(stack := m.stack + [SRegister(i)]))
    case Add => Pop2(m, Operator.Add)
    case Subtract => Pop2(m, Sub)
    case Multiply => Pop2(m, Mul)
    case Divide => Pop2(m, Div)
    case CoerceA => if |m.stack| == 0 then None else Some(m)
    case SetLocal(i) =>
      if |m.stack| == 0 then None
      else Some(m.(stack := m.stack[..|m.stack| - 1], locals := m.locals[i := m.stack[|m.stack| - 1]]))
    case PushScope =>
      if |m.stack| == 0 then None
      else Some(m.(stack := m.stack[..|m.stack| - 1], scopes := m.scopes + [m.stack[|m.stack| - 1]]))
    case ReturnVoid => Some(m.(returned := true))
    case _ => None
  }

  function Exec(m: Machine, code: seq<WrappedOp>): Option<Machine>
    decreases |code|
  {
    if |code| == 0 then Some(m)
    else match Step(m, code[0])
      case None => None
      case Some(m') => Exec(m', code[1..])
  }

  lemma {:induction false} ExecAppend(m: Machine, a: seq<WrappedOp>, b: seq<WrappedOp>)
    ensures Exec(m, a + b) == (match Exec(m, a) case None => None case Some(m') => Exec(m', b))
    decreases |a|
  {
    if |a| == 0 {
      assert a + b == b;
    } else {
      assert (a + b)[0] == a[0];
      assert (a + b)[1..] == a[1..] + b;
      match Step(m, a[0])
      case None =>
      case Some(m') => ExecAppend(m', a[1..], b);
    }
  }

  /** The value of an expression in terms of the registers' current values. */
  function Meaning(vars: map<string, uint32>, locals: map<nat, SymValue>, e: Expression): SymValue {
    match e
    case Integer(v) => SInt(v)
    case String(s) => SStr(s)
    case Bool(b) => SBool(b)
    case Variable(n) =>
      if n in vars && vars[n] as nat in locals then locals[vars[n] as nat]
      else if n in vars then SRegister(vars[n] as nat)
      else SRegister(0)
    case BinaryOperation(l, op, r) => SBin(Meaning(vars, locals, l), op, Meaning(vars, locals, r))
  }

  /** Lowering succeeds exactly when every variable has a register and every
      integer literal fits a push form; each node then emits exactly one
      operation. */
  predicate Lowerable(vars: map<string, uint32>, e: Expression) {
    match e
    case Integer(v) => PushIntOp(v).Ok?
    case Variable(n) => n in vars
    case BinaryOperation(l, _, r) => Lowerable(vars, l) && Lowerable(vars, r)
    case _ => true
  }

  lemma {:induction false} ExpressionCodeShape(vars: map<string, uint32>, e: Expression)
    ensures ExpressionCode(vars, e).Ok? <==> Lowerable(vars, e)
    ensures ExpressionCode(vars, e).Ok? ==> |ExpressionCode(vars, e).value| == Size(e)
  {
    if e.BinaryOperation? {
      ExpressionCodeShape(vars, e.lhs);
      ExpressionCodeShape(vars, e.rhs);
    }
  }

  /** Running an expression's code leaves every register as it was and pushes
      exactly the expression's value. */
  lemma {:induction false} ExpressionCodeRuns(vars: map<string, uint32>, e: Expression, m: Machine)
    requires ExpressionCode(vars, e).Ok?
    ensures Exec(m, ExpressionCode(vars, e).value) == Some(m.(stack := m.stack + [Meaning(vars, m.locals, e)]))
  {
    match e
    case BinaryOperation(l, op, r) =>
      var a := ExpressionCode(vars, l).value;
      var b := ExpressionCode(vars, r).value;
      var x, y := Meaning(vars, m.locals, l), Meaning(vars, m.locals, r);
      var ml := m.(stack := m.stack + [x]);
      var mr := ml.(stack := ml.stack + [y]);
      ExpressionCodeRuns(vars, l, m);
      ExpressionCodeRuns(vars, r, ml);
      ExecAppend(m, a, b);
      assert Exec(m, a + b) == Some(mr);
      ExecOne(mr, RawOp(ArithOp(op)));
      OperatorRuns(mr, op);
      assert mr.stack[..|mr.stack| - 2] == m.stack;
      assert Pop2(mr, op) == Some(m.(stack := m.stack + [SBin(x, op, y)]));
      ExecAppend(m, a + b, [RawOp(ArithOp(op))]);
      assert ExpressionCode(vars, e).value == a + b + [RawOp(ArithOp(op))];
    case Integer(v) =>
      ExecOne(m, RawOp(PushIntOp(v).value));
    case String(s) =>
      ExecOne(m, PushString(s));
    case Bool(v) =>
      ExecOne(m, RawOp(if v then Abc.AbcOp.PushTrue else Abc.AbcOp.PushFalse));
    case Variable(n) =>
      ExecOne(m, RawOp(Abc.AbcOp.GetLocal(vars[n])));
  }

  /** A one-operation sequence runs that operation. */
  lemma ExecOne(m: Machine, w: WrappedOp)
    ensures Exec(m, [w]) == Step(m, w)
  {
    assert [w][1..] == [];
  }

  /** Each arithmetic operation combines the two topmost values. */
  lemma OperatorRuns(m: Machine, op: Operator)
    ensures Step(m, RawOp(ArithOp(op))) == Pop2(m, op)
  {
  }

  /** Running a statement's code leaves the stack as it was and stores the
      value in the variable's register. */
  lemma StatementCodeRuns(vars: map<string, uint32>, st: Statement, m: Machine)
    requires StatementCode(vars, st).Ok?
    ensures st.name in vars
    ensures Exec(m, StatementCode(vars, st).value) ==
      Some(m.(locals := m.locals[vars[st.name] as nat := Meaning(vars, m.locals, st.value)]))
  {
    var c := ExpressionCode(vars, st.value).value;
    var tail := [RawOp(Abc.AbcOp.CoerceA), RawOp(Abc.AbcOp.SetLocal(vars[st.name]))];
    ExpressionCodeRuns(vars, st.value, m);
    ExecAppend(m, c, tail);
    var v := Meaning(vars, m.locals, st.value);
    var m1 := m.(stack := m.stack + [v]);
    assert m1.stack[..|m1.stack| - 1] == m.stack;
    var m2 := m.(locals := m.locals[vars[st.name] as nat := v]);
    assert tail[1..][1..] == [];
    assert Exec(m1, tail[1..]) == Some(m2);
    assert Exec(m1, tail) == Some(m2);
  }

  /** The registers after the statements of a block, in order. */
  function BlockEffect(vars: map<string, uint32>, block: seq<Statement>, locals: map<nat, SymValue>): map<nat, SymValue>
    decreases |block|
  {
    if |block| == 0 then locals
    else
      var before := BlockEffect(vars, block[..|block| - 1], locals);
      var st := block[|block| - 1];
      if st.name in vars then before[vars[st.name] as nat := Meaning(vars, before, st.value)] else before
  }

  lemma {:induction false} BlockCodeRuns(vars: map<string, uint32>, block: seq<Statement>, m: Machine)
    requires BlockCode(vars, block).Ok?
    ensures Exec(m, BlockCode(vars, block).value) == Some(m.(locals := BlockEffect(vars, block, m.locals)))
    decreases |block|
  {
    if |block| > 0 {
      var init := block[..|block| - 1];
      BlockCodeRuns(vars, init, m);
      var m1 := m.(locals := BlockEffect(vars, init, m.locals));
      StatementCodeRuns(vars, block[|block| - 1], m1);
      ExecAppend(m, BlockCode(vars, init).value, StatementCode(vars, block[|block| - 1]).value);
    }
  }

  /** A lowered function, run from an empty stack, pushes the receiver as its
      scope, performs its statements' stores in order, and returns with
      nothing left on the stack. */
  lemma FunctionCodeRuns(vars: map<string, uint32>, f: Function, locals: map<nat, SymValue>)
    requires FunctionCode(vars, f).Ok?
    requires 0 !in locals
    ensures Exec(Machine([], locals, [], false), FunctionCode(vars, f).value) ==
      Some(Machine([], BlockEffect(vars, f.block, locals), [SRegister(0)], true))
  {
    var body := BlockCode(vars, f.block).value;
    var m0 := Machine([], locals, [], false);
    var m2 := Machine([], locals, [SRegister(0)], false);
    PrologueRuns(locals);
    BlockCodeRuns(vars, f.block, m2);
    ExecAppend(m0, Prologue, body);
    var m3 := m2.(locals := BlockEffect(vars, f.block, locals));
    ExecOne(m3, RawOp(Abc.AbcOp.ReturnVoid));
    ExecAppend(m0, Prologue + body, [RawOp(Abc.AbcOp.ReturnVoid)]);
  }

  /** The prologue reads the receiver from register 0 and pushes it as the
      scope, leaving the stack empty. */
  lemma PrologueRuns(locals: map<nat, SymValue>)
    requires 0 !in locals
    ensures Exec(Machine([], locals, [], false), Prologue) == Some(Machine([], locals, [SRegister(0)], false))
  {
    var m0 := Machine([], locals, [], false);
    var m1 := Machine([SRegister(0)], locals, [], false);
    var m2 := Machine([], locals, [SRegister(0)], false);
    assert m0.stack + [SRegister(0)] == [SRegister(0)];
    assert RawStep(m0, Abc.AbcOp.GetLocal(0)) == Some(m1);
    assert m1.stack[..|m1.stack| - 1] == [] && m1.scopes + [SRegister(0)] == [SRegister(0)];
    assert Step(m1, RawOp(Abc.AbcOp.PushScope)) == Some(m2);
    ExecOne(m1, RawOp(Abc.AbcOp.PushScope));
    assert Prologue[1..] == [RawOp(Abc.AbcOp.PushScope)];
  }

  /** Lowering a function fails exactly when some statement fails or its
      return type is not `void`. */
  lemma {:induction false} BlockCodeSucceeds(vars: map<string, uint32>, block: seq<Statement>)
    ensures BlockCode(vars, block).Ok? <==> forall i :: 0 <= i < |block| ==> StatementCode(vars, block[i]).Ok?
    decreases |block|
  {
    if |block| > 0 {
      var init := block[..|block| - 1];
      BlockCodeSucceeds(vars, init);
      assert forall i :: 0 <= i < |init| ==> init[i] == block[i];
    }
  }

  // ---------------------------------------------------------------------------
  // The two visitors.

  /** `VariableCollectVisitor`. */
  class VariableCollector {
    var currentIndex: uint32
    var variables: map<string, uint32>

    constructor ()
      ensures currentIndex == 0 && variables == map[]
    {
      currentIndex := 0;
      variables := map[];
    }

    function State(): Registers
      reads this
    {
      Registers(variables, currentIndex)
    }

    /** `fetch_index`: pre-increments, so the first index handed out is 1. */
    method FetchIndex() returns (index: uint32)
      requires currentIndex < U32_LIMIT - 1
      modifies this
      ensures currentIndex == old(currentIndex) + 1 && index == currentIndex
      ensures variables == old(variables)
    {
      currentIndex := currentIndex + 1;
      index := currentIndex;
    }

    method AddVar(name: string)
      requires name in variables || currentIndex < U32_LIMIT - 1
      modifies this
      ensures State() == Register(old(State()), name)
    {
      if name !in variables {
        var index := FetchIndex();
        variables := variables[name := index];
      }
    }

    /** Registers the declared name; walking the initialiser registers nothing. */
    method VisitStatement(st: Statement) returns (r: Outcome<GenError>)
      requires st.name in variables || currentIndex < U32_LIMIT - 1
      modifies this
      ensures r == Pass
      ensures State() == Register(old(State()), st.name)
    {
      AddVar(st.name);
      r := Pass;
    }

    /** Arguments first, then the walk over the body's declarations. */
    method VisitFunction(f: Function) returns (r: Outcome<GenError>)
      requires currentIndex + |LocalNames(f)| < U32_LIMIT
      modifies this
      ensures r == Pass
      ensures State() == RegisterAll(old(State()), LocalNames(f))
    {
      var start := State();
      var args := ArgumentNames(f.arguments);
      for i := 0 to |f.arguments|
        invariant State() == RegisterAll(start, args[..i])
      {
        RegisterAllSnoc(start, args, i);
        AddVar(f.arguments[i].name);
      }
      assert args[..|f.arguments|] == args;
      r := WalkFunction(f);
      RegisterAllAppend(start, args, DeclaredNames(f.block));
    }

    /** `walk_function`: visits the body's statements in order. */
    method WalkFunction(f: Function) returns (r: Outcome<GenError>)
      requires currentIndex + |f.block| < U32_LIMIT
      modifies this
      ensures r == Pass
      ensures State() == RegisterAll(old(State()), DeclaredNames(f.block))
    {
      var start := State();
      var decls := DeclaredNames(f.block);
      for i := 0 to |f.block|
        invariant State() == RegisterAll(start, decls[..i])
      {
        RegisterAllSnoc(start, decls, i);
        var _ := VisitStatement(f.block[i]);
      }
      assert decls[..|f.block|] == decls;
      r := Pass;
    }

    method VisitClass(c: Class) returns (r: Outcome<GenError>)
      ensures r == Fail(UnsupportedOperation)
    {
      r := Fail(UnsupportedOperation);
    }

    method VisitPackage(p: Package) returns (r: Outcome<GenError>)
      ensures r == Fail(UnsupportedOperation)
    {
      r := Fail(UnsupportedOperation);
    }
  }

  /** `FunctionGenerator`: appends the lowered code to a shared buffer. */
  class FunctionGenerator {
    const context: CodeGenerationContext
    const variables: map<string, uint32>

    constructor (collected: VariableCollector, context: CodeGenerationContext)
      ensures this.context == context && variables == collected.variables
    {
      this.context := context;
      variables := collected.variables;
    }

    method VisitExpression(e: Expression) returns (r: Outcome<GenError>)
      modifies context
      ensures r.Pass? <==> ExpressionCode(variables, e).Ok?
      ensures r.Pass? ==> context.code == old(context.code) + ExpressionCode(variables, e).value
      ensures r.Fail? ==> r.error == ExpressionCode(variables, e).error
    {
      match e
      case BinaryOperation(l, op, rt) =>
        var left := VisitExpression(l);
        if left.Fail? {
          return left;
        }
        var right := VisitExpression(rt);
        if right.Fail? {
          return right;
        }
        context.EmitOp(ArithOp(op));
        r := Pass;
      case Integer(v) =>
        r := context.EmitStackPushInt(v);
      case String(s) =>
        context.EmitWrappedOp(PushString(s));
        r := Pass;
      case Bool(b) =>
        context.PushBool(b);
        r := Pass;
      case Variable(n) =>
        if n !in variables {
          return Fail(UnknownVariable(n));
        }
        context.EmitOp(Abc.AbcOp.GetLocal(variables[n]));
        r := Pass;
    }

    method VisitStatement(st: Statement) returns (r: Outcome<GenError>)
      modifies context
      ensures r.Pass? <==> StatementCode(variables, st).Ok?
      ensures r.Pass? ==> context.code == old(context.code) + StatementCode(variables, st).value
      ensures r.Fail? ==> r.error == StatementCode(variables, st).error
    {
      r := VisitExpression(st.value);
      if r.Fail? {
        return;
      }
      if st.varType != Any {
        return Fail(UnsupportedVarType);
      }
      context.EmitOp(Abc.AbcOp.CoerceA);
      if st.name !in variables {
        return Fail(UnknownVariable(st.name));
      }
      context.EmitOp(Abc.AbcOp.SetLocal(variables[st.name]));
    }

    method VisitFunction(f: Function) returns (r: Outcome<GenError>)
      modifies context
      ensures r.Pass? <==> FunctionCode(variables, f).Ok?
      ensures r.Pass? ==> context.code == old(context.code) + FunctionCode(variables, f).value
      ensures r.Fail? ==> r.error == FunctionCode(variables, f).error
    {
      context.EmitOp(Abc.AbcOp.GetLocal(0));
      context.EmitOp(Abc.AbcOp.PushScope);
      var start := context.code;
      for i := 0 to |f.block|
        invariant BlockCode(variables, f.block[..i]).Ok?
        invariant context.code == start + BlockCode(variables, f.block[..i]).value
      {
        assert f.block[..i + 1][..i] == f.block[..i];
        var s := VisitStatement(f.block[i]);
        if s.Fail? {
          BlockCodeErrorSticks(variables, f.block, i + 1);
          return s;
        }
      }
      assert f.block[..|f.block|] == f.block;
      if f.returnType != Void {
        return Fail(UnsupportedReturnType);
      }
      context.EmitOp(Abc.AbcOp.ReturnVoid);
      r := Pass;
    }
  }

  lemma {:induction false} BlockCodeErrorSticks(vars: map<string, uint32>, block: seq<Statement>, k: nat)
    requires k <= |block| && BlockCode(vars, block[..k]).Err?
    ensures BlockCode(vars, block) == BlockCode(vars, block[..k])
    decreases |block| - k
  {
    if k == |block| {
      assert block[..k] == block;
    } else {
      assert block[..k + 1][..k] == block[..k];
      BlockCodeErrorSticks(vars, block, k + 1);
    }
  }
}
