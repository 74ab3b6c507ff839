/** The code generator's entry point: each function is lowered by numbering
    its locals first and then emitting its code with that numbering. */
module Generator {
  import opened Base
  import opened ParserCommon
  import opened Ast
  import Abc
  import opened CodeGen
  import opened FunctionGen

  /** The registers the collector assigns to `f`'s locals. */
  function Collected(f: Function): map<string, uint32>
    requires |LocalNames(f)| < U32_LIMIT
  {
    RegisterAll(NoRegisters, LocalNames(f)).vars
  }

  class CodeGenerator {
    const context: CodeGenerationContext

    constructor ()
      ensures fresh(context) && context.code == []
    {
      context := new CodeGenerationContext();
    }

    /** `visit_function`: the collector pass, then the generator pass with the
        collector's numbering, appending to the shared buffer. */
    method VisitFunction(f: Function) returns (r: Outcome<GenError>)
      requires |LocalNames(f)| < U32_LIMIT
      modifies context
      ensures r.Pass? <==> FunctionCode(Collected(f), f).Ok?
      ensures r.Pass? ==> context.code == old(context.code) + FunctionCode(Collected(f), f).value
      ensures r.Fail? ==> r.error == FunctionCode(Collected(f), f).error
    {
      var collector := new VariableCollector();
      var collected := collector.VisitFunction(f);
      if collected.Fail? {
        return collected;
      }
      var generator := new FunctionGenerator(collector, context);
      r := generator.VisitFunction(f);
    }

    method VisitClass(c: Class) returns (r: Outcome<GenError>)
      ensures r == Fail(Unimplemented)
    {
      r := Fail(Unimplemented);
    }

    method VisitPackage(p: Package) returns (r: Outcome<GenError>)
      ensures r == Fail(Unimplemented)
    {
      r := Fail(Unimplemented);
    }
  }

  /** The collector registers exactly the arguments and declared variables,
      so every declaration's register write finds its register. */
  lemma CollectedNames(f: Function)
    requires |LocalNames(f)| < U32_LIMIT
    ensures forall n :: n in Collected(f) <==> n in LocalNames(f)
    ensures forall i :: 0 <= i < |f.block| ==> f.block[i].name in Collected(f)
  {
    AddVarsNumbered(NoRegisters, LocalNames(f));
    forall i | 0 <= i < |f.block|
      ensures f.block[i].name in LocalNames(f)
    {
      assert LocalNames(f)[|f.arguments| + i] == f.block[i].name;
    }
  }

  /** Lowering a function succeeds exactly when it returns `void`, every
      declaration has type `*`, and every initialiser is lowerable: each
      variable it reads is an argument or is declared somewhere in the body
      (the numbering pass runs first, so the declaration may come later), and
      every integer literal fits a push form. */
  lemma FunctionLowers(f: Function)
    requires |LocalNames(f)| < U32_LIMIT
    ensures FunctionCode(Collected(f), f).Ok? <==>
      f.returnType == Void &&
      forall i :: 0 <= i < |f.block| ==> f.block[i].varType == Any && Lowerable(Collected(f), f.block[i].value)
  {
    var vars := Collected(f);
    CollectedNames(f);
    BlockCodeSucceeds(vars, f.block);
    forall i | 0 <= i < |f.block|
      ensures StatementCode(vars, f.block[i]).Ok? <==> f.block[i].varType == Any && Lowerable(vars, f.block[i].value)
    {
      ExpressionCodeShape(vars, f.block[i].value);
    }
  }

  /** `function f(): void { var x: * = 1 + 2 * 3; }` */
  function ExampleFunction(): Function {
    Function("f", Public, [], Void,
             [VarDecl("x", Any, BinaryOperation(Integer(1), Add, BinaryOperation(Integer(2), Mul, Integer(3))))])
  }

  /** The example's only local, `x`, gets register 1. */
  lemma ExampleCollected()
    ensures |LocalNames(ExampleFunction())| < U32_LIMIT
    ensures Collected(ExampleFunction()) == map["x" := 1 as uint32]
  {
    var f := ExampleFunction();
    assert ArgumentNames(f.arguments) == [];
    assert DeclaredNames(f.block) == ["x"];
    assert LocalNames(f) == ["x"];
    assert ["x"][..0] == [];
    assert RegisterAll(NoRegisters, []) == NoRegisters;
    assert Register(NoRegisters, "x") == Registers(map["x" := 1], 1);
    assert RegisterAll(NoRegisters, ["x"]) == Registers(map["x" := 1], 1);
  }

  /** `1 + 2 * 3` lowers in post-order to `1 2 3 * +`. */
  lemma ExampleExpressionCode(vars: map<string, uint32>)
    ensures ExpressionCode(vars, BinaryOperation(Integer(1), Add, BinaryOperation(Integer(2), Mul, Integer(3)))) ==
      Ok([RawOp(Abc.AbcOp.PushByte(1)), RawOp(Abc.AbcOp.PushByte(2)), RawOp(Abc.AbcOp.PushByte(3)),
          RawOp(Abc.AbcOp.Multiply), RawOp(Abc.AbcOp.Add)])
  {
    var one, two, three := RawOp(Abc.AbcOp.PushByte(1)), RawOp(Abc.AbcOp.PushByte(2)), RawOp(Abc.AbcOp.PushByte(3));
    assert ExpressionCode(vars, Integer(1)) == Ok([one]);
    assert ExpressionCode(vars, Integer(2)) == Ok([two]);
    assert ExpressionCode(vars, Integer(3)) == Ok([three]);
    var product := [two] + [three] + [RawOp(Abc.AbcOp.Multiply)];
    assert ExpressionCode(vars, BinaryOperation(Integer(2), Mul, Integer(3))) == Ok(product);
    assert [one] + product + [RawOp(Abc.AbcOp.Add)] == [one, two, three, RawOp(Abc.AbcOp.Multiply), RawOp(Abc.AbcOp.Add)];
  }

  /** The example lowers to the prologue, `1 2 3 * +` in post-order, the
      coercion and store into register 1, and the return. */
  lemma LowerExample()
    ensures |LocalNames(ExampleFunction())| < U32_LIMIT
    ensures FunctionCode(Collected(ExampleFunction()), ExampleFunction()) == Ok([
        RawOp(Abc.AbcOp.GetLocal(0)), RawOp(Abc.AbcOp.PushScope),
        RawOp(Abc.AbcOp.PushByte(1)), RawOp(Abc.AbcOp.PushByte(2)), RawOp(Abc.AbcOp.PushByte(3)),
        RawOp(Abc.AbcOp.Multiply), RawOp(Abc.AbcOp.Add),
        RawOp(Abc.AbcOp.CoerceA), RawOp(Abc.AbcOp.SetLocal(1)),
        RawOp(Abc.AbcOp.ReturnVoid)])
  {
    var f := ExampleFunction();
    var st := f.block[0];
    ExampleCollected();
    var vars := map["x" := 1 as uint32];
    ExampleExpressionCode(vars);
    var sum := [RawOp(Abc.AbcOp.PushByte(1)), RawOp(Abc.AbcOp.PushByte(2)), RawOp(Abc.AbcOp.PushByte(3)),
                RawOp(Abc.AbcOp.Multiply), RawOp(Abc.AbcOp.Add)];
    var stored := sum + [RawOp(Abc.AbcOp.CoerceA), RawOp(Abc.AbcOp.SetLocal(1))];
    assert StatementCode(vars, st) == Ok(stored);
    assert [st][..0] == [];
    assert [] + stored == stored;
    assert BlockCode(vars, f.block) == Ok(stored);
    var code := Prologue + stored + [RawOp(Abc.AbcOp.ReturnVoid)];
    assert FunctionCode(vars, f) == Ok(code);
    assert |code| == 10;
    assert code == [
        RawOp(Abc.AbcOp.GetLocal(0)), RawOp(Abc.AbcOp.PushScope),
        RawOp(Abc.AbcOp.PushByte(1)), RawOp(Abc.AbcOp.PushByte(2)), RawOp(Abc.AbcOp.PushByte(3)),
        RawOp(Abc.AbcOp.Multiply), RawOp(Abc.AbcOp.Add),
        RawOp(Abc.AbcOp.CoerceA), RawOp(Abc.AbcOp.SetLocal(1)),
        RawOp(Abc.AbcOp.ReturnVoid)];
  }
}
