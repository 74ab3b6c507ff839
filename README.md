# ActionScript 3 compiler back end, modelled in Dafny

This project models the code-generation back end of a small ActionScript 3
compiler together with the pure helpers around it:

- the abstract syntax tree, its visitor walks and its folder defaults (`Ast`, `AstVisitor`, `AstFold`);
- the constant folder (`Optimizer`);
- the type-name parser (`ParserCommon`);
- the per-function local-register numbering and the lowering of functions
  into AVM2 operations (`FunctionGen`, `CodeGen`, `Generator`);
- the two-pass label assembler (`Assembler`);
- the constant-pool intern tables (`Pool`, `Intern`) and the name-to-label
  allocator (`Context`);
- the generated LR tables and semantic actions of the assembly-op grammar (`AsmGrammar`);
- the rewrite language's values, their display and `Value::int` (`Rewrite`).

The other modules hold shared definitions. `Base` has `Option`/`Result`, the
machine-integer ranges, the `usize as u32` and `u32 as i32` casts, and decimal
formatting with its parse-back. `Abc` has the AVM2 operations the back end emits.

One module corresponds to one source file. The inner `visitor` and `fold`
modules of `src/ast.rs` become the `AstVisitor` and `AstFold` modules.
`src/codegen.rs` is split in two, so that the function lowering can use the
code buffer without an import cycle:

- `CodeGen` holds the buffer and the integer push.
- `Generator` holds `CodeGenerator`.

Objects whose fields the source mutates are classes that hold `seq`/`map`
fields: the assembler, the intern context, the generation contexts, the
variable collector, the function generator and the LR parser stacks. Each of
their methods is proved against a pure function of the old state. The lemmas
then state the properties of those functions: hit/miss interning, label
resolution, register numbering, and the meaning of the emitted code on a
symbolic stack machine.

A `panic!`, `todo!`, `unwrap` or `expect` in the source becomes an explicit
error value (`Err(..)` or `Fail(..)`). u32 counters carry the precondition
that they do not wrap.

Two behaviours of the code are easy to misread, and the model follows the
code in both:

- `compile` writes every jump's offset as the label's **absolute** pass-one
  byte position, cast `usize as u32 as i32`, not a difference of positions.
- `emit_stack_push_int` fails (`todo!`) on 40000, because 40000 fits neither
  `u8` nor `i16`.

## Model

| member | source | states |
|---|---|---|
| ParserCommon.TypeFromStr | src/parser/common.rs:14-25 | each of `*`, `void`, `int`, `uint`, `Boolean` gives its own type, exactly and case-sensitively; `Other(s)`, carrying `s` unchanged, is produced exactly when `s` is none of them |
| ParserCommon.TypeTextOfParse | src/parser/common.rs:17-24 | printing a parsed type gives back the parsed text |
| ParserCommon.ParseOfTypeText | src/parser/common.rs:17-24 | parsing a keyword type's text gives back that type |
| ParserCommon.TypeFromStrInjective | src/parser/common.rs:17-24 | distinct texts parse to distinct types |
| Ast.VisibilityFromStr | src/ast.rs:99-106 | succeeds exactly for `public`, `protected`, `private`, with the variant whose text is the input; any other string gives `UnknownVisibility(s)` |
| Ast.VisibilityRoundTrip | src/ast.rs:99-106 | parsing a visibility's text gives back that visibility |
| Ast.ExpressionToString | src/ast.rs:112-118 | succeeds exactly on `Integer` and `String`; a string gives its own text; an integer gives canonical decimal text (`CanonicalInt`: no leading zero, no `+`, no `-0`) that reads back as the integer, which by `Base.CanonicalIntUnique` fixes the text; the other variants give `CannotConvertToString` |
| AstVisitor.VisitExpressionRuns | src/ast.rs:148-168 | visiting an expression runs the visitor over the nodes lhs-first, stopping at the first error; a leaf visits nothing |
| AstVisitor.VisitStatementRuns | src/ast.rs:170-183 | visiting a statement visits its value expression |
| AstVisitor.VisitExpression | src/ast.rs:127-129 | the visitor's own step on the expression, then the walk over its operands; `VisitExpressionRuns` states its run order |
| AstVisitor.WalkExpression | src/ast.rs:148-168 | the left operand's visit, then the right's; a leaf visits nothing (`VisitExpressionRuns`) |
| AstVisitor.VisitStatement | src/ast.rs:131-133 | the visitor's own step on the statement, then the walk; `VisitStatementRuns` states its run order |
| AstVisitor.WalkStatement | src/ast.rs:170-183 | visits the value expression (`VisitStatementRuns`) |
| AstVisitor.WalkFunction | src/ast.rs:185-194 | the result is the first error of the statements in declaration order, or success when none fails |
| AstVisitor.VisitFunction | src/ast.rs:135-137 | the default visit is the walk |
| AstVisitor.WalkClass | src/ast.rs:196-205 | the result is the first error of the methods in declaration order, or success |
| AstVisitor.VisitClass | src/ast.rs:139-141 | the default visit is the walk |
| AstVisitor.WalkPackage | src/ast.rs:207-216 | the result is the first error of the classes in declaration order, or success |
| AstVisitor.VisitPackage | src/ast.rs:143-145 | the default visit is the walk |
| AstVisitor.RunAppend | src/ast.rs:185-216 | running two lists in turn is running their concatenation |
| AstVisitor.RunStopsAtFirstFailure | src/ast.rs:185-216 | once one child fails, the later children do not change the result |
| AstVisitor.RunTotal | src/ast.rs:185-216 | a visitor that never fails makes the whole walk succeed |
| AstFold.DefaultFoldExpression | src/ast.rs:224-226 | the default expression fold returns its input |
| AstFold.FoldStatement | src/ast.rs:228-240 | keeps the name and type and replaces the value with its fold; fails exactly when that fold fails |
| AstFold.FoldStatements | src/ast.rs:242-266 | succeeds exactly when every statement folds; element-wise, same length and order |
| AstFold.FoldFunction | src/ast.rs:242-266 | folds the block element-wise and copies every other field |
| AstFold.FoldFunctions | src/ast.rs:267-289 | succeeds exactly when every function folds; element-wise, same length and order |
| AstFold.FoldClass | src/ast.rs:267-289 | folds the methods element-wise and copies every other field |
| AstFold.FoldClasses | src/ast.rs:290-301 | succeeds exactly when every class folds; element-wise, same length and order |
| AstFold.FoldPackage | src/ast.rs:290-301 | folds the classes element-wise and copies every other field |
| AstFold.FoldStatementsIdentity | src/ast.rs:242-266 | a statement list whose every statement folds to itself folds to itself |
| AstFold.FoldFunctionsIdentity | src/ast.rs:267-289 | a function list whose every function folds to itself folds to itself |
| AstFold.FoldClassesIdentity | src/ast.rs:290-301 | a class list whose every class folds to itself folds to itself |
| AstFold.FoldFunctionIdentity | src/ast.rs:242-266 | with an expression fold that changes nothing, folding a function returns it |
| AstFold.FoldClassIdentity | src/ast.rs:267-289 | with the default expression fold, folding a class returns it |
| AstFold.FoldPackageIdentity | src/ast.rs:290-301 | with the default expression fold, folding a package returns it |
| AstFold.DefaultFoldPackageIsIdentity | src/ast.rs:224-301 | the folder made only of defaults is the identity on packages |
| Optimizer.CheckedI32 | src/optimizer.rs:23-30 | an `i32` result exactly when the value is in range, otherwise `Overflow` |
| Optimizer.FoldInts | src/optimizer.rs:23-30 | i32 add, sub and mul; truncating division; `DivisionByZero` exactly for a zero divisor; `Overflow` outside the i32 range (including `MIN / -1`) |
| Optimizer.Combine | src/optimizer.rs:18-54 | only arithmetic on two integer literals can fail, with that arithmetic's error; two operands in normal form combine into normal form |
| Optimizer.Fold | src/optimizer.rs:15-62 | integer, string and variable leaves are returned unchanged; a `Bool` fails with `NoBoolArm` |
| Optimizer.FoldIsFolded | src/optimizer.rs:18-54 | a successful fold leaves no integer–integer or string–integer/string pair to fold |
| Optimizer.FoldFixesFolded | src/optimizer.rs:15-62 | folding an already-folded expression returns it unchanged |
| Optimizer.FoldIdempotent | src/optimizer.rs:15-62 | folding twice equals folding once |
| Optimizer.FoldEvaluates | src/optimizer.rs:18-30 | an expression of integer literals folds to its i32 value, with the overflow and division-by-zero errors of that evaluation |
| Optimizer.FoldConcatenates | src/optimizer.rs:33-41 | a string lhs with a string or integer rhs folds to their concatenation, whatever the operator |
| Optimizer.FoldRebuilds | src/optimizer.rs:42-54 | every other pair is rebuilt with the folded children and the same operator |
| Optimizer.SubtractionConcatenates | src/optimizer.rs:33-41 | `"a" - 1` folds to `"a1"` |
| Optimizer.FoldExamples | src/optimizer.rs:23-30 | `1+2*3` is 7; `7/-2` and `-7/2` are -3; `MAX+1` and `MIN/-1` overflow; `1/0` is a division by zero |
| Pool.Intern | src/codegen/assembler/intern.rs:40-52 | the entry at the returned index is the value; a hit returns the first equal entry's index and leaves the pool unchanged; a miss appends and returns the old length |
| Pool.Position | src/codegen/assembler/intern.rs:41-42 | the linear search returns the first index holding the value, or none |
| Pool.InternKeepsNoDuplicates | src/codegen/assembler/intern.rs:40-52 | interning keeps a pool free of duplicates |
| Pool.InternExtends | src/codegen/assembler/intern.rs:40-52 | the pool only grows and earlier entries are unchanged |
| Pool.InternIdempotent | src/codegen/assembler/intern.rs:40-52 | interning the same value again returns the same index and the same pool |
| Pool.InternIndexInjective | src/codegen/assembler/intern.rs:40-52 | distinct values get distinct indices |
| Pool.InternAll | src/codegen/assembler/intern.rs:40-52 | interning a list gives one index per value |
| Pool.InternAllSnoc | src/codegen/assembler/intern.rs:40-52 | interning one more value interns it into the pool built so far |
| Pool.InternExtendsIndices | src/codegen/assembler/intern.rs:40-52 | indices that locate values in a pool still locate them after one more intern, and the new index locates the new value |
| Pool.InternAllFirstSeen | src/codegen/assembler/intern.rs:40-52 | interning a list from an empty pool builds its first-seen order and maps each value to its first-seen position |
| Pool.FirstSeenElements | src/codegen/assembler/intern.rs:40-52 | the first-seen order holds exactly the values, without duplicates |
| Pool.FirstSeenOfDistinct | src/codegen/assembler/intern.rs:40-52 | a list without duplicates is its own first-seen order |
| Pool.FirstSeenAppend | src/codegen/assembler/intern.rs:40-52 | a longer list's first-seen order extends the shorter one's |
| Pool.InternDistinctInOrder | src/codegen/assembler/intern.rs:40-80 | distinct values interned into an empty pool get indices 0, 1, 2, … in order |
| Intern.InternContext.constructor | src/codegen/assembler/intern.rs:25-37 | all three pools start empty |
| Intern.InternContext.InternString | src/codegen/assembler/intern.rs:40-52 | the new pools and the index are the hit/miss interning of the string table |
| Intern.InternContext.InternNamespace | src/codegen/assembler/intern.rs:54-66 | the same on the namespace table |
| Intern.InternContext.InternMultiname | src/codegen/assembler/intern.rs:68-80 | the same on the multiname table |
| Intern.InternContext.EmptyNamespacedQName | src/codegen/assembler/intern.rs:82-88 | interns `""`, the package namespace of it, the name, then the qualified name, in that order |
| Intern.InternStringSpec | src/codegen/assembler/intern.rs:40-52 | keeps every pool duplicate-free; the string pool is extended and names the value at the index; a hit is exactly an unchanged pool; a miss gets the old length; the other pools are untouched |
| Intern.InternNamespaceSpec | src/codegen/assembler/intern.rs:54-66 | the same for namespaces |
| Intern.InternMultinameSpec | src/codegen/assembler/intern.rs:68-80 | the same for multinames |
| Intern.EmptyNamespacedQNameSpec | src/codegen/assembler/intern.rs:82-88 | the returned multiname is a qualified name whose name string is `name` and whose namespace is the package of `""` |
| Intern.ExtendsTransitive | src/codegen/assembler/intern.rs:40-80 | a pool that extends one that extends a third extends the third |
| Intern.EmptyNamespacedQNameIdempotent | src/codegen/assembler/intern.rs:82-88 | a second call with the same name grows no pool and returns the same index |
| Intern.InternStringAgain | src/codegen/assembler/intern.rs:40-52 | a string interned earlier still has its index in any extension of the pool |
| Intern.InternNamespaceAgain | src/codegen/assembler/intern.rs:54-66 | the same for namespaces |
| Intern.InternStringExamples | src/codegen/assembler/intern.rs:40-52 | two distinct strings get 0 and 1, and re-interning the first gives 0 |
| Assembler.Assembler.constructor | src/codegen/assembler.rs:89-94 | no operations and a label counter at 0 |
| Assembler.Assembler.Emit | src/codegen/assembler.rs:47-49 | appends the operation; nothing else changes |
| Assembler.Assembler.MakeLabel | src/codegen/assembler.rs:98-102 | returns the counter's value, then increments it, so every later label is larger |
| Assembler.Assembler.Link | src/codegen/assembler.rs:33-35 | appends `Label(id)` |
| Assembler.Assembler.JumpIfTrue | src/codegen/assembler.rs:105-108 | appends `IfTrue(id)` |
| Assembler.Assembler.JumpIfFalse | src/codegen/assembler.rs:110-113 | appends `IfFalse(id)` |
| Assembler.Assembler.JumpIfEq | src/codegen/assembler.rs:115-119 | appends `IfEq(id)` |
| Assembler.Assembler.JumpTo | src/codegen/assembler.rs:122-124 | appends `Jump(id)` |
| Assembler.Assembler.PushInternedString | src/codegen/assembler/intern.rs:98-109 | interns the string and appends `PushString` with its index |
| Assembler.Assembler.PushImmediateByte | src/codegen/assembler/intern.rs:112-116 | appends `PushByte(value)` |
| Assembler.Assembler.PushImmediateBool | src/codegen/assembler/intern.rs:117-125 | appends `PushTrue` or `PushFalse` |
| Assembler.Assembler.PushScope | src/codegen/assembler.rs:139-142 | appends `PushScope` |
| Assembler.Assembler.GetGlobalScope | src/codegen/assembler.rs:143-146 | appends `GetGlobalScope` |
| Assembler.Assembler.Swap | src/codegen/assembler.rs:149-151 | appends `Swap` |
| Assembler.Assembler.GetLocal | src/codegen/assembler.rs:154-157 | appends `GetLocal(index)` |
| Assembler.Assembler.SetLocal | src/codegen/assembler.rs:159-162 | appends `SetLocal(index)` |
| Assembler.Assembler.GetSlot | src/codegen/assembler.rs:165-168 | appends `GetSlot(index)` |
| Assembler.Assembler.SetSlot | src/codegen/assembler.rs:170-174 | appends `SetSlot(index)` |
| Assembler.Assembler.ReturnVoid | src/codegen/assembler.rs:177-179 | appends `ReturnVoid` |
| Assembler.Assembler.CallProperty | src/codegen/assembler.rs:182-192 | appends one `CallProperty`; the marker loop changes nothing |
| Assembler.Assembler.Call | src/codegen/assembler.rs:195-201 | appends one `Call`; the marker loop changes nothing |
| Assembler.Assembler.FindPropertyStrict | src/codegen/assembler.rs:203-207 | appends `FindPropStrict(name)` |
| Assembler.Assembler.MarkerPush | src/codegen/assembler.rs:52 | does nothing, like the source |
| Assembler.Assembler.MarkerPop | src/codegen/assembler.rs:53 | does nothing, like the source |
| Assembler.Assembler.ResolveLabels | src/codegen/assembler.rs:56-84 | the loop computes pass one's label table |
| Assembler.Assembler.Compile | src/codegen/assembler.rs:210-237 | the loop computes pass two's output over pass one's table |
| Assembler.ResolveSucceeds | src/codegen/assembler.rs:64-79 | pass one succeeds exactly when no label id is linked twice; its table's keys are exactly the linked ids; a failure names an id linked at least twice |
| Assembler.ResolvePositions | src/codegen/assembler.rs:64-79 | each label maps to the byte length of the pass-one encoding before it, cast to u32 |
| Assembler.PrefixErrorSticks | src/codegen/assembler.rs:73-76 | once a prefix fails to resolve, the whole list fails with the same error |
| Assembler.PassTwoErrorSticks | src/codegen/assembler.rs:218-229 | once a prefix fails in pass two, so does the whole list, with the same error |
| Assembler.PassTwoSucceeds | src/codegen/assembler.rs:216-233 | pass two succeeds exactly when every jump's target is in the table; a failure is `UnlinkedLabel` of a missing id |
| Assembler.CompileSucceeds | src/codegen/assembler.rs:210-237 | compiling succeeds exactly when labels are linked once and every jump targets a linked label |
| Assembler.PassTwoLength | src/codegen/assembler.rs:216-233 | with jump width independent of the offset, pass two is as long as pass one |
| Assembler.PassTwoPrefix | src/codegen/assembler.rs:216-233 | pass two of a prefix is a prefix of pass two |
| Assembler.PassOnePrefix | src/codegen/assembler.rs:64-79 | pass one of a prefix is no longer than pass one |
| Assembler.LabelsResolveToOutputPositions | src/codegen/assembler.rs:64-79 | with jump width independent of the offset, and pass one's output at most `I32_MAX` bytes long (beyond that the `usize as u32 as i32` cast wraps), every resolved label equals its byte position in the final output |
| Assembler.ResolveBound | src/codegen/assembler.rs:64-79 | every resolved position is at most pass one's total length |
| Assembler.LinkThenJump | src/codegen/assembler.rs:250-263 | `[link 0, jump 0]` resolves label 0 to 0 and compiles to the label opcode then a jump with offset 0 |
| Assembler.AssemblerErrors | src/codegen/assembler.rs:73-76 | a jump to a never-linked label fails with `UnlinkedLabel`; linking a label twice fails with `DuplicateLabel` |
| Assembler.PassOne | src/codegen/assembler.rs:64-79 | the bytes pass one writes; `PassOnePrefix` and `PassTwoLength` state its properties |
| Assembler.Resolve | src/codegen/assembler.rs:56-84 | the label table of pass one; `ResolveSucceeds`, `ResolvePositions` and `ResolveBound` state its properties |
| Assembler.PassTwo | src/codegen/assembler.rs:216-233 | the bytes pass two writes; `PassTwoSucceeds`, `PassTwoPrefix` and `PassTwoLength` state its properties |
| Assembler.CompileOps | src/codegen/assembler.rs:210-237 | pass one's table, then pass two; `CompileSucceeds` and `LabelsResolveToOutputPositions` state its properties |
| Context.LabelForSpec | src/codegen/context.rs:23-31 | a known name keeps its label and allocates nothing; a new name gets the counter and the counter moves on; the invariant (labels below the counter, pairwise distinct) is kept |
| Context.LabelFor | src/codegen/context.rs:23-31 | the label table, counter and label after a lookup; `LabelForSpec` states what they are |
| Context.LabelForIdempotent | src/codegen/context.rs:23-31 | asking again for the same name changes nothing and returns the same label |
| Context.DistinctNamesDistinctLabels | src/codegen/context.rs:17-31 | two distinct names get distinct labels |
| Context.FunctionGenContext.constructor | src/codegen/context.rs:10-14 | stands for the struct literal callers write, since the source has no constructor: counter 0, no labels, invariant holds |
| Context.FunctionGenContext.GetNextLabel | src/codegen/context.rs:17-21 | returns the counter's value, then increments it; the labels are untouched |
| Context.FunctionGenContext.GetOrCreateLabel | src/codegen/context.rs:23-31 | the new labels, counter and returned label are `LabelFor` of the old state, and the invariant is kept |
| Context.ConstantPoolContext.constructor | src/codegen/context.rs:71-85 | the string table starts empty |
| Context.ConstantPoolContext.AddString | src/codegen/context.rs:56-68 | the hit/miss interning of the string table, with the index truncated to u32 |
| CodeGen.PushIntOp | src/codegen.rs:40-48 | succeeds exactly when the value fits `u8` or `i16`; the byte form exactly when it fits `u8`; the push places the value itself; otherwise `UnhandledInt` |
| CodeGen.PushIntExamples | src/codegen.rs:40-48 | 0 and 255 take the byte form; 256 and -1 the short form; 40000 fails |
| CodeGen.CodeGenerationContext.constructor | src/codegen.rs:26-29 | the buffer starts empty |
| CodeGen.CodeGenerationContext.EmitOp | src/codegen.rs:32-34 | appends `RawOp(op)` |
| CodeGen.CodeGenerationContext.EmitWrappedOp | src/codegen.rs:36-38 | appends the op unchanged |
| CodeGen.CodeGenerationContext.EmitStackPushInt | src/codegen.rs:40-48 | appends the push `PushIntOp` chooses, or fails with the buffer unchanged |
| CodeGen.CodeGenerationContext.PushBool | src/codegen/function.rs:122 | appends `PushTrue` or `PushFalse` (an assumption: the method is not defined in the code generator) |
| FunctionGen.Register | src/codegen/function.rs:38-43 | a known name leaves the numbering unchanged; a new name gets the next index |
| FunctionGen.RegisterAll | src/codegen/function.rs:61-73 | the counter grows by at most the number of names |
| FunctionGen.RegisterAllAppend | src/codegen/function.rs:61-73 | registering two lists in turn is registering their concatenation |
| FunctionGen.RegisterAllSnoc | src/codegen/function.rs:61-73 | registering one more name registers it into the numbering built so far |
| FunctionGen.Names | src/codegen/function.rs:61-73 | the names of a list, one per element and in order: the argument names, then the declared names |
| FunctionGen.RegisterNumbered | src/codegen/function.rs:32-43 | one registration keeps the invariant: indices pairwise distinct and exactly 1..current |
| FunctionGen.AddVarsNumbered | src/codegen/function.rs:32-43 | registering a list keeps the invariant and earlier indices, and registers exactly the old names and the list's names |
| FunctionGen.AddVarsFirstSeen | src/codegen/function.rs:32-43 | from empty, each name gets 1 + its first-seen position, and the counter is the number of distinct names; index 0 is never assigned |
| FunctionGen.RegisterFirstSeenStep | src/codegen/function.rs:38-43 | a new name's registration extends the first-seen numbering |
| FunctionGen.ArgumentsNumberedFirst | src/codegen/function.rs:61-73 | N distinct arguments get registers 1..N in order |
| FunctionGen.DistinctPrefixFirstSeen | src/codegen/function.rs:61-73 | a distinct prefix keeps its positions in the first-seen order |
| FunctionGen.RedeclarationKeepsRegister | src/codegen/function.rs:38-43 | a redeclaration keeps the first index |
| FunctionGen.CollectExample | src/codegen/function.rs:32-43 | `a b c a` numbers a=1, b=2, c=3 |
| FunctionGen.ExpressionCodeShape | src/codegen/function.rs:105-132 | lowering succeeds exactly when every variable has a register and every integer fits a push; each node then emits exactly one operation |
| FunctionGen.ExpressionCodeRuns | src/codegen/function.rs:105-132 | the emitted code pushes exactly the expression's symbolic value (lhs, rhs, then the matching operator) |
| FunctionGen.ExpressionCode | src/codegen/function.rs:105-132 | the code of an expression; `ExpressionCodeShape` and `ExpressionCodeRuns` state when it exists and what it computes |
| FunctionGen.StatementCode | src/codegen/function.rs:134-158 | the code of a statement; `StatementCodeRuns` states its effect |
| FunctionGen.BlockCode | src/codegen/function.rs:160-180 | the code of a block; `BlockCodeSucceeds`, `BlockCodeErrorSticks` and `BlockCodeRuns` state its properties |
| FunctionGen.FunctionCode | src/codegen/function.rs:160-180 | the code of a `void` function, and `UnsupportedReturnType` otherwise; `FunctionCodeRuns` states its effect |
| FunctionGen.StatementCodeRuns | src/codegen/function.rs:134-158 | the emitted code stores the value's meaning in the variable's register and leaves the stack as it was |
| FunctionGen.BlockCodeRuns | src/codegen/function.rs:160-180 | the block's code has the effect of its statements in order |
| FunctionGen.FunctionCodeRuns | src/codegen/function.rs:160-180 | the function's code pushes the receiver as a scope, runs the body and returns |
| FunctionGen.BlockCodeSucceeds | src/codegen/function.rs:160-180 | a block lowers exactly when each statement does |
| FunctionGen.BlockCodeErrorSticks | src/codegen/function.rs:160-180 | the first failing statement's error is the block's error |
| FunctionGen.ExecOne | src/codegen/function.rs:105-180 | running a one-operation sequence is one step |
| FunctionGen.OperatorRuns | src/codegen/function.rs:111-116 | an arithmetic operator pops two values and pushes their symbolic combination |
| FunctionGen.PrologueRuns | src/codegen/function.rs:160-180 | the prologue pushes the receiver in register 0 as a scope and leaves the stack empty |
| FunctionGen.ExecAppend | src/codegen/function.rs:160-180 | running two code sequences in turn is running their concatenation |
| FunctionGen.VariableCollector.constructor | src/codegen/function.rs:21-28 | counter 0 and no variables |
| FunctionGen.VariableCollector.FetchIndex | src/codegen/function.rs:32-35 | pre-increments and returns the new counter |
| FunctionGen.VariableCollector.AddVar | src/codegen/function.rs:38-43 | the new numbering is `Register` of the old |
| FunctionGen.VariableCollector.VisitStatement | src/codegen/function.rs:49-59 | registers the declared name and succeeds |
| FunctionGen.VariableCollector.VisitFunction | src/codegen/function.rs:61-73 | registers the arguments, then the declarations, and succeeds |
| FunctionGen.VariableCollector.WalkFunction | src/ast.rs:185-194 | registers the declared names in statement order and succeeds |
| FunctionGen.VariableCollector.VisitClass | src/codegen/function.rs:75-81 | unsupported |
| FunctionGen.VariableCollector.VisitPackage | src/codegen/function.rs:75-81 | unsupported |
| FunctionGen.FunctionGenerator.constructor | src/codegen/function.rs:91-99 | takes the collector's numbering and shares the buffer |
| FunctionGen.FunctionGenerator.VisitExpression | src/codegen/function.rs:105-132 | appends the expression's code exactly when it lowers, otherwise fails with its error |
| FunctionGen.FunctionGenerator.VisitStatement | src/codegen/function.rs:134-158 | appends the statement's code exactly when it lowers, otherwise fails with its error |
| FunctionGen.FunctionGenerator.VisitFunction | src/codegen/function.rs:160-180 | appends the function's code exactly when it lowers, otherwise fails with its error |
| Generator.CodeGenerator.constructor | src/codegen.rs:57-63 | a fresh, empty code buffer |
| Generator.CodeGenerator.VisitFunction | src/codegen.rs:68-76 | appends the code of the function lowered with the collector's numbering exactly when it lowers |
| Generator.CodeGenerator.VisitClass | src/codegen.rs:78-80 | unimplemented |
| Generator.CodeGenerator.VisitPackage | src/codegen.rs:82-84 | unimplemented |
| Generator.CollectedNames | src/codegen.rs:68-76 | the collector registers exactly the arguments and declarations, so every register write finds its register |
| Generator.FunctionLowers | src/codegen.rs:68-76 | a function lowers exactly when it returns `void`, every declaration has type `*`, and every initialiser reads only locals and pushes only fitting integers |
| Generator.ExampleCollected | src/codegen/function.rs:61-73 | the example's only local `x` gets register 1 |
| Generator.ExampleExpressionCode | src/codegen/function.rs:105-132 | `1 + 2*3` lowers in post-order to `1 2 3 * +` |
| Generator.LowerExample | src/codegen/function.rs:105-180 | `var x:* = 1 + 2*3` in a void function lowers to the prologue, `1 2 3 * +`, `CoerceA`, `SetLocal 1`, `ReturnVoid` |
| AsmGrammar.TokenToInteger | src/parser/asm/grammar.rs:232-253 | the twelve terminal kinds map below 12 in table order; other tokens give none |
| AsmGrammar.TokenToIntegerKinds | src/parser/asm/grammar.rs:95-108 | two tokens share an index exactly when they are the same terminal, and every index below twelve is the index of some token (`TokenNumbered`) |
| AsmGrammar.Goto | src/parser/asm/grammar.rs:89-94 | the goto target is a state |
| AsmGrammar.ActionTable | src/parser/asm/grammar.rs:34-62 | the computed token actions equal the generated table's entries for every state and terminal |
| AsmGrammar.SimulateReduce | src/parser/asm/grammar.rs:270-316 | reductions 0..5 produce nonterminal 0 and pop 1 or 2 states; 6 is accept; others are invalid |
| AsmGrammar.ReductionPopCounts | src/parser/asm/grammar.rs:276-315 | reductions 0, 3, 4, 5 pop 2 and reductions 1, 2 pop 1 |
| AsmGrammar.ExpectedFromMembers | src/parser/asm/grammar.rs:109-119 | a name is listed exactly when some terminal before the bound carries it and has a non-zero action |
| AsmGrammar.ExpectedTokensMembers | src/parser/asm/grammar.rs:109-119 | the expected tokens are exactly the names of the terminals with a non-zero action |
| AsmGrammar.ExpectedStartRun | src/parser/asm/grammar.rs:36 | from the start state the terminals 3 .. n-1 are listed, in order |
| AsmGrammar.ExpectedFromTail | src/parser/asm/grammar.rs:109-119 | terminals past the last one with an action add nothing |
| AsmGrammar.ExpectedAtStart | src/parser/asm/grammar.rs:36 | state 0 expects the six tokens that begin an operation, in table order |
| AsmGrammar.ExpectedAfterIdentifier | src/parser/asm/grammar.rs:40 | after an identifier only `":"` is expected |
| AsmGrammar.ExpectedWhenFinished | src/parser/asm/grammar.rs:38 | after a complete operation no token is expected |
| AsmGrammar.FinishedRejectsTokens | src/parser/asm/grammar.rs:38 | state 1 has no token action |
| AsmGrammar.Accepts | src/parser/asm/grammar.rs:347-378 | the loop over the copied state stack computes the accept simulation |
| AsmGrammar.AcceptsLookahead | src/parser/asm/grammar.rs:347-378 | the lookaheads each stack shape accepts, and a completed op rejects every token |
| AsmGrammar.TokenToSymbolOfOwnIndex | src/parser/asm/grammar.rs:254-269 | identifiers and strings carry their text; other terminals stay tokens |
| AsmGrammar.ParserStacks.constructor | src/parser/asm/grammar.rs:379-423 | state stack `[0]`, no symbols |
| AsmGrammar.ParserStacks.Reduce | src/parser/asm/grammar.rs:379-555 | the stacks after a reduction are `ReduceSpec` of the old ones |
| AsmGrammar.Tokens | src/parser/asm/grammar.rs:232-253 | the token kinds of the input, in order |
| AsmGrammar.ShiftToken | src/parser/asm/grammar.rs:34-62 | a shift pushes exactly one state |
| AsmGrammar.ShiftStates | src/parser/asm/grammar.rs:34-62 | the states after shifting the input |
| AsmGrammar.ShiftStatesPrefix | src/parser/asm/grammar.rs:34-62 | shifting keeps the states already on the stack |
| AsmGrammar.ShiftFirst | src/parser/asm/grammar.rs:36 | the first token's shift from state 0 |
| AsmGrammar.ShiftSecond | src/parser/asm/grammar.rs:40-46 | the second token's shift after an identifier or a branch keyword |
| AsmGrammar.AcceptsAtEnd | src/parser/asm/grammar.rs:63-88 | at end of input the start state and the states inside an op reject, and each complete op form accepts |
| AsmGrammar.EndAfterOneToken | src/parser/asm/grammar.rs:63-88 | after one token the input is accepted at its end exactly when it is a return |
| AsmGrammar.EndAfterTwoTokens | src/parser/asm/grammar.rs:63-88 | after a label definition or a branch with its label the input is accepted at its end |
| AsmGrammar.AcceptsAfterReduce | src/parser/asm/grammar.rs:347-378 | a reduction that pops all but the start state leads to state 1, which accepts |
| AsmGrammar.RecognisedOne | src/parser/asm/grammar.rs:34-88 | the one-token inputs recognised are exactly the return forms |
| AsmGrammar.RecognisedTwo | src/parser/asm/grammar.rs:34-88 | the two-token inputs recognised are exactly the label and branch forms |
| AsmGrammar.NoLongerForms | src/parser/asm/grammar.rs:34-88 | no longer input is recognised |
| AsmGrammar.RecognisedExactly | src/parser/asm/grammar.rs:34-88 | an input is recognised exactly when it is one of the six op forms |
| AsmGrammar.ShiftSymbolsTwo | src/parser/asm/grammar.rs:254-269 | the symbols pushed by two shifts |
| AsmGrammar.AcceptingReduction | src/parser/asm/grammar.rs:63-88 | at state 1 the end-of-input action accepts and hands back the op |
| AsmGrammar.RuleBuildsSingle | src/parser/asm/grammar.rs:458-636 | the one-symbol rules build `Raw(ReturnValue)` and `Raw(ReturnVoid)` from the popped token |
| AsmGrammar.ReduceOnStart | src/parser/asm/grammar.rs:379-423 | a rule that consumes everything above the start state leaves states `[0, 1]` and the built op as the only symbol |
| AsmGrammar.EndReductionBuildsWhole | src/parser/asm/grammar.rs:313-636 | after any op form, the end-of-input reduction leaves the built op alone over states 0 and 1 |
| AsmGrammar.ReductionBuildsSingle | src/parser/asm/grammar.rs:458-636 | a return form reduces to `Raw(ReturnValue)` or `Raw(ReturnVoid)` |
| AsmGrammar.ReductionBuildsPair | src/parser/asm/grammar.rs:458-636 | a label or branch form reduces to `Label`, `IfEq`, `IfFalse`, `IfTrue` of the identifier's text |
| AsmGrammar.RuleBuildsPair | src/parser/asm/grammar.rs:458-636 | the two-symbol rule builds the op from the popped symbols |
| AsmGrammar.ReductionsBuildOperation | src/parser/asm/grammar.rs:313-636 | for every op form the end-of-input reductions build the op the semantic action returns and end in state 1 |
| AsmGrammar.Action | src/parser/asm/grammar.rs:34-62 | every token action is 0 (an error) or a shift to a state numbered above the current one; no state reduces on a token |
| AsmGrammar.EofAction | src/parser/asm/grammar.rs:63-88 | every end-of-input action is 0 or a reduction by a rule 0..6, and the accepting rule 6 is taken exactly in state 1 |
| AsmGrammar.ExpectedTokens | src/parser/asm/grammar.rs:109-118 | at most one name per terminal; `ExpectedTokensMembers` states which names |
| AsmGrammar.ExpectedFrom | src/parser/asm/grammar.rs:109-118 | at most one name per terminal looked at; `ExpectedFromMembers` states which names |
| AsmGrammar.AcceptsSpec | src/parser/asm/grammar.rs:347-378 | an empty stack underflows; with a lookahead token the answer is whether the top state has an action on it; underflow is the only error |
| AsmGrammar.TokenToSymbol | src/parser/asm/grammar.rs:254-269 | terminals 3 and 9 become a text symbol when the token carries text and are unreachable otherwise; the other ten terminals stay tokens; an index past the table is unreachable |
| AsmGrammar.Action0 | src/parser/asm/grammar.rs:560-567 | the accepting action returns the reduced operation unchanged |
| AsmGrammar.Action1 | src/parser/asm/grammar.rs:569-579 | builds the operation the `identifier ":"` form stands for, a `Label` of the name |
| AsmGrammar.Action2 | src/parser/asm/grammar.rs:581-590 | builds the operation of the `returnvalue` form |
| AsmGrammar.Action3 | src/parser/asm/grammar.rs:592-601 | builds the operation of the `returnvoid` form |
| AsmGrammar.Action4 | src/parser/asm/grammar.rs:603-613 | builds the operation of the `iffalse name` form |
| AsmGrammar.Action5 | src/parser/asm/grammar.rs:615-625 | builds the operation of the `iftrue name` form |
| AsmGrammar.Action6 | src/parser/asm/grammar.rs:627-637 | builds the operation of the `ifeq name` form |
| AsmGrammar.PopOp | src/parser/asm/grammar.rs:428-437 | succeeds exactly when the top symbol is an operation, and then splits it off the rest; otherwise a symbol type mismatch |
| AsmGrammar.PopText | src/parser/asm/grammar.rs:438-447 | the same for a text symbol |
| AsmGrammar.PopToken | src/parser/asm/grammar.rs:448-457 | the same for a token symbol |
| AsmGrammar.ReduceLabel | src/parser/asm/grammar.rs:458-474 | succeeds exactly when the top two symbols are a text and a token; then the two are replaced by the built `Label`, spanning both, and 2 states are to be popped; fails with too few symbols or a type mismatch |
| AsmGrammar.ReduceReturn | src/parser/asm/grammar.rs:475-504 | succeeds exactly when the top symbol is a token; then it is replaced by the built return, and 1 state is to be popped; fails with a type mismatch |
| AsmGrammar.ReduceBranch | src/parser/asm/grammar.rs:505-555 | succeeds exactly when the top two symbols are a token and a text; then they are replaced by the built branch, spanning both, and 2 states are to be popped |
| AsmGrammar.ReduceRule | src/parser/asm/grammar.rs:387-405 | each of the rules 0..5 succeeds exactly when its symbols fit and then replaces them by the built operation; the only errors are too few symbols and a type mismatch |
| AsmGrammar.ReduceSpec | src/parser/asm/grammar.rs:379-423 | an index outside 0..6 is an invalid action; rule 6 succeeds exactly when the top symbol is an operation, pops it, returns it and keeps the states; rules 0..5 succeed exactly when their symbols fit (`RuleFits`) and more states remain than they pop, replace their symbols by one operation spanning them (`RuleReduced`), pop their states, keep those below and push state 1 |
| AsmGrammar.PairStates | src/parser/asm/grammar.rs:34-62 | a label or branch form shifts its two tokens onto the states its first token chooses |
| AsmGrammar.EndReductionOfPair | src/parser/asm/grammar.rs:63-88 | the end-of-input reduction of two shifted tokens is the reduction on their two symbols |
| AsmGrammar.PairReduces | src/parser/asm/grammar.rs:458-555 | the end-of-input rule of a label or branch form replaces its two symbols by the built operation over states 0 and 1 |
| Rewrite.Display | src/rewrite.rs:38-56 | `null`, `undefined`, `true`/`false`; an integer's text is canonical and reads back as the integer; strings verbatim; arrays bracketed; an empty array is `[]`; `Rewrite.DisplayArrayCons` states the inside of the brackets |
| Rewrite.IntOf | src/rewrite.rs:25-36 | succeeds exactly on `Int`, with its value; otherwise an error at the given span quoting the display |
| Rewrite.JoinLength | src/rewrite.rs:49-52 | a join is as long as its parts plus one separator between neighbours |
| Rewrite.ArrayDisplayLength | src/rewrite.rs:46-53 | an array's display is as long as its elements' displays, the brackets and one `, ` between neighbours |
| Rewrite.DisplayArrayCons | src/rewrite.rs:46-53 | for every array: a one-element array shows as `[` + its element's display + `]`; a longer one shows its first element's display, then `, `, then the rest's display without its opening `[`; so the inside is the elements' displays in order, joined by `, ` |
| Base.CanonicalIntUnique | src/rewrite.rs:45 | a canonical numeral is exactly the text `IntToString` gives its value, so an integer's display is determined by the integer |
| Rewrite.DisplayExamples | src/rewrite.rs:41-53 | `[1, a, null]`, `[[], false]`, `-42` |
| Rewrite.DisplayFlatArray | src/rewrite.rs:46-53 | `[Int 1, Str a, Null]` shows as `[1, a, null]` |
| Rewrite.DisplayNestedArray | src/rewrite.rs:46-53 | `[[], false]` for a nested empty array |
| Rewrite.StringsShowVerbatim | src/rewrite.rs:45-53 | strings show unquoted, so `Str("null")` looks like `Null` and `[""]` looks like `[]` |
| Rewrite.IntOfExamples | src/rewrite.rs:25-36 | `Int 7` gives 7; `true` and `[]` give their quoted-display messages |
| Rewrite.IntOfBool | src/rewrite.rs:25-36 | `true` gives the message `'true' is not a integer` |
| Rewrite.IntOfEmptyArray | src/rewrite.rs:25-36 | `[]` gives the message `'[]' is not a integer` |
| Rewrite.JoinFlat | src/rewrite.rs:49-52 | three parts joined with `, ` |

## Left out

- The AVM2 byte encoder (`swf::avm2::write::Writer::write_op`), and the `Op`, `ConstantPool` and `Index` types around it, are foreign. The assembler takes an encoder function as a parameter. The assumption that a jump's width does not depend on its offset is a precondition of the lemmas that need it.
- The push-field ranges of `PushByte` (`u8`) and `PushShort` (`i16`) are named constants, because the encoder's types are not part of this model.
- `src/codegen/assembler/utils.rs` is left out. It is a shared-buffer adaptor used only to read the output length during pass one, and the model tracks that length directly.
- The lexer (`src/lexer.rs`, `src/lexer/token.rs`) is left out. The grammar's token type is not defined in the shown files, so `AsmGrammar.Token` is rebuilt from the cases of `__token_to_integer`.
- `src/main.rs` (file I/O, printing) and the `ariadne` error reports are left out.
- `expr_parser` in `src/rewrite.rs` is left out. It is built from parser-combinator library calls and their error recovery.
- The LALRPOP driver (`lalrpop_util`'s state machine) is not shown, so only the tables, `__accepts`, `__reduce` and the actions are modelled. `AsmGrammar.Recognised` and `AsmGrammar.EndReduction` reconstruct only the shift steps and the end-of-input reductions. Error recovery and `__ErrorAction` are not modelled.
- `__ACTION` is kept as one row per state instead of the flat row-major array indexed by `state * 12 + terminal`. `AsmGrammar.Action` computes its entries from the shifts they encode, and `AsmGrammar.ActionTable` shows the two agree.
- `__reduce` after an internal error (a stack underflow or a symbol-type mismatch, i.e. a panic in the source) returns an error, and the stacks are then not specified.
- Source locations in tokens and spans are natural numbers.
- `LabelIndex` is not defined in the shown files. It is modelled as a wrapper of a `u32`.
- `marker_push` and `marker_pop` have empty bodies in the source, and `Assembler.Assembler.MarkerPush` and `MarkerPop` are the same no-ops. The `num_args` loops in `call` and `call_property` are kept, and their invariants prove that they change nothing.
- No stack-depth tracking or method-body metadata is modelled, because the code has none.
- The variable collector's walk of initialiser expressions has no effect in the source, and it is modelled as doing nothing.
- `push_bool`, which the function lowering calls, does not exist in the shown code generator. `CodeGen.CodeGenerationContext.PushBool` assumes it mirrors the boolean immediate of the intern module.
- Overflow of the u32 label, register and pool counters is excluded by preconditions, not modelled as wrap-around. The `usize as u32` cast of pool indices and label positions is modelled as truncation.
- `Rewrite.Display`: the contract for arrays says an empty array shows as `[]`, but not the converse, because `Array([Str("")])` also shows as `[]` (see `Rewrite.StringsShowVerbatim`).
- `Optimizer.FoldInts`: `+`, `-` and `*` on two i32 literals give `Overflow` outside the i32 range. This is how a build with overflow checks behaves; a release build wraps around instead, and that build is not modelled. `i32::MIN / -1` and division by zero panic in both builds.
- `Optimizer.Fold`: the source's `match` in `fold_expression` (src/optimizer.rs:16-61) has no arm for `Expression::Bool`, so rustc rejects it as non-exhaustive. The model reads the missing arm as the error `NoBoolArm`.
- `FunctionGen.RegisterAll`: its own contract bounds only the counter. The numbering it builds is stated by `FunctionGen.AddVarsNumbered` and `FunctionGen.AddVarsFirstSeen`.
