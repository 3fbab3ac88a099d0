# gcontracts contract weaving, modelled in Dafny

gcontracts is a Groovy AST transformation that adds Design-by-Contract checks to
Groovy classes. This project models the parts of it that decide what to weave and
that rewrite the syntax tree:

- the eligibility classifier (`CandidateChecks`), which decides which classes,
  interfaces, methods and properties receive class invariants, preconditions and
  postconditions;
- the postcondition weaver (`PostconditionGenerator`). It rewrites a method's
  statement list in place: it captures `old`, binds the returned expression to
  `result`, asserts the postcondition AND-ed with any inherited one, and then
  returns `result`;
- setter and constructor injection for classes with a class invariant
  (`DynamicSetterInjectionVisitor`);
- the closure class writer (`ContractClosureWriter`). It names the generated
  closure classes and assembles the parameters of `doCall` and `call`. It also
  strips the initial values of the shared variables;
- the rewriting of interface contract annotations into generated closure classes
  (`InterfaceContractVisitor`);
- the `@Requires`, `@Ensures` and `@NotNull` annotation processors.

The syntax tree (module `Ast`, file `ast.dfy`) is split as follows:

- Nodes the weaver updates in place are classes: `BlockStatement`, `MethodNode`,
  `ClassNode`, `PropertyNode` and `ModuleNode`. Flags that are only read are
  `const` fields.
- Statements, expressions, parameters, closures and annotations are values.

Collaborators whose code is not part of this model are parameters:

- `returnOf`: the return statement a trailing statement amounts to.
- `superPostcondition`: the call to the superclass postcondition.
- `extract`: the boolean expression of a closure.
- `capitalize`: the runtime's property-name capitalisation.

| file | module | models |
|---|---|---|
| `ast.dfy` | `Ast` | the syntax-tree slice |
| `candidate_checks.dfy` | `CandidateChecks` | `CandidateChecks.java` |
| `postcondition_generator.dfy` | `PostconditionGeneration` | `PostconditionGenerator.java` |
| `strings.dfy` | `Strings` | `String.lastIndexOf` and decimal rendering of the closure counter |
| `contract_closure_writer.dfy` | `ClosureWriting` | `ContractClosureWriter.java` |
| `setter_injection.dfy` | `SetterInjection` | `DynamicSetterInjectionVisitor.java` |
| `interface_contracts.dfy` | `InterfaceContracts` | `InterfaceContractVisitor.java` |
| `annotation_processors.dfy` | `AnnotationProcessors` | the three annotation processors |

Source paths below are relative to `gcontracts-core/src/main/java/org/gcontracts/`,
written out in full in the table.

## Model

| member | source | states |
|---|---|---|
| CandidateChecks.IsRuntimeClass | gcontracts-core/src/main/java/org/gcontracts/generation/CandidateChecks.java:153-155 | only a dotted, package-qualified name can be a runtime class; a `javax.` class is not one, so it still receives contracts |
| CandidateChecks.IsContractsCandidate | gcontracts-core/src/main/java/org/gcontracts/generation/CandidateChecks.java:50-53 | a treated class is non-null, not an interface and not a runtime class, and so never an interface-contracts candidate |
| CandidateChecks.IsInterfaceContractsCandidate | gcontracts-core/src/main/java/org/gcontracts/generation/CandidateChecks.java:62-64 | a treated interface is non-null, an interface and not a runtime class |
| CandidateChecks.IsClassInvariantCandidate | gcontracts-core/src/main/java/org/gcontracts/generation/CandidateChecks.java:72-75 | an invariant-checked property is non-null, public and not static; a property in a static context or shared with a closure never is |
| CandidateChecks.IsClassInvariantMethodCandidate | gcontracts-core/src/main/java/org/gcontracts/generation/CandidateChecks.java:97-102 | a method around which the invariant is checked is public and is also a postcondition candidate |
| CandidateChecks.IsPreconditionCandidate | gcontracts-core/src/main/java/org/gcontracts/generation/CandidateChecks.java:111-116 | preconditions are only injected into concrete methods declared by the class node being processed, never into inherited or abstract ones |
| CandidateChecks.IsPostconditionCandidate | gcontracts-core/src/main/java/org/gcontracts/generation/CandidateChecks.java:125-130 | postconditions are only injected into instance methods declared by the class node being processed, never into static or inherited ones |
| CandidateChecks.IsPreOrPostconditionCandidate | gcontracts-core/src/main/java/org/gcontracts/generation/CandidateChecks.java:84-88 | the pre-or-post test holds exactly when the precondition test holds |
| CandidateChecks.CouldBeContractElementMethodNode | gcontracts-core/src/main/java/org/gcontracts/generation/CandidateChecks.java:140-145 | every invariant method candidate passes, and every method that passes is public and not synthetic |
| CandidateChecks.CandidateKindsDisjoint | gcontracts-core/src/main/java/org/gcontracts/generation/CandidateChecks.java:50-64 | no type is both a contracts candidate and an interface-contracts candidate; a non-interface is never an interface-contracts candidate |
| CandidateChecks.RuntimeClassExamples | gcontracts-core/src/main/java/org/gcontracts/generation/CandidateChecks.java:153-155 | the runtime-class test is a prefix test that includes the dot: `javax.x` and `java` are not runtime classes; `java.lang.String` and `groovy.lang.Closure` are |
| CandidateChecks.PostconditionImpliesPrecondition | gcontracts-core/src/main/java/org/gcontracts/generation/CandidateChecks.java:111-130 | every postcondition candidate is a precondition candidate, and the two differ exactly on static methods |
| CandidateChecks.PreOrPostIsPrecondition | gcontracts-core/src/main/java/org/gcontracts/generation/CandidateChecks.java:84-88 | the pre-or-post test is equivalent to the precondition test |
| CandidateChecks.InvariantMethodImpliesPostcondition | gcontracts-core/src/main/java/org/gcontracts/generation/CandidateChecks.java:97-130 | a class-invariant method candidate is a postcondition candidate; it is one exactly when it is a public postcondition candidate |
| CandidateChecks.ForeignMethodRejected | gcontracts-core/src/main/java/org/gcontracts/generation/CandidateChecks.java:97-116 | a method declared by another class node gets no invariant, precondition or postcondition treatment |
| CandidateChecks.ContractElementComparesNames | gcontracts-core/src/main/java/org/gcontracts/generation/CandidateChecks.java:140-145 | the contract-element test compares declaring classes by name: it admits a method of a different class node with the same name, which the identity-based precondition test rejects |
| PostconditionGeneration.WovenBody | gcontracts-core/src/main/java/org/gcontracts/generation/PostconditionGenerator.java:157-246 | an empty body stays empty; any other body grows, and begins with the `old` capture unless the method is a void constructor |
| PostconditionGeneration.DefaultWovenBody | gcontracts-core/src/main/java/org/gcontracts/generation/PostconditionGenerator.java:255-318 | the body never shrinks; a body that changes was non-empty, grows, and begins with the `old` capture |
| PostconditionGeneration.GeneratePostconditionAssertionStatement | gcontracts-core/src/main/java/org/gcontracts/generation/PostconditionGenerator.java:157-246 | the in-place rewrite leaves the method's statement list equal to `WovenBody` of the old list |
| PostconditionGeneration.GenerateDefaultPostconditionStatement | gcontracts-core/src/main/java/org/gcontracts/generation/PostconditionGenerator.java:255-318 | the in-place rewrite leaves the statement list equal to `DefaultWovenBody` of the old list |
| PostconditionGeneration.EmptyBodyUnchanged | gcontracts-core/src/main/java/org/gcontracts/generation/PostconditionGenerator.java:162-163 | an empty body is left unchanged by both weavers |
| PostconditionGeneration.ReturningMethodShape | gcontracts-core/src/main/java/org/gcontracts/generation/PostconditionGenerator.java:166-205 | a value-returning method whose last statement yields a return gets `old`, the other statements in order, `result := e`, the check and `return result`; that is n+3 statements |
| PostconditionGeneration.NonReturningMethodShape | gcontracts-core/src/main/java/org/gcontracts/generation/PostconditionGenerator.java:166-205 | a value-returning method whose last statement yields no return keeps it; only `old` and the check are added |
| PostconditionGeneration.VoidMethodShape | gcontracts-core/src/main/java/org/gcontracts/generation/PostconditionGenerator.java:221-244 | a void method gets `old` in front and the check at the end |
| PostconditionGeneration.ConstructorShape | gcontracts-core/src/main/java/org/gcontracts/generation/PostconditionGenerator.java:206-219 | a constructor gets no `old` capture; only the check is appended |
| PostconditionGeneration.WovenBodyKeepsStatements | gcontracts-core/src/main/java/org/gcontracts/generation/PostconditionGenerator.java:170-205 | every statement except a pulled-off trailing return stays, unmodified and in order. It is shifted by one exactly when `old` was inserted |
| PostconditionGeneration.DefaultWithoutSuperCallUnchanged | gcontracts-core/src/main/java/org/gcontracts/generation/PostconditionGenerator.java:264-303 | without a superclass postcondition the default weaving changes nothing, and the trailing return is not pulled off |
| PostconditionGeneration.DefaultReturningMethodShape | gcontracts-core/src/main/java/org/gcontracts/generation/PostconditionGenerator.java:264-298 | the default weaving of a returning method gives `old`, the prefix, `result := e`, the superclass call and `return result` |
| PostconditionGeneration.DefaultVoidMethodShape | gcontracts-core/src/main/java/org/gcontracts/generation/PostconditionGenerator.java:300-316 | the default weaving of a void method adds `old` in front and the superclass call at the end |
| Strings.LastIndexOf | gcontracts-core/src/main/java/org/gcontracts/classgen/asm/ContractClosureWriter.java:243 | the result is -1 or an index holding the character, and no later index holds it |
| Strings.DecimalString | gcontracts-core/src/main/java/org/gcontracts/classgen/asm/ContractClosureWriter.java:252 | the rendering of the counter is a non-empty run of digits, and a single digit exactly below 10 |
| Strings.DecimalStringInjective | gcontracts-core/src/main/java/org/gcontracts/classgen/asm/ContractClosureWriter.java:252 | different counter values have different renderings |
| Strings.TrailingNumberDetermined | gcontracts-core/src/main/java/org/gcontracts/classgen/asm/ContractClosureWriter.java:252 | a string that ends in a non-digit followed by a rendered number determines that number |
| ClosureWriting.WithoutNamed | gcontracts-core/src/main/java/org/gcontracts/classgen/asm/ContractClosureWriter.java:166-170 | the result is never longer than the input, and a result as long as the input is the input itself |
| ClosureWriting.WithoutNamedRemovesAll | gcontracts-core/src/main/java/org/gcontracts/classgen/asm/ContractClosureWriter.java:166-170 | no parameter with the removed name is left |
| ClosureWriting.WithoutNamedKeepsOthers | gcontracts-core/src/main/java/org/gcontracts/classgen/asm/ContractClosureWriter.java:166-170 | every parameter with another name is kept, and nothing new appears |
| ClosureWriting.WithoutNamedConcat | gcontracts-core/src/main/java/org/gcontracts/classgen/asm/ContractClosureWriter.java:166-170 | removal works piecewise over a concatenation, so the kept parameters keep their relative order |
| ClosureWriting.WithoutNamedIdentity | gcontracts-core/src/main/java/org/gcontracts/classgen/asm/ContractClosureWriter.java:166-170 | a list without the name is returned unchanged |
| ClosureWriting.WithoutNamedIdempotent | gcontracts-core/src/main/java/org/gcontracts/classgen/asm/ContractClosureWriter.java:166-170 | removing a name twice is removing it once |
| ClosureWriting.RemoveParameter | gcontracts-core/src/main/java/org/gcontracts/classgen/asm/ContractClosureWriter.java:166-170 | the iterator loop yields exactly `WithoutNamed` of the input |
| ClosureWriting.ReservedParametersRequested | gcontracts-core/src/main/java/org/gcontracts/classgen/asm/ContractClosureWriter.java:54-64 | the closure's parameter list ends up holding a `result` parameter exactly when one was asked for on a known, value-returning method, and an `old` parameter exactly when one was asked for |
| ClosureWriting.ClosureParameters | gcontracts-core/src/main/java/org/gcontracts/classgen/asm/ContractClosureWriter.java:54-67 | the assembled list equals `AssembledParameters`: the closure's parameters without `old`/`result`, then `result`, then `old` |
| ClosureWriting.AssembledParameters | gcontracts-core/src/main/java/org/gcontracts/classgen/asm/ContractClosureWriter.java:54-64 | the list is at most the closure's parameters plus one per requested extra, and ends with `old` when `old` is requested |
| ClosureWriting.AssembledParametersOrder | gcontracts-core/src/main/java/org/gcontracts/classgen/asm/ContractClosureWriter.java:54-67 | the closure's own parameters come first, without any `old` or `result`. `result` appears only when asked for, right after them. `old` appears only when asked for, and last |
| ClosureWriting.ForwardArguments | gcontracts-core/src/main/java/org/gcontracts/classgen/asm/ContractClosureWriter.java:89-92 | one variable argument per parameter, same names, same order |
| ClosureWriting.WithoutInitialValue | gcontracts-core/src/main/java/org/gcontracts/classgen/asm/ContractClosureWriter.java:204-207 | the copy has no initial expression and the same name and type |
| ClosureWriting.WithoutInitialValues | gcontracts-core/src/main/java/org/gcontracts/classgen/asm/ContractClosureWriter.java:202-210 | the generated closure's parameters carry no default value, while each keeps its name, its type and its position |
| ClosureWriting.RemoveInitialValues | gcontracts-core/src/main/java/org/gcontracts/classgen/asm/ContractClosureWriter.java:202-210 | after the in-place loop no array entry has an initial expression, and every index keeps its name and type |
| ClosureWriting.TrimmedClassShortName | gcontracts-core/src/main/java/org/gcontracts/classgen/asm/ContractClosureWriter.java:233-250 | the trimmed part holds no `$`, and it is empty or ends in `_` |
| ClosureWriting.OwnerNameTrimmedAway | gcontracts-core/src/main/java/org/gcontracts/classgen/asm/ContractClosureWriter.java:236-240 | the outermost class itself contributes an empty part to the closure name |
| ClosureWriting.AfterLastDollar | gcontracts-core/src/main/java/org/gcontracts/classgen/asm/ContractClosureWriter.java:242-246 | the result is a `$`-free suffix of the input. It is the whole input when the input has no `$`. Otherwise it is strictly shorter and the character just before it is a `$`, so it is exactly what follows the last `$` |
| ClosureWriting.PlainClassNameKept | gcontracts-core/src/main/java/org/gcontracts/classgen/asm/ContractClosureWriter.java:233-250 | a nested class's plain short name (no `$`, no leading `_`) is kept, followed by `_` |
| ClosureWriting.NestedClassNameCut | gcontracts-core/src/main/java/org/gcontracts/classgen/asm/ContractClosureWriter.java:236-249 | for a nested class named `prefix$inner` with a plain `inner`, only `inner` followed by `_` is kept |
| ClosureWriting.ClosureInnerName | gcontracts-core/src/main/java/org/gcontracts/classgen/asm/ContractClosureWriter.java:252 | the name starts with `_gc_`, the trimmed class name and `closure`; it holds no `$` when the trimmed name holds none |
| ClosureWriting.ClassNamesDistinct | gcontracts-core/src/main/java/org/gcontracts/classgen/asm/ContractClosureWriter.java:252 | two class names built from different counter values differ, whatever the classes |
| ClosureWriting.NamesOfAt | gcontracts-core/src/main/java/org/gcontracts/classgen/asm/ContractClosureWriter.java:47-253 | the k-th name issued is built from the k-th recorded origin and counter value k |
| ClosureWriting.NamesOfSnoc | gcontracts-core/src/main/java/org/gcontracts/classgen/asm/ContractClosureWriter.java:47-253 | recording one more origin issues exactly one more name, built with the next counter value |
| ClosureWriting.NamesOfDistinct | gcontracts-core/src/main/java/org/gcontracts/classgen/asm/ContractClosureWriter.java:47-253 | names issued from any sequence of origins are pairwise distinct |
| ClosureWriting.Outermost | gcontracts-core/src/main/java/org/gcontracts/classgen/asm/ContractClosureWriter.java:172-178 | the class reached through outer-class links has no outer class |
| ClosureWriting.ContractClosureWriter.constructor | gcontracts-core/src/main/java/org/gcontracts/classgen/asm/ContractClosureWriter.java:47 | the counter starts at 1 and no name has been issued |
| ClosureWriting.ContractClosureWriter.IssuedNamesDistinct | gcontracts-core/src/main/java/org/gcontracts/classgen/asm/ContractClosureWriter.java:47-253 | the class names issued by one writer are pairwise distinct |
| ClosureWriting.ContractClosureWriter.GetOutermostClass | gcontracts-core/src/main/java/org/gcontracts/classgen/asm/ContractClosureWriter.java:172-178 | the loop ends at `Outermost(c)`, a class with no outer class |
| ClosureWriting.ContractClosureWriter.GetClosureInnerName | gcontracts-core/src/main/java/org/gcontracts/classgen/asm/ContractClosureWriter.java:233-253 | the name is `_gc_` + trimmed class name + `closure` + the old counter, and the counter goes up by one |
| ClosureWriting.ContractClosureWriter.SharedVariables | gcontracts-core/src/main/java/org/gcontracts/classgen/asm/ContractClosureWriter.java:69-70 | the shared variables are the scope's variables without initial values |
| ClosureWriting.ContractClosureWriter.NewClassName | gcontracts-core/src/main/java/org/gcontracts/classgen/asm/ContractClosureWriter.java:50-51 | the name is `ClosureClassName` of the class with the old counter; the class's origin is recorded and the counter goes up by one |
| ClosureWriting.ContractClosureWriter.BuildClosureClass | gcontracts-core/src/main/java/org/gcontracts/classgen/asm/ContractClosureWriter.java:54-104 | fails exactly without a variable scope. Otherwise it builds `doCall` over the assembled parameters with the closure's code, `call` forwarding them to `doCall`, and the stripped shared variables |
| ClosureWriting.ContractClosureWriter.CreateClosureClass | gcontracts-core/src/main/java/org/gcontracts/classgen/asm/ContractClosureWriter.java:49-104 | fails exactly without a variable scope, and consumes a counter value in either case, so the issued names grow by exactly that class's name. On success the class carries that name and is the closure class `BuildClosureClass` describes |
| SetterInjection.InjectedSetterBlock | gcontracts-core/src/main/java/org/gcontracts/ast/visitor/DynamicSetterInjectionVisitor.java:79-90 | an existing setter block is kept; a changed block belongs to an invariant candidate and is three statements that begin and end with the invariant check |
| SetterInjection.InjectionIdempotent | gcontracts-core/src/main/java/org/gcontracts/ast/visitor/DynamicSetterInjectionVisitor.java:79-90 | an injected setter block is never replaced by a second visit |
| SetterInjection.InjectionCases | gcontracts-core/src/main/java/org/gcontracts/ast/visitor/DynamicSetterInjectionVisitor.java:79-90 | a setter block is added exactly to an invariant candidate that has neither a setter block nor a declared `set<Name>(type)`. Any existing block is kept. An added block is invariant check, field assignment, invariant check |
| SetterInjection.DynamicSetterInjectionVisitor.CreateSetterBlock | gcontracts-core/src/main/java/org/gcontracts/ast/visitor/DynamicSetterInjectionVisitor.java:61-76 | the setter is exactly `[check, field = value, check]` with the same check twice |
| SetterInjection.DynamicSetterInjectionVisitor.VisitProperty | gcontracts-core/src/main/java/org/gcontracts/ast/visitor/DynamicSetterInjectionVisitor.java:79-90 | the property's new setter block is `InjectedSetterBlock` of its old one |
| SetterInjection.DynamicSetterInjectionVisitor.VisitClass | gcontracts-core/src/main/java/org/gcontracts/ast/visitor/DynamicSetterInjectionVisitor.java:93-112 | a class without an invariant method, or with a Spring stereotype, is left alone. Otherwise the check becomes the single call `this.<invariant>()`. A synthetic public constructor running it is added exactly when there are no constructors. Every property then gets `InjectedSetterBlock` |
| SetterInjection.DynamicSetterInjectionVisitor.AddDefaultConstructor | gcontracts-core/src/main/java/org/gcontracts/ast/visitor/DynamicSetterInjectionVisitor.java:104-109 | exactly one constructor is appended: fresh, synthetic, public, without parameters, whose body is the invariant block |
| SetterInjection.DynamicSetterInjectionVisitor.VisitProperties | gcontracts-core/src/main/java/org/gcontracts/ast/visitor/DynamicSetterInjectionVisitor.java:111 | every property's setter block becomes `InjectedSetterBlock` of its old one, whatever the order or repetitions |
| InterfaceContracts.RewrittenClosure | gcontracts-core/src/main/java/org/gcontracts/ast/visitor/InterfaceContractVisitor.java:94-114 | the closure takes its own parameters followed by the method's, and has two statements; the first asserts the condition, with kind `postcondition` exactly for a postcondition |
| InterfaceContracts.RewriteStep | gcontracts-core/src/main/java/org/gcontracts/ast/visitor/InterfaceContractVisitor.java:88-119 | one annotation fails the cast exactly when it is a contract element holding a class reference, and is rewritten exactly when it is a contract element holding a closure with a boolean expression |
| InterfaceContracts.RewrittenStepShape | gcontracts-core/src/main/java/org/gcontracts/ast/visitor/InterfaceContractVisitor.java:89-119 | a rewritten annotation now refers to its generated class. That class belongs to the method and has the annotation's postcondition flag. It takes the closure's parameters followed by the method's and keeps the variable scope. Its body asserts the closure's condition, with kind `postcondition` or `precondition` as the flag says, and then returns true |
| InterfaceContracts.RewriteAnnotations | gcontracts-core/src/main/java/org/gcontracts/ast/visitor/InterfaceContractVisitor.java:88-120 | the rewriting keeps one annotation per annotation |
| InterfaceContracts.RewriteSnoc | gcontracts-core/src/main/java/org/gcontracts/ast/visitor/InterfaceContractVisitor.java:88-120 | one more annotation is kept, rewritten (adding its class) or stops the rewriting with a cast failure |
| InterfaceContracts.RewriteKeepsAnnotationKinds | gcontracts-core/src/main/java/org/gcontracts/ast/visitor/InterfaceContractVisitor.java:86-119 | non-contract annotations are untouched. Every annotation keeps its type and flags. A changed annotation had a closure member and now refers to a class among those generated; which class is stated by `RewriteChangesByOwnStep` |
| InterfaceContracts.RewriteChangesByOwnStep | gcontracts-core/src/main/java/org/gcontracts/ast/visitor/InterfaceContractVisitor.java:88-119 | every changed annotation was rewritten by its own step, equals that step's annotation, and the class that step built is among those generated |
| InterfaceContracts.GeneratedClassesShape | gcontracts-core/src/main/java/org/gcontracts/ast/visitor/InterfaceContractVisitor.java:89-115 | every generated class belongs to the method. Its parameter list ends with the method's parameters. Its body is an inherited assertion whose kind is `postcondition` exactly when the class is flagged as a postcondition, then `return true`. The link from each class to its annotation is stated by `RewrittenStepShape` and `RewriteChangesByOwnStep` |
| InterfaceContracts.GeneratedPerRewrittenAnnotation | gcontracts-core/src/main/java/org/gcontracts/ast/visitor/InterfaceContractVisitor.java:117-119 | one class is added to the module per rewritten annotation |
| InterfaceContracts.SecondRewriteFails | gcontracts-core/src/main/java/org/gcontracts/ast/visitor/InterfaceContractVisitor.java:91 | once an annotation has been rewritten, visiting the method again meets a class reference where a closure is expected |
| InterfaceContracts.RewriteUnchangedPrefix | gcontracts-core/src/main/java/org/gcontracts/ast/visitor/InterfaceContractVisitor.java:88-120 | a rewriting that generated no class and did not fail left every annotation as it was |
| InterfaceContracts.InterfaceContractVisitor.RewriteFailureSticks | gcontracts-core/src/main/java/org/gcontracts/ast/visitor/InterfaceContractVisitor.java:88-120 | once a cast failure ends the rewriting, the later annotations stay untouched and no further class is generated |
| InterfaceContracts.InterfaceContractVisitor.VisitAnnotations | gcontracts-core/src/main/java/org/gcontracts/ast/visitor/InterfaceContractVisitor.java:80-123 | non-method nodes and concrete methods are left alone. An abstract method's annotations and the module's classes become those of `RewriteAnnotations`, and the visit fails exactly when that rewriting fails |
| InterfaceContracts.InterfaceContractVisitor.RewriteContractAnnotations | gcontracts-core/src/main/java/org/gcontracts/ast/visitor/InterfaceContractVisitor.java:86-122 | the loop leaves annotations, module classes and outcome as `RewriteAnnotations` describes |
| InterfaceContracts.InterfaceContractVisitor.RewriteAnnotationAt | gcontracts-core/src/main/java/org/gcontracts/ast/visitor/InterfaceContractVisitor.java:88-119 | one annotation is skipped, rewritten in place with its class appended to the module, or reported as a cast failure |
| InterfaceContracts.InterfaceContractVisitor.VisitClass | gcontracts-core/src/main/java/org/gcontracts/ast/visitor/InterfaceContractVisitor.java:71-77 | a non-candidate is left alone. For a candidate, a completed visit rewrites every method as `MethodRewriting` says and adds the generated classes in method order. A failed visit has met a method whose rewriting fails |
| AnnotationProcessors.Conjoined | gcontracts-core/src/main/java/org/gcontracts/common/impl/EnsuresAnnotationProcessor.java:50 | the new condition is added last to the method's entry; earlier ones keep their order and other methods' entries are unchanged |
| AnnotationProcessors.RequiresAnnotations | gcontracts-core/src/main/java/org/gcontracts/common/impl/RequiresAnnotationProcessor.java:41-47 | the selection is never longer than the annotations, and one as long as them is all of them |
| AnnotationProcessors.RequiresAnnotationsConcat | gcontracts-core/src/main/java/org/gcontracts/common/impl/RequiresAnnotationProcessor.java:41-47 | selecting `@Requires` annotations works piecewise over a concatenation |
| AnnotationProcessors.RequiresAnnotationsSelect | gcontracts-core/src/main/java/org/gcontracts/common/impl/RequiresAnnotationProcessor.java:42-43 | exactly the annotations of type `org.gcontracts.annotations.Requires` are selected |
| AnnotationProcessors.RequiresAnnotationProcessor.Process | gcontracts-core/src/main/java/org/gcontracts/common/impl/RequiresAnnotationProcessor.java:25-33 | a null argument is rejected. With preconditions disabled nothing changes. Otherwise it behaves as `AddPrecondition` |
| AnnotationProcessors.RequiresAnnotationProcessor.AddPrecondition | gcontracts-core/src/main/java/org/gcontracts/common/impl/RequiresAnnotationProcessor.java:35-48 | a non-candidate method changes nothing. Otherwise each `@Requires` annotation, in order, hands its closure to the generator and records the method once. It stops with a cast failure at the first one whose member is a class reference |
| AnnotationProcessors.EnsuresAnnotationProcessor.Process | gcontracts-core/src/main/java/org/gcontracts/common/impl/EnsuresAnnotationProcessor.java:44-51 | disabled postconditions or no expression leave the contract unchanged. Otherwise the postcondition is AND-ed into the method's entry, flagged as a constructor's exactly when the method is a declared constructor |
| AnnotationProcessors.NotNullAnnotationProcessor.Process | gcontracts-core/src/main/java/org/gcontracts/common/impl/NotNullAnnotationProcessor.java:47-57 | disabled preconditions leave the contract unchanged. Otherwise exactly one precondition, `parameter != null`, is AND-ed into the method's entry, and the incoming expression is ignored |

## Left out

- The unseen helper classes are not part of this model. These are `AssertStatementCreationUtility`, `VariableGenerationUtility`, `PreconditionGenerator`, `ClosureWriter`, `AnnotationUtils`, `ExpressionUtils`, `BaseGenerator`, `MetaClassHelper` and `Verifier`. Their results are inputs:
  - `returnOf` and `superPostcondition` for the postcondition weaver;
  - `extract` for the interface visitor;
  - `capitalize` for setter injection;
  - the class flags `invariantMethodName` and `hasSpringStereotype`;
  - the annotation flags `isContractElement` and `isPostcondition`.
- `addAssertionMethodNode` (a synthetic backup method of each postcondition) is not modelled; it only registers a method through a helper.
- The deprecated `ClosureExpression` overload of `generatePostconditionAssertionStatement` (PostconditionGenerator.java:65-155) is identical to the modelled overload, so it is not repeated.
- The postcondition weaver tests for `void` by the return type's name, where the source compares with the `void` type node.
- `PostconditionGeneration.GenerateDefaultPostconditionStatement` takes the class node only because the source passes it on to the return-statement helper.
- `ClosureWriting.ContractClosureWriter.CreateClosureClass` covers the class name, `doCall`, `call` and the shared variables. The generated constructor, the holder fields and getters, modifiers, source positions, the variable-scope copy and `correctAccessedVariable` are not modelled: they are Groovy AST mechanics with nothing to state.
- `ClosureWriting.ContractClosureWriter.CreateClosureClass` fails when the variable scope is missing. In the source the shared-variable lookup (line 69) dereferences the scope before the explicit check at lines 80-83. Both give an exception after the counter was used, so one failure stands for both.
- `ClosureWriting.ContractClosureWriter.GetClosureInnerName`: the counter is an unbounded natural. The source's `int` would wrap after 2^31-1 closures, which no compilation reaches.
- `ClosureWriting.ContractClosureWriter.GetOutermostClass` treats a class as inner exactly when it has an outer class, which is how the source's `InnerClassNode` test behaves.
- Parameter lists are values, so `RemoveParameter` returns the filtered list instead of removing through an iterator.
- The shared invariant block is one object in the source. It appears twice in each setter and once in the default constructor. The model copies it as a value, so aliasing between those places is not captured.
- The interface visitor clears and refills the original closure's block in place (InterfaceContractVisitor.java:104-107). The model builds the rewritten closure as a new value; the original closure is not referenced afterwards.
- The generated closure class is recorded by its inputs (owner, method, closure, postcondition flag). `ClosureWriter`, which turns these into a class, is not part of this model.
- `InterfaceContracts.InterfaceContractVisitor.VisitAnnotations` requires the visited interface to be set. In the source it is reached only through `visitClass`, which sets it.
- `InterfaceContracts.InterfaceContractVisitor.VisitClass` requires the class's method list to hold each method once, as Groovy's class nodes do.
- The traversal done by `super.visitClass` is modelled only where the visitors act. Setter injection visits the properties in order; the interface visitor visits the methods in order. Fields, constructors and class annotations are visited by the source but left unchanged.
- `classNode.getMethod(setterName, params)` is modelled as "a declared method with that name and one parameter of the property's type".
- The AND-combination of conditions is done by the contract domain classes, which are not part of this model. It is represented as the ordered list of conjuncts per method.
- `AnnotationProcessors.EnsuresAnnotationProcessor.Process` and `AnnotationProcessors.NotNullAnnotationProcessor.Process` take non-null arguments. The source does not check them and would fail with a null pointer exception.
- `AnnotationProcessors.NotNullAnnotationProcessor.Process` takes the annotated node as a parameter. The source's cast of another node kind would fail.
- `AnnotationProcessors.RequiresAnnotationProcessor.Process`: the precondition generator's rewrite of the method is not modelled. The closures it is handed are returned, in call order.
- The eligibility predicates are the definitions, so "a type is a contracts candidate iff …" and "a property is an invariant candidate iff …" hold by construction; no separate lemma restates them.
- `BaseAnnotationProcessor` (empty hooks) and the `Invariant` annotation declaration have no behaviour to model.
