/**
 * Setter injection for classes with a class invariant: every eligible property
 * without a setter gets one that checks the invariant before and after the
 * assignment, and a class without constructors gets a default constructor that
 * checks the invariant.
 *
 * `capitalize` (the runtime's property-name capitalisation) is an input.
 */
module SetterInjection {
  import opened Ast
  import opened CandidateChecks

  const SetterParameterName: string := "value"
  const ConstructorName: string := "<init>"

  /** The class declares a method `name` taking exactly one parameter of type `typeName`. */
  function HasMethod(c: ClassNode, name: string, typeName: string): (r: bool)
    reads c
    ensures r <==> exists i :: 0 <= i < |c.methods| && c.methods[i].name == name
                              && |c.methods[i].parameters| == 1 && c.methods[i].parameters[0].typeName == typeName
  {
    exists m :: m in c.methods && m.name == name && |m.parameters| == 1
                && m.parameters[0].typeName == typeName
  }

  /** The statement that stands for the shared invariant check: the block when one
      has been built, a null entry otherwise. */
  function InvariantCheck(invariantBlock: Option<seq<Stmt>>): (r: Stmt)
    ensures r == NullStatement <==> invariantBlock.None?
    ensures invariantBlock.Some? ==> r == Block(invariantBlock.value)
  {
    match invariantBlock
    case Some(b) => Block(b)
    case None => NullStatement
  }

  /** The setter block a property ends up with, given the block it has now. */
  function InjectedSetterBlock(p: PropertyNode, current: Option<seq<Stmt>>,
                               invariantBlock: Option<seq<Stmt>>,
                               capitalize: string -> string): (r: Option<seq<Stmt>>)
    reads p.declaringClass
    ensures current.Some? ==> r == current
    ensures r != current ==> IsClassInvariantCandidate(p) && r.Some? && |r.value| == 3
                             && r.value[0] == r.value[2] == InvariantCheck(invariantBlock)
  {
    if IsClassInvariantCandidate(p) && current.None?
       && !HasMethod(p.declaringClass, "set" + capitalize(p.name), p.typeName)
    then Some([InvariantCheck(invariantBlock), FieldAssign(p.fieldName, SetterParameterName),
               InvariantCheck(invariantBlock)])
    else current
  }

  /** Injecting twice is injecting once: an injected setter is never replaced. */
  lemma InjectionIdempotent(p: PropertyNode, current: Option<seq<Stmt>>,
                            invariantBlock: Option<seq<Stmt>>, capitalize: string -> string)
    ensures var once := InjectedSetterBlock(p, current, invariantBlock, capitalize);
            InjectedSetterBlock(p, once, invariantBlock, capitalize) == once
  {
  }

  /** A setter block is added exactly to an invariant candidate that has neither a
      setter block nor an explicitly declared setter; then the field assignment is
      wrapped in invariant checks. */
  lemma InjectionCases(p: PropertyNode, current: Option<seq<Stmt>>,
                       invariantBlock: Option<seq<Stmt>>, capitalize: string -> string)
    ensures var r := InjectedSetterBlock(p, current, invariantBlock, capitalize);
            && (r != current <==> IsClassInvariantCandidate(p) && current.None?
                                  && !HasMethod(p.declaringClass, "set" + capitalize(p.name), p.typeName))
            && (current.Some? ==> r == current)
            && (r != current ==> r.Some? && |r.value| == 3
                                 && r.value[0] == r.value[2] == InvariantCheck(invariantBlock)
                                 && r.value[1] == FieldAssign(p.fieldName, SetterParameterName))
  {
  }

  /** `c` is a synthetic, public, parameterless constructor of `classNode` whose body is `block`. */
  predicate IsDefaultConstructor(c: MethodNode, classNode: ClassNode, block: seq<Stmt>)
    reads c.code
  {
    && c.isConstructor && c.isSynthetic && c.isPublic && !c.isStatic
    && c.parameters == [] && c.declaringClass == classNode
    && c.code.statements == block
  }

  class DynamicSetterInjectionVisitor {
    /** The invariant check shared by all setters and the default constructor of the
        class being visited; None until a class with an invariant has been visited. */
    var invariantAssertionBlock: Option<seq<Stmt>>
    const capitalize: string -> string

    constructor (capitalize: string -> string)
      ensures invariantAssertionBlock.None? && this.capitalize == capitalize
    {
      invariantAssertionBlock := None;
      this.capitalize := capitalize;
    }

    method CreateSetterBlock(fieldName: string) returns (block: seq<Stmt>)
      ensures |block| == 3
      ensures block[0] == block[2] == InvariantCheck(invariantAssertionBlock)
      ensures block[1] == FieldAssign(fieldName, SetterParameterName)
    {
      block := [];
      block := block + [InvariantCheck(invariantAssertionBlock)];
      block := block + [FieldAssign(fieldName, SetterParameterName)];
      block := block + [InvariantCheck(invariantAssertionBlock)];
    }

    method VisitProperty(node: PropertyNode)
      modifies node
      ensures node.setterBlock ==
                InjectedSetterBlock(node, old(node.setterBlock), invariantAssertionBlock, capitalize)
    {
      var classNode := node.declaringClass;
      var setterName := "set" + capitalize(node.name);
      var setterBlock := node.setterBlock;
      if IsClassInvariantCandidate(node) && setterBlock.None?
         && !HasMethod(classNode, setterName, node.typeName) {
        var setterBlockStatement := CreateSetterBlock(node.fieldName);
        assert setterBlockStatement == [InvariantCheck(invariantAssertionBlock),
                                        FieldAssign(node.fieldName, SetterParameterName),
                                        InvariantCheck(invariantAssertionBlock)];
        node.setterBlock := Some(setterBlockStatement);
      }
    }

    method VisitClass(classNode: ClassNode)
      modifies this, classNode, set p | p in classNode.properties
      ensures classNode.properties == old(classNode.properties)
      ensures classNode.methods == old(classNode.methods)
      // skipped: no class invariant, or a Spring stereotype
      ensures classNode.invariantMethodName.None? || classNode.hasSpringStereotype ==>
                && invariantAssertionBlock == old(invariantAssertionBlock)
                && classNode.declaredConstructors == old(classNode.declaredConstructors)
                && forall p :: p in classNode.properties ==> p.setterBlock == old(p.setterBlock)
      ensures classNode.invariantMethodName.Some? && !classNode.hasSpringStereotype ==>
                && invariantAssertionBlock ==
                     Some([ExprStmt(ThisCall(classNode.invariantMethodName.value, []))])
                // a default constructor running the invariant check, only when none is declared
                && (old(classNode.declaredConstructors) != [] ==>
                      classNode.declaredConstructors == old(classNode.declaredConstructors))
                && (old(classNode.declaredConstructors) == [] ==>
                      |classNode.declaredConstructors| == 1
                      && var c := classNode.declaredConstructors[0];
                      && fresh(c) && fresh(c.code)
                      && IsDefaultConstructor(c, classNode, invariantAssertionBlock.value))
                && forall p :: p in classNode.properties ==>
                     p.setterBlock == InjectedSetterBlock(p, old(p.setterBlock),
                                                          invariantAssertionBlock, capitalize)
    {
      if classNode.invariantMethodName.None? || classNode.hasSpringStereotype {
        return;
      }
      var block := [ExprStmt(ThisCall(classNode.invariantMethodName.value, []))];
      invariantAssertionBlock := Some(block);

      if classNode.declaredConstructors == [] {
        AddDefaultConstructor(classNode, block);
      }
      VisitProperties(classNode.properties);
    }

    /** Adds a synthetic public constructor to `classNode` whose body is `block`. */
    static method AddDefaultConstructor(classNode: ClassNode, block: seq<Stmt>)
      modifies classNode
      ensures classNode.properties == old(classNode.properties)
      ensures classNode.methods == old(classNode.methods)
      ensures |classNode.declaredConstructors| == |old(classNode.declaredConstructors)| + 1
      ensures classNode.declaredConstructors[..|classNode.declaredConstructors| - 1]
              == old(classNode.declaredConstructors)
      ensures var c := classNode.declaredConstructors[|classNode.declaredConstructors| - 1];
              fresh(c) && fresh(c.code) && IsDefaultConstructor(c, classNode, block)
    {
      var code := new BlockStatement(block);
      var defaultConstructor := new MethodNode(ConstructorName, [], VoidType, true, true, false,
                                               false, true, classNode, code, []);
      classNode.declaredConstructors := classNode.declaredConstructors + [defaultConstructor];
    }

    /** Runs `VisitProperty` on each property in turn. */
    method VisitProperties(properties: seq<PropertyNode>)
      modifies set p | p in properties
      ensures forall p :: p in properties ==>
                p.setterBlock == InjectedSetterBlock(p, old(p.setterBlock), invariantAssertionBlock, capitalize)
    {
      for i := 0 to |properties|
        invariant forall p :: p in properties[..i] ==>
                    p.setterBlock == InjectedSetterBlock(p, old(p.setterBlock),
                                                         invariantAssertionBlock, capitalize)
        invariant forall p :: p in properties[i..] && p !in properties[..i] ==>
                    p.setterBlock == old(p.setterBlock)
      {
        var p := properties[i];
        assert properties[..i + 1] == properties[..i] + [p];
        InjectionIdempotent(p, old(p.setterBlock), invariantAssertionBlock, capitalize);
        VisitProperty(p);
      }
      assert properties[..|properties|] == properties;
    }
  }
}
