/**
 * The slice of the Groovy syntax tree that the contract weaver reads and rewrites.
 *
 * Nodes whose fields the weaver updates in place are classes; statements,
 * expressions, parameters, closures and annotations are values. Flags the weaver
 * only reads are `const` fields, so predicates over them need no reads clause.
 */
module Ast {

  datatype Option<+T> = None | Some(value: T)

  datatype Result<+T, +E> = Success(value: T) | Failure(error: E)

  /** Expressions, as far as the weaver distinguishes them. */
  datatype Expr =
    | Opaque(id: nat)                        // an expression built by code outside this model
    | BoolConst(b: bool)
    | VarRef(name: string)
    | NotEqualsNull(operand: Expr)           // `operand != null`
    | And(left: Expr, right: Expr)           // `left && right`
    | ThisCall(methodName: string, args: seq<Expr>)  // `this.methodName(args)`

  /** Statements, as far as the weaver distinguishes them. */
  datatype Stmt =
    | OldDecl                                // `def old = this.<old variables method>()`
    | ResultDecl(init: Expr)                 // `def result = init`
    | AssertStmt(cond: Expr)                 // the generated postcondition assertion
    | InheritedAssert(kind: string, methodName: string, cond: Expr)  // assertion for an interface contract
    | ExprStmt(e: Expr)
    | Return(value: Expr)
    | FieldAssign(field: string, param: string)  // `field = param`
    | Block(body: seq<Stmt>)
    | Other(id: nat)                         // any statement the weaver does not look into
    | NullStatement                          // a null entry in a statement list

  datatype Parameter = Parameter(name: string, typeName: string, initialExpression: Option<Expr>)

  /** A closure expression: its parameters, its code, and the variable scope
      (the local variables it references) once one has been attached. */
  datatype Closure = Closure(parameters: seq<Parameter>, statements: seq<Stmt>,
                             variableScope: Option<seq<Parameter>>)

  /** What the closure writer is handed for one interface contract annotation. */
  datatype GeneratedClosureClass =
    GeneratedClosureClass(owner: string, methodName: string, closure: Closure, isPostcondition: bool)

  /** The `value` member of an annotation. */
  datatype AnnotationValue =
    | NoValue
    | ClosureValue(closure: Closure)
    | ClassValue(generated: GeneratedClosureClass)

  /** An annotation on a method. `isContractElement` and `isPostcondition` say
      whether the annotation type carries the ContractElement and Postcondition
      meta-annotations. */
  datatype Annotation = Annotation(typeName: string, isContractElement: bool,
                                   isPostcondition: bool, value: AnnotationValue)

  const VoidType: string := "void"
  const ResultName: string := "result"
  const OldName: string := "old"

  /** The expression `result`, returned by a rewritten method. */
  const ResultVar: Expr := VarRef(ResultName)

  class BlockStatement {
    var statements: seq<Stmt>

    constructor (statements: seq<Stmt>)
      ensures this.statements == statements
    {
      this.statements := statements;
    }
  }

  class ModuleNode {
    var classes: seq<GeneratedClosureClass>

    constructor ()
      ensures classes == []
    {
      classes := [];
    }
  }

  class ClassNode {
    const name: string
    const nameWithoutPackage: string
    const isSynthetic: bool
    const isInterface: bool
    const isEnum: bool
    const isGenericsPlaceHolder: bool
    const isScript: bool
    const isScriptBody: bool
    /** Non-null exactly for an inner class. */
    const outerClass: ClassNode?
    /** Length of the chain of outer classes; makes that chain finite. */
    ghost const nesting: nat
    const moduleNode: ModuleNode
    /** Name of the class invariant method, when the class has one. */
    const invariantMethodName: Option<string>
    /** Whether the class carries an annotation from the Spring stereotype package. */
    const hasSpringStereotype: bool
    var methods: seq<MethodNode>
    var declaredConstructors: seq<MethodNode>
    var properties: seq<PropertyNode>

    constructor (name: string, nameWithoutPackage: string, isSynthetic: bool, isInterface: bool,
                 isEnum: bool, isGenericsPlaceHolder: bool, isScript: bool, isScriptBody: bool,
                 outerClass: ClassNode?, moduleNode: ModuleNode,
                 invariantMethodName: Option<string>, hasSpringStereotype: bool)
      requires outerClass != null ==> outerClass.WellNested()
      ensures WellNested()
      ensures this.name == name && this.nameWithoutPackage == nameWithoutPackage
      ensures this.isSynthetic == isSynthetic && this.isInterface == isInterface
      ensures this.isEnum == isEnum && this.isGenericsPlaceHolder == isGenericsPlaceHolder
      ensures this.isScript == isScript && this.isScriptBody == isScriptBody
      ensures this.outerClass == outerClass && this.moduleNode == moduleNode
      ensures this.invariantMethodName == invariantMethodName
      ensures this.hasSpringStereotype == hasSpringStereotype
      ensures methods == [] && declaredConstructors == [] && properties == []
    {
      this.name := name;
      this.nameWithoutPackage := nameWithoutPackage;
      this.isSynthetic := isSynthetic;
      this.isInterface := isInterface;
      this.isEnum := isEnum;
      this.isGenericsPlaceHolder := isGenericsPlaceHolder;
      this.isScript := isScript;
      this.isScriptBody := isScriptBody;
      this.outerClass := outerClass;
      this.nesting := if outerClass == null then 0 else outerClass.nesting + 1;
      this.moduleNode := moduleNode;
      this.invariantMethodName := invariantMethodName;
      this.hasSpringStereotype := hasSpringStereotype;
      methods := [];
      declaredConstructors := [];
      properties := [];
    }

    /** The chain of outer classes is finite (every outer class is less deeply nested). */
    ghost predicate WellNested()
      decreases nesting
    {
      outerClass != null ==> outerClass.nesting < nesting && outerClass.WellNested()
    }
  }

  class MethodNode {
    const name: string
    const parameters: seq<Parameter>
    const returnType: string
    const isConstructor: bool
    const isSynthetic: bool
    const isAbstract: bool
    const isStatic: bool
    const isPublic: bool
    const declaringClass: ClassNode?
    const code: BlockStatement
    var annotations: seq<Annotation>

    constructor (name: string, parameters: seq<Parameter>, returnType: string, isConstructor: bool,
                 isSynthetic: bool, isAbstract: bool, isStatic: bool, isPublic: bool,
                 declaringClass: ClassNode?, code: BlockStatement, annotations: seq<Annotation>)
      ensures this.name == name && this.parameters == parameters && this.returnType == returnType
      ensures this.isConstructor == isConstructor && this.isSynthetic == isSynthetic
      ensures this.isAbstract == isAbstract && this.isStatic == isStatic && this.isPublic == isPublic
      ensures this.declaringClass == declaringClass && this.code == code
      ensures this.annotations == annotations
    {
      this.name := name;
      this.parameters := parameters;
      this.returnType := returnType;
      this.isConstructor := isConstructor;
      this.isSynthetic := isSynthetic;
      this.isAbstract := isAbstract;
      this.isStatic := isStatic;
      this.isPublic := isPublic;
      this.declaringClass := declaringClass;
      this.code := code;
      this.annotations := annotations;
    }

    predicate ReturnsVoid() {
      returnType == VoidType
    }
  }

  class PropertyNode {
    const name: string
    const typeName: string
    /** Name of the backing field. */
    const fieldName: string
    const isPublic: bool
    const isStatic: bool
    const isInStaticContext: bool
    const isClosureSharedVariable: bool
    const declaringClass: ClassNode
    var setterBlock: Option<seq<Stmt>>

    constructor (name: string, typeName: string, fieldName: string, isPublic: bool, isStatic: bool,
                 isInStaticContext: bool, isClosureSharedVariable: bool, declaringClass: ClassNode,
                 setterBlock: Option<seq<Stmt>>)
      ensures this.name == name && this.typeName == typeName && this.fieldName == fieldName
      ensures this.isPublic == isPublic && this.isStatic == isStatic
      ensures this.isInStaticContext == isInStaticContext
      ensures this.isClosureSharedVariable == isClosureSharedVariable
      ensures this.declaringClass == declaringClass && this.setterBlock == setterBlock
    {
      this.name := name;
      this.typeName := typeName;
      this.fieldName := fieldName;
      this.isPublic := isPublic;
      this.isStatic := isStatic;
      this.isInStaticContext := isInStaticContext;
      this.isClosureSharedVariable := isClosureSharedVariable;
      this.declaringClass := declaringClass;
      this.setterBlock := setterBlock;
    }
  }
}
