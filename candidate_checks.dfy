/**
 * Eligibility classifier: which types, methods and properties receive which
 * kind of contract. Every predicate is total and reads only immutable flags.
 */
module CandidateChecks {
  import opened Ast

  predicate StartsWith(s: string, prefix: string) {
    prefix <= s
  }

  /** The type belongs to the Groovy or Java runtime. */
  function IsRuntimeClass(t: ClassNode): (r: bool)
    ensures r ==> '.' in t.name
    ensures |t.name| >= 6 && t.name[..6] == "javax." ==> !r
  {
    var groovy := StartsWith(t.name, "groovy.");
    var java := StartsWith(t.name, "java.");
    assert groovy ==> t.name[6] == '.';
    assert java ==> t.name[4] == '.';
    assert |t.name| >= 6 && t.name[..6] == "javax." ==> t.name[4] != "java."[4];
    groovy || java
  }

  function IsContractsCandidate(t: ClassNode?): (r: bool)
    ensures r ==> t != null && !t.isInterface && !IsRuntimeClass(t)
    ensures r ==> !IsInterfaceContractsCandidate(t)
  {
    t != null && !t.isSynthetic && !t.isInterface && !t.isEnum && !t.isGenericsPlaceHolder
    && !t.isScript && !t.isScriptBody && !IsRuntimeClass(t)
  }

  function IsInterfaceContractsCandidate(t: ClassNode?): (r: bool)
    ensures r ==> t != null && t.isInterface && !IsRuntimeClass(t)
  {
    t != null && t.isInterface && !t.isSynthetic && !t.isEnum && !t.isGenericsPlaceHolder
    && !t.isScript && !t.isScriptBody && !IsRuntimeClass(t)
  }

  /** A property whose setter is wrapped in class invariant checks. */
  function IsClassInvariantCandidate(p: PropertyNode?): (r: bool)
    ensures r ==> p != null && p.isPublic && !p.isStatic
    ensures p != null && (p.isInStaticContext || p.isClosureSharedVariable) ==> !r
  {
    p != null && p.isPublic && !p.isStatic && !p.isInStaticContext && !p.isClosureSharedVariable
  }

  /** A method around which the class invariant is checked. */
  function IsClassInvariantMethodCandidate(t: ClassNode?, m: MethodNode): (r: bool)
    ensures r ==> IsPostconditionCandidate(t, m) && m.isPublic
  {
    if m.isSynthetic || m.isAbstract || m.isStatic || !m.isPublic then false
    else if m.declaringClass != t then false
    else true
  }

  function IsPreconditionCandidate(t: ClassNode?, m: MethodNode): (r: bool)
    ensures r ==> m.declaringClass == t && !m.isAbstract
  {
    if m.isSynthetic || m.isAbstract then false
    else if m.declaringClass != t then false
    else true
  }

  function IsPostconditionCandidate(t: ClassNode?, m: MethodNode): (r: bool)
    ensures r ==> m.declaringClass == t && !m.isStatic
  {
    if !IsPreconditionCandidate(t, m) then false
    else if m.isStatic then false
    else true
  }

  function IsPreOrPostconditionCandidate(t: ClassNode?, m: MethodNode): (r: bool)
    ensures r <==> IsPreconditionCandidate(t, m)
  {
    !(!IsPreconditionCandidate(t, m) && !IsPostconditionCandidate(t, m))
  }

  /** Declaring classes are compared by name here, not by identity. */
  function CouldBeContractElementMethodNode(t: ClassNode, m: MethodNode): (r: bool)
    ensures IsClassInvariantMethodCandidate(t, m) ==> r
    ensures r ==> m.isPublic && !m.isSynthetic
  {
    if m.isSynthetic || !m.isPublic then false
    else if m.declaringClass != null && m.declaringClass.name != t.name then false
    else true
  }

  /** Classes and interfaces are never both treated. */
  lemma CandidateKindsDisjoint(t: ClassNode?)
    ensures !(IsContractsCandidate(t) && IsInterfaceContractsCandidate(t))
    ensures t != null && !t.isInterface ==> !IsInterfaceContractsCandidate(t)
  {
  }

  /** Example lemma, on four sample names: the prefix test includes the dot, so `javax.`
      and a bare `java` are not runtime packages. */
  lemma RuntimeClassExamples(t: ClassNode)
    ensures t.name == "javax.x" ==> !IsRuntimeClass(t)
    ensures t.name == "java" ==> !IsRuntimeClass(t)
    ensures t.name == "java.lang.String" ==> IsRuntimeClass(t)
    ensures t.name == "groovy.lang.Closure" ==> IsRuntimeClass(t)
  {
    if t.name == "javax.x" {
      assert t.name[4] != "java."[4];
    }
  }

  lemma PostconditionImpliesPrecondition(t: ClassNode?, m: MethodNode)
    ensures IsPostconditionCandidate(t, m) ==> IsPreconditionCandidate(t, m)
    ensures IsPreconditionCandidate(t, m) && !IsPostconditionCandidate(t, m) <==>
              IsPreconditionCandidate(t, m) && m.isStatic
  {
  }

  lemma PreOrPostIsPrecondition(t: ClassNode?, m: MethodNode)
    ensures IsPreOrPostconditionCandidate(t, m) <==> IsPreconditionCandidate(t, m)
  {
  }

  lemma InvariantMethodImpliesPostcondition(t: ClassNode?, m: MethodNode)
    ensures IsClassInvariantMethodCandidate(t, m) ==> IsPostconditionCandidate(t, m)
    ensures IsClassInvariantMethodCandidate(t, m) <==> IsPostconditionCandidate(t, m) && m.isPublic
  {
  }

  /** Only methods declared by the type itself are woven. */
  lemma ForeignMethodRejected(t: ClassNode?, m: MethodNode)
    requires m.declaringClass != t
    ensures !IsClassInvariantMethodCandidate(t, m)
    ensures !IsPreconditionCandidate(t, m) && !IsPostconditionCandidate(t, m)
    ensures !IsPreOrPostconditionCandidate(t, m)
  {
  }

  /** The name-based test admits a method of a different class node with the same name,
      which the identity-based tests reject. */
  lemma ContractElementComparesNames(t: ClassNode, m: MethodNode)
    requires m.declaringClass != null && m.declaringClass != t && m.declaringClass.name == t.name
    requires m.isPublic && !m.isSynthetic && !m.isAbstract
    ensures CouldBeContractElementMethodNode(t, m)
    ensures !IsPreconditionCandidate(t, m)
  {
  }
}
