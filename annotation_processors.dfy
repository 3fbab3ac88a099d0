/**
 * The processors for `@Requires`, `@Ensures` and `@NotNull`: each is gated by
 * the configuration and either hands work to the precondition generator or adds
 * a condition to the contract record of a method.
 *
 * The contract record keeps, per method, the list of conditions AND-combined so
 * far, in the order they were added.
 */
module AnnotationProcessors {
  import opened Ast
  import opened CandidateChecks

  const RequiresType: string := "org.gcontracts.annotations.Requires"

  /** The configuration and the methods that received a precondition so far. */
  class ProcessingContext {
    const preconditionsEnabled: bool
    const postconditionsEnabled: bool
    var preconditionMethodNodes: seq<MethodNode>

    constructor (preconditionsEnabled: bool, postconditionsEnabled: bool)
      ensures this.preconditionsEnabled == preconditionsEnabled
      ensures this.postconditionsEnabled == postconditionsEnabled
      ensures preconditionMethodNodes == []
    {
      this.preconditionsEnabled := preconditionsEnabled;
      this.postconditionsEnabled := postconditionsEnabled;
      preconditionMethodNodes := [];
    }
  }

  datatype Precondition = Precondition(condition: Expr)

  /** `isConstructor` says whether the postcondition belongs to a constructor. */
  datatype Postcondition = Postcondition(condition: Expr, isConstructor: bool)

  class Contract {
    var preconditions: map<MethodNode, seq<Precondition>>
    var postconditions: map<MethodNode, seq<Postcondition>>

    constructor ()
      ensures preconditions == map[] && postconditions == map[]
    {
      preconditions := map[];
      postconditions := map[];
    }
  }

  /** The conditions recorded for `k` so far; none when it has no entry. */
  function Conjuncts<T>(m: map<MethodNode, seq<T>>, k: MethodNode): seq<T>
  {
    if k in m then m[k] else []
  }

  /** AND-combines `x` into the entry for `k`: the new condition comes last, the
      earlier ones stay in order and every other entry is unchanged. */
  function Conjoined<T>(m: map<MethodNode, seq<T>>, k: MethodNode, x: T): (r: map<MethodNode, seq<T>>)
    ensures r.Keys == m.Keys + {k}
    ensures |r[k]| == |Conjuncts(m, k)| + 1
    ensures r[k][..|r[k]| - 1] == Conjuncts(m, k) && r[k][|r[k]| - 1] == x
    ensures forall j :: j in m && j != k ==> r[j] == m[j]
  {
    m[k := Conjuncts(m, k) + [x]]
  }

  // ---------------------------------------------------------------------------
  // @Requires

  datatype ProcessingError =
    | NullArgument   // a null context, class or method
    | ClassCast      // an annotation member that is a class reference where a closure is expected

  /** The `@Requires` annotations among `anns`, in order. */
  function RequiresAnnotations(anns: seq<Annotation>): (r: seq<Annotation>)
    ensures |r| <= |anns|
    ensures |r| == |anns| ==> r == anns
  {
    if anns == [] then []
    else RequiresAnnotations(anns[..|anns| - 1])
         + (if anns[|anns| - 1].typeName == RequiresType then [anns[|anns| - 1]] else [])
  }

  lemma {:induction false} RequiresAnnotationsConcat(a: seq<Annotation>, b: seq<Annotation>)
    ensures RequiresAnnotations(a + b) == RequiresAnnotations(a) + RequiresAnnotations(b)
  {
    if b != [] {
      assert (a + b)[..|a + b| - 1] == a + b[..|b| - 1];
      RequiresAnnotationsConcat(a, b[..|b| - 1]);
    } else {
      assert a + b == a;
    }
  }

  /** Exactly the `@Requires` annotations are selected; all others are ignored. */
  lemma {:induction false} RequiresAnnotationsSelect(anns: seq<Annotation>)
    ensures forall a :: a in RequiresAnnotations(anns) <==> a in anns && a.typeName == RequiresType
  {
    if anns != [] {
      var init := anns[..|anns| - 1];
      RequiresAnnotationsSelect(init);
      assert anns == init + [anns[|anns| - 1]];
    }
  }

  /** The closure member handed to the precondition generator: null unless it is a closure. */
  function MemberClosure(a: Annotation): Option<Closure>
  {
    if a.value.ClosureValue? then Some(a.value.closure) else None
  }

  class RequiresAnnotationProcessor {
    constructor ()
    {
    }

    /** Returns the closure members handed, one call per `@Requires` annotation and
        in order, to the precondition generator; each call also records the method. */
    method Process(context: ProcessingContext?, classNode: ClassNode?, methodNode: MethodNode?)
      returns (handed: seq<Option<Closure>>, error: Option<ProcessingError>)
      modifies if context != null then {context} else {}
      ensures context == null || classNode == null || methodNode == null ==>
                error == Some(NullArgument) && handed == []
      ensures context != null && (classNode == null || methodNode == null) ==>
                context.preconditionMethodNodes == old(context.preconditionMethodNodes)
      ensures context != null && classNode != null && methodNode != null
              && (!context.preconditionsEnabled || !IsPreOrPostconditionCandidate(classNode, methodNode)) ==>
                error.None? && handed == []
                && context.preconditionMethodNodes == old(context.preconditionMethodNodes)
      ensures context != null && classNode != null && methodNode != null
              && context.preconditionsEnabled && IsPreOrPostconditionCandidate(classNode, methodNode) ==>
                var reqs := RequiresAnnotations(methodNode.annotations);
                && |handed| <= |reqs|
                && (forall k :: 0 <= k < |handed| ==>
                      handed[k] == MemberClosure(reqs[k]) && !reqs[k].value.ClassValue?)
                && (error.None? ==> |handed| == |reqs|)
                && (error.Some? ==> error == Some(ClassCast) && |handed| < |reqs|
                                    && reqs[|handed|].value.ClassValue?)
                && context.preconditionMethodNodes
                     == old(context.preconditionMethodNodes) + seq(|handed|, _ => methodNode)
    {
      handed := [];
      error := None;
      if context == null || classNode == null || methodNode == null {
        error := Some(NullArgument);
        return;
      }
      if !context.preconditionsEnabled {
        return;
      }
      handed, error := AddPrecondition(context, classNode, methodNode);
    }

    method AddPrecondition(context: ProcessingContext, classNode: ClassNode, methodNode: MethodNode)
      returns (handed: seq<Option<Closure>>, error: Option<ProcessingError>)
      modifies context
      ensures !IsPreOrPostconditionCandidate(classNode, methodNode) ==>
                error.None? && handed == []
                && context.preconditionMethodNodes == old(context.preconditionMethodNodes)
      ensures IsPreOrPostconditionCandidate(classNode, methodNode) ==>
                var reqs := RequiresAnnotations(methodNode.annotations);
                && |handed| <= |reqs|
                && (forall k :: 0 <= k < |handed| ==>
                      handed[k] == MemberClosure(reqs[k]) && !reqs[k].value.ClassValue?)
                && (error.None? ==> |handed| == |reqs|)
                && (error.Some? ==> error == Some(ClassCast) && |handed| < |reqs|
                                    && reqs[|handed|].value.ClassValue?)
                && context.preconditionMethodNodes
                     == old(context.preconditionMethodNodes) + seq(|handed|, _ => methodNode)
    {
      handed := [];
      error := None;
      if !IsPreOrPostconditionCandidate(classNode, methodNode) {
        return;
      }
      var annotations := methodNode.annotations;
      ghost var reqs: seq<Annotation> := [];
      for i := 0 to |annotations|
        invariant reqs == RequiresAnnotations(annotations[..i])
        invariant |handed| == |reqs|
        invariant forall k :: 0 <= k < |handed| ==>
                    handed[k] == MemberClosure(reqs[k]) && !reqs[k].value.ClassValue?
        invariant context.preconditionMethodNodes
                    == old(context.preconditionMethodNodes) + seq(|handed|, _ => methodNode)
      {
        var annotation := annotations[i];
        assert annotations[..i + 1][..i] == annotations[..i];
        ghost var next := reqs + (if annotation.typeName == RequiresType then [annotation] else []);
        assert next == RequiresAnnotations(annotations[..i + 1]);
        if annotation.typeName == RequiresType {
          if annotation.value.ClassValue? {
            error := Some(ClassCast);
            RequiresAnnotationsConcat(annotations[..i + 1], annotations[i + 1..]);
            assert annotations[..i + 1] + annotations[i + 1..] == annotations;
            ghost var all := RequiresAnnotations(annotations);
            assert all == next + RequiresAnnotations(annotations[i + 1..]);
            assert forall k :: 0 <= k <= |reqs| ==> all[k] == next[k];
            return;
          }
          var closureExpression := MemberClosure(annotation);
          handed := handed + [closureExpression];
          context.preconditionMethodNodes := context.preconditionMethodNodes + [methodNode];
        }
        reqs := next;
      }
      assert annotations[..|annotations|] == annotations;
    }
  }

  // ---------------------------------------------------------------------------
  // @Ensures

  class EnsuresAnnotationProcessor {
    constructor ()
    {
    }

    method Process(context: ProcessingContext, contract: Contract, classNode: ClassNode,
                   methodNode: MethodNode, booleanExpression: Option<Expr>)
      modifies contract
      ensures contract.preconditions == old(contract.preconditions)
      ensures !context.postconditionsEnabled || booleanExpression.None? ==>
                contract.postconditions == old(contract.postconditions)
      ensures context.postconditionsEnabled && booleanExpression.Some? ==>
                contract.postconditions ==
                  Conjoined(old(contract.postconditions), methodNode,
                            Postcondition(booleanExpression.value, methodNode in classNode.declaredConstructors))
    {
      if !context.postconditionsEnabled {
        return;
      }
      if booleanExpression.None? {
        return;
      }
      var declaredConstructors := classNode.declaredConstructors;
      contract.postconditions := Conjoined(contract.postconditions, methodNode,
                                           Postcondition(booleanExpression.value,
                                                         methodNode in declaredConstructors));
    }
  }

  // ---------------------------------------------------------------------------
  // @NotNull

  /** The precondition `parameter != null`. */
  function NotNullPrecondition(parameter: Parameter): (p: Precondition)
    ensures p.condition.NotEqualsNull? && p.condition.operand == VarRef(parameter.name)
  {
    Precondition(NotEqualsNull(VarRef(parameter.name)))
  }

  class NotNullAnnotationProcessor {
    constructor ()
    {
    }

    /** `booleanExpression` is ignored: the precondition is built from the parameter. */
    method Process(context: ProcessingContext, contract: Contract, annotatedNode: Parameter,
                   methodNode: MethodNode, booleanExpression: Option<Expr>)
      modifies contract
      ensures contract.postconditions == old(contract.postconditions)
      ensures !context.preconditionsEnabled ==> contract.preconditions == old(contract.preconditions)
      ensures context.preconditionsEnabled ==>
                contract.preconditions ==
                  Conjoined(old(contract.preconditions), methodNode, NotNullPrecondition(annotatedNode))
    {
      if !context.preconditionsEnabled {
        return;
      }
      var condition := NotEqualsNull(VarRef(annotatedNode.name));
      contract.preconditions := Conjoined(contract.preconditions, methodNode, Precondition(condition));
    }
  }
}
