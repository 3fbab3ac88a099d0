/**
 * Interface contracts: on every abstract method of an interface, each contract
 * annotation whose member is a closure is rewritten into a generated closure
 * class that asserts the closure's boolean expression (tagged as an inherited
 * precondition or postcondition) and returns true. The generated class is
 * added to the module and the annotation member then refers to it.
 *
 * `extract` (the boolean expression of a closure, if it has one) is an input.
 */
module InterfaceContracts {
  import opened Ast
  import opened CandidateChecks

  const PostconditionKind: string := "postcondition"
  const PreconditionKind: string := "precondition"

  /** How visiting stopped: normally, or on an annotation member that is a class
      reference where a closure was expected (the cast to a closure throws). */
  datatype Outcome = Completed | ClassCastFailure

  /** The node handed to the annotation visit; only methods are treated. */
  datatype AnnotatedNode = MethodAnnotated(methodNode: MethodNode) | OtherAnnotated

  /** What happens to one annotation. */
  datatype Step = Unchanged | Rewritten(annotation: Annotation, generated: GeneratedClosureClass) | CastFailure

  /** The closure handed to the closure writer: the closure's own parameters followed
      by the method's, and a body that asserts `condition` and returns true. */
  function RewrittenClosure(c: Closure, m: MethodNode, isPostcondition: bool, condition: Expr): (r: Closure)
    ensures |r.parameters| == |c.parameters| + |m.parameters|
    ensures r.parameters[..|c.parameters|] == c.parameters && r.parameters[|c.parameters|..] == m.parameters
    ensures |r.statements| == 2 && r.statements[0].InheritedAssert? && r.statements[0].cond == condition
    ensures r.statements[0].kind == PostconditionKind <==> isPostcondition
  {
    var kind := if isPostcondition then PostconditionKind else PreconditionKind;
    Closure(c.parameters + m.parameters, [InheritedAssert(kind, m.name, condition), Return(BoolConst(true))],
            c.variableScope)
  }

  function RewriteStep(a: Annotation, m: MethodNode, owner: string, extract: Closure -> Option<Expr>): (r: Step)
    ensures r.CastFailure? <==> a.isContractElement && a.value.ClassValue?
    ensures r.Rewritten? <==> a.isContractElement && a.value.ClosureValue? && extract(a.value.closure).Some?
  {
    if !a.isContractElement then Unchanged
    else
      match a.value
      case NoValue => Unchanged
      case ClassValue(_) => CastFailure
      case ClosureValue(c) =>
        match extract(c)
        case None => Unchanged
        case Some(condition) =>
          var g := GeneratedClosureClass(owner, m.name, RewrittenClosure(c, m, a.isPostcondition, condition),
                                         a.isPostcondition);
          Rewritten(a.(value := ClassValue(g)), g)
  }

  /** The class built for a rewritten annotation carries the annotation's own
      postcondition flag, its closure's parameters followed by the method's, and an
      assertion of the closure's boolean expression. */
  lemma RewrittenStepShape(a: Annotation, m: MethodNode, owner: string, extract: Closure -> Option<Expr>)
    requires RewriteStep(a, m, owner, extract).Rewritten?
    ensures var step := RewriteStep(a, m, owner, extract);
            var g := step.generated;
            && step.annotation == a.(value := ClassValue(g))
            && g.owner == owner && g.methodName == m.name
            && g.isPostcondition == a.isPostcondition
            && g.closure.parameters == a.value.closure.parameters + m.parameters
            && g.closure.variableScope == a.value.closure.variableScope
            && g.closure.statements ==
                 [InheritedAssert(if a.isPostcondition then PostconditionKind else PreconditionKind,
                                  m.name, extract(a.value.closure).value),
                  Return(BoolConst(true))]
  {
  }

  /** The annotations after rewriting, the closure classes generated (in order) and
      whether the rewriting stopped on a cast failure. */
  datatype Rewriting = Rewriting(annotations: seq<Annotation>, generated: seq<GeneratedClosureClass>,
                                 failed: bool)

  function RewriteAnnotations(anns: seq<Annotation>, m: MethodNode, owner: string,
                              extract: Closure -> Option<Expr>): (r: Rewriting)
    ensures |r.annotations| == |anns|
  {
    if anns == [] then Rewriting([], [], false)
    else
      var prev := RewriteAnnotations(anns[..|anns| - 1], m, owner, extract);
      var a := anns[|anns| - 1];
      if prev.failed then Rewriting(prev.annotations + [a], prev.generated, true)
      else
        match RewriteStep(a, m, owner, extract)
        case Unchanged => Rewriting(prev.annotations + [a], prev.generated, false)
        case CastFailure => Rewriting(prev.annotations + [a], prev.generated, true)
        case Rewritten(b, g) => Rewriting(prev.annotations + [b], prev.generated + [g], false)
  }

  /** Rewriting one more annotation after a prefix that did not fail. */
  lemma RewriteSnoc(anns: seq<Annotation>, a: Annotation, m: MethodNode, owner: string,
                    extract: Closure -> Option<Expr>)
    requires !RewriteAnnotations(anns, m, owner, extract).failed
    ensures var prev := RewriteAnnotations(anns, m, owner, extract);
            var r := RewriteAnnotations(anns + [a], m, owner, extract);
            match RewriteStep(a, m, owner, extract)
            case Unchanged => r == Rewriting(prev.annotations + [a], prev.generated, false)
            case CastFailure => r == Rewriting(prev.annotations + [a], prev.generated, true)
            case Rewritten(b, g) => r == Rewriting(prev.annotations + [b], prev.generated + [g], false)
  {
    assert (anns + [a])[..|anns|] == anns;
  }

  /** Replacing the first element after a prefix moves it to the prefix's end. */
  lemma UpdateAtBoundary<T>(prefix: seq<T>, rest: seq<T>, x: T)
    requires |rest| > 0
    ensures (prefix + rest)[|prefix| := x] == (prefix + [x]) + rest[1..]
  {
  }

  /** The annotation after a step that did not fail, and the classes it generated. */
  function StepAnnotation(step: Step, a: Annotation): Annotation
  {
    if step.Rewritten? then step.annotation else a
  }

  function StepGenerated(step: Step): seq<GeneratedClosureClass>
  {
    if step.Rewritten? then [step.generated] else []
  }

  lemma RewriteStepsAt(anns: seq<Annotation>, i: nat, m: MethodNode, owner: string,
                       extract: Closure -> Option<Expr>)
    requires i < |anns| && !RewriteAnnotations(anns[..i], m, owner, extract).failed
    requires !RewriteStep(anns[i], m, owner, extract).CastFailure?
    ensures var prev := RewriteAnnotations(anns[..i], m, owner, extract);
            var step := RewriteStep(anns[i], m, owner, extract);
            RewriteAnnotations(anns[..i + 1], m, owner, extract)
              == Rewriting(prev.annotations + [StepAnnotation(step, anns[i])],
                           prev.generated + StepGenerated(step), false)
  {
    assert anns[..i + 1] == anns[..i] + [anns[i]];
    RewriteSnoc(anns[..i], anns[i], m, owner, extract);
  }

  lemma RewriteFailsAt(anns: seq<Annotation>, i: nat, m: MethodNode, owner: string,
                       extract: Closure -> Option<Expr>)
    requires i < |anns| && !RewriteAnnotations(anns[..i], m, owner, extract).failed
    requires RewriteStep(anns[i], m, owner, extract).CastFailure?
    ensures var prev := RewriteAnnotations(anns[..i], m, owner, extract);
            RewriteAnnotations(anns, m, owner, extract)
              == Rewriting(prev.annotations + anns[i..], prev.generated, true)
  {
    assert anns[..i + 1] == anns[..i] + [anns[i]];
    RewriteSnoc(anns[..i], anns[i], m, owner, extract);
    InterfaceContractVisitor.RewriteFailureSticks(anns, i + 1, m, owner, extract);
    assert anns[i..] == [anns[i]] + anns[i + 1..];
  }

  /** Annotations that are not contract elements are never touched; the others keep
      their type and flags, and either keep their member or now refer to a generated
      class built from their closure. */
  lemma {:induction false} RewriteKeepsAnnotationKinds(anns: seq<Annotation>, m: MethodNode, owner: string,
                                                       extract: Closure -> Option<Expr>)
    ensures var r := RewriteAnnotations(anns, m, owner, extract);
            forall i :: 0 <= i < |anns| ==>
              && r.annotations[i].typeName == anns[i].typeName
              && r.annotations[i].isContractElement == anns[i].isContractElement
              && r.annotations[i].isPostcondition == anns[i].isPostcondition
              && (!anns[i].isContractElement ==> r.annotations[i] == anns[i])
              && (r.annotations[i] != anns[i] ==>
                    && anns[i].value.ClosureValue?
                    && r.annotations[i].value.ClassValue?
                    && r.annotations[i].value.generated in r.generated)
  {
    if anns != [] {
      RewriteKeepsAnnotationKinds(anns[..|anns| - 1], m, owner, extract);
    }
  }

  /** Each changed annotation is changed by its own step: it now refers to the class
      built from its own closure, and that class is among those generated. */
  lemma {:induction false} RewriteChangesByOwnStep(anns: seq<Annotation>, m: MethodNode, owner: string,
                                                   extract: Closure -> Option<Expr>)
    ensures var r := RewriteAnnotations(anns, m, owner, extract);
            forall i :: 0 <= i < |anns| && r.annotations[i] != anns[i] ==>
              && RewriteStep(anns[i], m, owner, extract).Rewritten?
              && r.annotations[i] == RewriteStep(anns[i], m, owner, extract).annotation
              && RewriteStep(anns[i], m, owner, extract).generated in r.generated
  {
    if anns != [] {
      RewriteChangesByOwnStep(anns[..|anns| - 1], m, owner, extract);
    }
  }

  /** Every generated class belongs to the method, asserts a condition of the right
      kind, returns true, and takes the method's parameters after the closure's. */
  lemma {:induction false} GeneratedClassesShape(anns: seq<Annotation>, m: MethodNode, owner: string,
                                                 extract: Closure -> Option<Expr>)
    ensures var r := RewriteAnnotations(anns, m, owner, extract);
            forall g :: g in r.generated ==>
              && g.owner == owner && g.methodName == m.name
              && |g.closure.statements| == 2
              && g.closure.statements[0].InheritedAssert?
              && g.closure.statements[0].methodName == m.name
              && g.closure.statements[0].kind ==
                   (if g.isPostcondition then PostconditionKind else PreconditionKind)
              && g.closure.statements[1] == Return(BoolConst(true))
              && |g.closure.parameters| >= |m.parameters|
              && g.closure.parameters[|g.closure.parameters| - |m.parameters|..] == m.parameters
  {
    if anns != [] {
      GeneratedClassesShape(anns[..|anns| - 1], m, owner, extract);
    }
  }

  /** The number of positions at which `before` and `after` differ. */
  function CountChanged(before: seq<Annotation>, after: seq<Annotation>): nat
    requires |before| == |after|
  {
    if before == [] then 0
    else CountChanged(before[..|before| - 1], after[..|after| - 1])
         + (if before[|before| - 1] != after[|after| - 1] then 1 else 0)
  }

  /** One generated class per rewritten annotation. */
  lemma {:induction false} GeneratedPerRewrittenAnnotation(anns: seq<Annotation>, m: MethodNode, owner: string,
                                                           extract: Closure -> Option<Expr>)
    ensures var r := RewriteAnnotations(anns, m, owner, extract);
            |r.generated| == CountChanged(anns, r.annotations)
  {
    if anns != [] {
      var r := RewriteAnnotations(anns, m, owner, extract);
      var init := anns[..|anns| - 1];
      GeneratedPerRewrittenAnnotation(init, m, owner, extract);
      assert r.annotations[..|anns| - 1] == RewriteAnnotations(init, m, owner, extract).annotations;
      var a := anns[|anns| - 1];
      if !RewriteAnnotations(init, m, owner, extract).failed && RewriteStep(a, m, owner, extract).Rewritten? {
        assert r.annotations[|anns| - 1].value.ClassValue? && a.value.ClosureValue?;
      }
    }
  }

  /** The rewriting cannot be repeated: visiting rewritten annotations again meets a
      class reference where a closure is expected. */
  lemma {:induction false} SecondRewriteFails(anns: seq<Annotation>, m: MethodNode, owner: string,
                                              extract: Closure -> Option<Expr>)
    ensures var r := RewriteAnnotations(anns, m, owner, extract);
            r.generated != [] ==> RewriteAnnotations(r.annotations, m, owner, extract).failed
  {
    if anns != [] {
      var r := RewriteAnnotations(anns, m, owner, extract);
      var init := anns[..|anns| - 1];
      var prev := RewriteAnnotations(init, m, owner, extract);
      SecondRewriteFails(init, m, owner, extract);
      assert r.annotations[..|anns| - 1] == prev.annotations;
      if prev.generated == [] && r.generated != [] {
        // the last annotation is the first one rewritten, and the earlier ones
        // pass the second time as they passed the first
        RewriteUnchangedPrefix(init, m, owner, extract);
      }
    }
  }

  /** A rewriting that generated nothing and did not fail changed nothing. */
  lemma {:induction false} RewriteUnchangedPrefix(anns: seq<Annotation>, m: MethodNode, owner: string,
                                                  extract: Closure -> Option<Expr>)
    ensures var r := RewriteAnnotations(anns, m, owner, extract);
            r.generated == [] && !r.failed ==> r.annotations == anns
  {
    if anns != [] {
      RewriteUnchangedPrefix(anns[..|anns| - 1], m, owner, extract);
    }
  }

  /** The rewriting one method undergoes during the visit. */
  function MethodRewriting(m: MethodNode, owner: string, extract: Closure -> Option<Expr>): Rewriting
    reads m
  {
    if m.isAbstract then RewriteAnnotations(m.annotations, m, owner, extract)
    else Rewriting(m.annotations, [], false)
  }

  /** The closure classes generated for `ms`, in order. */
  function GeneratedForMethods(ms: seq<MethodNode>, owner: string, extract: Closure -> Option<Expr>)
    : seq<GeneratedClosureClass>
    reads set m | m in ms
  {
    if ms == [] then []
    else GeneratedForMethods(ms[..|ms| - 1], owner, extract)
         + MethodRewriting(ms[|ms| - 1], owner, extract).generated
  }

  class InterfaceContractVisitor {
    /** The interface being visited. */
    var classNode: ClassNode?
    const extract: Closure -> Option<Expr>

    constructor (extract: Closure -> Option<Expr>)
      ensures classNode == null && this.extract == extract
    {
      classNode := null;
      this.extract := extract;
    }

    method VisitAnnotations(node: AnnotatedNode) returns (outcome: Outcome)
      requires classNode != null
      modifies (if node.MethodAnnotated? then {node.methodNode} else {}), classNode.moduleNode
      ensures node.OtherAnnotated? || !node.methodNode.isAbstract ==>
                && outcome == Completed
                && classNode.moduleNode.classes == old(classNode.moduleNode.classes)
                && (node.MethodAnnotated? ==> node.methodNode.annotations == old(node.methodNode.annotations))
      ensures node.MethodAnnotated? && node.methodNode.isAbstract ==>
                var r := RewriteAnnotations(old(node.methodNode.annotations), node.methodNode,
                                            classNode.name, extract);
                && node.methodNode.annotations == r.annotations
                && classNode.moduleNode.classes == old(classNode.moduleNode.classes) + r.generated
                && (outcome == ClassCastFailure <==> r.failed)
    {
      outcome := Completed;
      if node.OtherAnnotated? {
        return;
      }
      var methodNode := node.methodNode;
      if !methodNode.isAbstract {
        return;
      }
      outcome := RewriteContractAnnotations(methodNode, classNode.name, classNode.moduleNode);
    }

    /** The loop over the contract annotations of an abstract method. */
    method RewriteContractAnnotations(methodNode: MethodNode, owner: string, moduleNode: ModuleNode)
      returns (outcome: Outcome)
      modifies methodNode, moduleNode
      ensures var r := RewriteAnnotations(old(methodNode.annotations), methodNode, owner, extract);
              && methodNode.annotations == r.annotations
              && moduleNode.classes == old(moduleNode.classes) + r.generated
              && (outcome == ClassCastFailure <==> r.failed)
    {
      outcome := Completed;
      var anns := methodNode.annotations;
      for i := 0 to |anns|
        invariant var r := RewriteAnnotations(anns[..i], methodNode, owner, extract);
                  && !r.failed
                  && methodNode.annotations == r.annotations + anns[i..]
                  && moduleNode.classes == old(moduleNode.classes) + r.generated
      {
        ghost var prev := RewriteAnnotations(anns[..i], methodNode, owner, extract);
        ghost var step := RewriteStep(anns[i], methodNode, owner, extract);
        assert methodNode.annotations[i] == anns[i] by {
          assert (prev.annotations + anns[i..])[i] == anns[i..][0];
        }
        var castFailed := RewriteAnnotationAt(methodNode, i, owner, moduleNode);
        if castFailed {
          outcome := ClassCastFailure;
          RewriteFailsAt(anns, i, methodNode, owner, extract);
          return;
        }
        RewriteStepsAt(anns, i, methodNode, owner, extract);
        UpdateAtBoundary(prev.annotations, anns[i..], StepAnnotation(step, anns[i]));
        assert anns[i..][1..] == anns[i + 1..];
      }
      assert anns[..|anns|] == anns;
    }

    /** One contract annotation: a closure member with a boolean expression is
        replaced by a reference to a new closure class, added to the module. */
    method RewriteAnnotationAt(methodNode: MethodNode, i: nat, owner: string, moduleNode: ModuleNode)
      returns (castFailed: bool)
      requires i < |methodNode.annotations|
      modifies methodNode, moduleNode
      ensures var step := RewriteStep(old(methodNode.annotations[i]), methodNode, owner, extract);
              && (castFailed <==> step.CastFailure?)
              && methodNode.annotations ==
                   old(methodNode.annotations)[i := StepAnnotation(step, old(methodNode.annotations[i]))]
              && moduleNode.classes == old(moduleNode.classes) + StepGenerated(step)
    {
      castFailed := false;
      var annotationNode := methodNode.annotations[i];
      var isPostcondition := annotationNode.isPostcondition;
      if !annotationNode.isContractElement {
        return;
      }
      if annotationNode.value.ClassValue? {
        castFailed := true;
        return;
      }
      if annotationNode.value.NoValue? {
        return;
      }
      var closureExpression := annotationNode.value.closure;
      var booleanExpression := extract(closureExpression);
      if booleanExpression.None? {
        return;
      }
      var rewrittenClosureExpression := RewrittenClosure(closureExpression, methodNode, isPostcondition,
                                                         booleanExpression.value);
      var closureClassNode := GeneratedClosureClass(owner, methodNode.name, rewrittenClosureExpression,
                                                    isPostcondition);
      moduleNode.classes := moduleNode.classes + [closureClassNode];
      methodNode.annotations := methodNode.annotations[i := annotationNode.(value := ClassValue(closureClassNode))];
    }

    /** Once a prefix has failed, the whole list fails and keeps its remaining annotations. */
    static lemma {:induction false} RewriteFailureSticks(anns: seq<Annotation>, k: nat, m: MethodNode,
                                                         owner: string, extract: Closure -> Option<Expr>)
      requires k <= |anns| && RewriteAnnotations(anns[..k], m, owner, extract).failed
      ensures var r := RewriteAnnotations(anns, m, owner, extract);
              var p := RewriteAnnotations(anns[..k], m, owner, extract);
              r.failed && r.generated == p.generated && r.annotations == p.annotations + anns[k..]
      decreases |anns|
    {
      if k < |anns| {
        var init := anns[..|anns| - 1];
        assert init[..k] == anns[..k];
        RewriteFailureSticks(init, k, m, owner, extract);
        assert init[k..] + [anns[|anns| - 1]] == anns[k..];
      } else {
        assert anns[..k] == anns;
      }
    }

    method VisitClass(node: ClassNode) returns (outcome: Outcome)
      requires forall i, j :: 0 <= i < j < |node.methods| ==> node.methods[i] != node.methods[j]
      modifies this, node.moduleNode, set m | m in node.methods
      ensures !IsInterfaceContractsCandidate(node) ==>
                && outcome == Completed && classNode == old(classNode)
                && node.moduleNode.classes == old(node.moduleNode.classes)
                && forall m :: m in node.methods ==> m.annotations == old(m.annotations)
      ensures IsInterfaceContractsCandidate(node) ==> classNode == node
      ensures IsInterfaceContractsCandidate(node) && outcome == Completed ==>
                && (forall m :: m in node.methods ==>
                      && !old(MethodRewriting(m, node.name, extract)).failed
                      && m.annotations == old(MethodRewriting(m, node.name, extract)).annotations)
                && node.moduleNode.classes ==
                     old(node.moduleNode.classes) + old(GeneratedForMethods(node.methods, node.name, extract))
      ensures IsInterfaceContractsCandidate(node) && outcome == ClassCastFailure ==>
                exists m :: m in node.methods && old(MethodRewriting(m, node.name, extract)).failed
    {
      outcome := Completed;
      if !IsInterfaceContractsCandidate(node) {
        return;
      }
      classNode := node;
      var methods := node.methods;
      for i := 0 to |methods|
        invariant classNode == node && node.methods == methods && outcome == Completed
        invariant forall k :: 0 <= k < i ==>
                    && !old(MethodRewriting(methods[k], node.name, extract)).failed
                    && methods[k].annotations == old(MethodRewriting(methods[k], node.name, extract)).annotations
        invariant forall k :: i <= k < |methods| ==> methods[k].annotations == old(methods[k].annotations)
        invariant node.moduleNode.classes ==
                    old(node.moduleNode.classes) + old(GeneratedForMethods(methods[..i], node.name, extract))
      {
        var m := methods[i];
        assert methods[..i + 1][..i] == methods[..i];
        outcome := VisitAnnotations(MethodAnnotated(m));
        if outcome == ClassCastFailure {
          assert m in node.methods && old(MethodRewriting(m, node.name, extract)).failed;
          return;
        }
      }
      assert methods[..|methods|] == methods;
    }
  }
}
