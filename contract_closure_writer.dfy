/**
 * The closure class writer: names the class generated for a contract closure,
 * assembles the parameters of its `doCall` and `call` methods and strips the
 * initial values of the closure's shared variables.
 */
module ClosureWriting {
  import opened Ast
  import opened Strings
  import CandidateChecks

  const MapType: string := "java.util.Map"

  /** The `old` parameter appended when the closure sees the old-state snapshot. */
  const OldParameter: Parameter := Parameter(OldName, MapType, None)

  // ---------------------------------------------------------------------------
  // Removing parameters by name

  /** `ps` without the parameters called `name`, the rest in their order. */
  function WithoutNamed(ps: seq<Parameter>, name: string): (r: seq<Parameter>)
    ensures |r| <= |ps|
    ensures |r| == |ps| ==> r == ps
  {
    if ps == [] then []
    else WithoutNamed(ps[..|ps| - 1], name)
         + (if ps[|ps| - 1].name == name then [] else [ps[|ps| - 1]])
  }

  lemma {:induction false} WithoutNamedRemovesAll(ps: seq<Parameter>, name: string)
    ensures forall p :: p in WithoutNamed(ps, name) ==> p.name != name
  {
    if ps != [] {
      WithoutNamedRemovesAll(ps[..|ps| - 1], name);
    }
  }

  lemma {:induction false} WithoutNamedKeepsOthers(ps: seq<Parameter>, name: string)
    ensures forall p :: p in ps && p.name != name ==> p in WithoutNamed(ps, name)
    ensures forall p :: p in WithoutNamed(ps, name) ==> p in ps
  {
    if ps != [] {
      var init := ps[..|ps| - 1];
      WithoutNamedKeepsOthers(init, name);
      assert ps == init + [ps[|ps| - 1]];
    }
  }

  /** Removal works piecewise, so the parameters that stay keep their relative order. */
  lemma {:induction false} WithoutNamedConcat(a: seq<Parameter>, b: seq<Parameter>, name: string)
    ensures WithoutNamed(a + b, name) == WithoutNamed(a, name) + WithoutNamed(b, name)
  {
    if b != [] {
      var binit := b[..|b| - 1];
      assert (a + b)[..|a + b| - 1] == a + binit;
      WithoutNamedConcat(a, binit, name);
    } else {
      assert a + b == a;
    }
  }

  /** Nothing is removed from a list without the name; hence removal is idempotent. */
  lemma {:induction false} WithoutNamedIdentity(ps: seq<Parameter>, name: string)
    requires forall p :: p in ps ==> p.name != name
    ensures WithoutNamed(ps, name) == ps
  {
    if ps != [] {
      var init, last := ps[..|ps| - 1], ps[|ps| - 1];
      assert ps == init + [last];
      assert forall p :: p in init ==> p in ps;
      assert last in ps;
      WithoutNamedIdentity(init, name);
    }
  }

  lemma WithoutNamedIdempotent(ps: seq<Parameter>, name: string)
    ensures WithoutNamed(WithoutNamed(ps, name), name) == WithoutNamed(ps, name)
  {
    WithoutNamedRemovesAll(ps, name);
    WithoutNamedIdentity(WithoutNamed(ps, name), name);
  }

  /** Iterator-based removal of every parameter called `name`. */
  method RemoveParameter(name: string, parameters: seq<Parameter>) returns (kept: seq<Parameter>)
    ensures kept == WithoutNamed(parameters, name)
  {
    kept := [];
    var i := 0;
    while i < |parameters|
      invariant 0 <= i <= |parameters|
      invariant kept == WithoutNamed(parameters[..i], name)
    {
      assert parameters[..i + 1][..i] == parameters[..i];
      if parameters[i].name != name {
        kept := kept + [parameters[i]];
      }
      i := i + 1;
    }
    assert parameters[..i] == parameters;
  }

  // ---------------------------------------------------------------------------
  // Parameter assembly for doCall and call

  /** The `result` parameter: only for a known, value-returning method, when asked for. */
  function ResultParameter(m: MethodNode?, addResultVariable: bool): (r: Option<Parameter>)
    ensures r.Some? <==> m != null && addResultVariable && !m.ReturnsVoid()
    ensures r.Some? ==> r.value == Parameter(ResultName, m.returnType, None)
  {
    if m != null && addResultVariable && !m.ReturnsVoid()
    then Some(Parameter(ResultName, m.returnType, None))
    else None
  }

  function AssembledParameters(closureParameters: seq<Parameter>, resultParameter: Option<Parameter>,
                               addOldVariable: bool): (r: seq<Parameter>)
    ensures |r| <= |closureParameters| + (if resultParameter.Some? then 1 else 0) + (if addOldVariable then 1 else 0)
    ensures addOldVariable ==> |r| > 0 && r[|r| - 1] == OldParameter
  {
    WithoutNamed(WithoutNamed(closureParameters, OldName), ResultName)
    + (match resultParameter case Some(p) => [p] case None => [])
    + (if addOldVariable then [OldParameter] else [])
  }

  method ClosureParameters(closureParameters: seq<Parameter>, m: MethodNode?,
                           addOldVariable: bool, addResultVariable: bool)
    returns (parameters: seq<Parameter>)
    ensures parameters == AssembledParameters(closureParameters,
                                              ResultParameter(m, addResultVariable), addOldVariable)
  {
    parameters := RemoveParameter(OldName, closureParameters);
    parameters := RemoveParameter(ResultName, parameters);
    if m != null && addResultVariable && !m.ReturnsVoid() {
      parameters := parameters + [Parameter(ResultName, m.returnType, None)];
    }
    if addOldVariable {
      parameters := parameters + [OldParameter];
    }
  }

  /** The assembled list holds a `result` parameter exactly when one was asked for on a
      known, value-returning method, and an `old` parameter exactly when one was asked for. */
  lemma ReservedParametersRequested(closureParameters: seq<Parameter>, m: MethodNode?,
                                    addResultVariable: bool, addOldVariable: bool)
    ensures var ps := AssembledParameters(closureParameters, ResultParameter(m, addResultVariable),
                                          addOldVariable);
            && ((exists i :: 0 <= i < |ps| && ps[i].name == ResultName)
                <==> m != null && addResultVariable && !m.ReturnsVoid())
            && ((exists i :: 0 <= i < |ps| && ps[i].name == OldName) <==> addOldVariable)
  {
    var rp := ResultParameter(m, addResultVariable);
    var ps := AssembledParameters(closureParameters, rp, addOldVariable);
    var own := WithoutNamed(WithoutNamed(closureParameters, OldName), ResultName);
    AssembledParametersOrder(closureParameters, rp, addOldVariable);
    if rp.Some? {
      assert ps[|own|].name == ResultName;
    }
    if addOldVariable {
      assert ps[|ps| - 1].name == OldName;
    }
  }

  /** `own`, then `result` exactly when asked for, then `old` exactly when asked for. */
  function AppendedExtras(own: seq<Parameter>, result: Option<Parameter>, addOld: bool): seq<Parameter>
  {
    own + (match result case Some(p) => [p] case None => [])
    + (if addOld then [OldParameter] else [])
  }

  /** The closure's own parameters come first, without any `old` or `result`; then
      `result` exactly when asked for; then `old`, last, exactly when asked for. */
  lemma AssembledParametersOrder(closureParameters: seq<Parameter>, resultParameter: Option<Parameter>,
                                 addOldVariable: bool)
    requires resultParameter.Some? ==> resultParameter.value.name == ResultName
    ensures var ps := AssembledParameters(closureParameters, resultParameter, addOldVariable);
            var own := WithoutNamed(WithoutNamed(closureParameters, OldName), ResultName);
            ExtrasPlaced(ps, own, resultParameter, addOldVariable)
  {
    var own := WithoutNamed(WithoutNamed(closureParameters, OldName), ResultName);
    OwnParametersRenamed(closureParameters);
    assert AssembledParameters(closureParameters, resultParameter, addOldVariable)
           == AppendedExtras(own, resultParameter, addOldVariable);
    ExtrasAppended(own, resultParameter, addOldVariable);
  }

  /** `ps` is `own` (which uses neither reserved name) followed by the requested
      `result` and `old` parameters, in that order, and those names occur nowhere else. */
  predicate ExtrasPlaced(ps: seq<Parameter>, own: seq<Parameter>, resultParameter: Option<Parameter>,
                         addOldVariable: bool)
  {
    var extra := (if resultParameter.Some? then 1 else 0) + (if addOldVariable then 1 else 0);
    && |ps| == |own| + extra
    && ps[..|own|] == own
    && NoReservedNames(ps[..|own|])
    && (addOldVariable <==> |ps| > 0 && ps[|ps| - 1] == OldParameter)
    && (resultParameter.Some? ==> ps[|own|] == resultParameter.value)
    && (forall i :: 0 <= i < |ps| && ps[i].name == OldName ==> addOldVariable && i == |ps| - 1)
    && (forall i :: 0 <= i < |ps| && ps[i].name == ResultName ==> resultParameter.Some? && i == |own|)
  }

  lemma ExtrasAppended(own: seq<Parameter>, resultParameter: Option<Parameter>, addOldVariable: bool)
    requires resultParameter.Some? ==> resultParameter.value.name == ResultName
    requires NoReservedNames(own)
    ensures ExtrasPlaced(AppendedExtras(own, resultParameter, addOldVariable), own, resultParameter,
                         addOldVariable)
  {
    var tail := (match resultParameter case Some(p) => [p] case None => [])
                + (if addOldVariable then [OldParameter] else []);
    var ps := AppendedExtras(own, resultParameter, addOldVariable);
    assert ps == own + tail;
    assert forall i :: 0 <= i < |tail| ==> tail[i].name == ResultName || tail[i].name == OldName;
    forall i | 0 <= i < |ps|
      ensures i < |own| ==> ps[i] == own[i]
      ensures i >= |own| ==> ps[i] == tail[i - |own|]
    {
    }
  }

  /** No parameter is called `old` or `result`. */
  predicate NoReservedNames(ps: seq<Parameter>)
  {
    forall i :: 0 <= i < |ps| ==> ps[i].name != OldName && ps[i].name != ResultName
  }

  /** The closure's own parameters, once `old` and `result` are removed, use neither name. */
  lemma OwnParametersRenamed(closureParameters: seq<Parameter>)
    ensures NoReservedNames(WithoutNamed(WithoutNamed(closureParameters, OldName), ResultName))
  {
    var inner := WithoutNamed(closureParameters, OldName);
    var own := WithoutNamed(inner, ResultName);
    WithoutNamedRemovesAll(inner, ResultName);
    WithoutNamedRemovesAll(closureParameters, OldName);
    WithoutNamedKeepsOthers(inner, ResultName);
    assert forall i :: 0 <= i < |own| ==> own[i] in own;
  }

  /** Arguments of the generated `call` method: one variable per parameter, in order. */
  method ForwardArguments(parameters: seq<Parameter>) returns (arguments: seq<Expr>)
    ensures |arguments| == |parameters|
    ensures forall i :: 0 <= i < |arguments| ==> arguments[i] == VarRef(parameters[i].name)
  {
    arguments := [];
    for i := 0 to |parameters|
      invariant |arguments| == i
      invariant forall k :: 0 <= k < i ==> arguments[k] == VarRef(parameters[k].name)
    {
      arguments := arguments + [VarRef(parameters[i].name)];
    }
  }

  // ---------------------------------------------------------------------------
  // Initial values of shared variables

  function WithoutInitialValue(p: Parameter): (q: Parameter)
    ensures q.initialExpression.None? && q.name == p.name && q.typeName == p.typeName
  {
    if p.initialExpression.Some? then Parameter(p.name, p.typeName, None) else p
  }

  function WithoutInitialValues(ps: seq<Parameter>): (qs: seq<Parameter>)
    ensures |qs| == |ps|
    ensures forall i :: 0 <= i < |ps| ==>
              qs[i].initialExpression.None? && qs[i].name == ps[i].name && qs[i].typeName == ps[i].typeName
  {
    seq(|ps|, i requires 0 <= i < |ps| => WithoutInitialValue(ps[i]))
  }

  /** Replaces each parameter that has an initial value by a copy without one. */
  method RemoveInitialValues(params: array<Parameter>)
    modifies params
    ensures params[..] == WithoutInitialValues(old(params[..]))
    ensures forall i :: 0 <= i < params.Length ==>
              params[i].initialExpression.None? && params[i].name == old(params[i].name)
              && params[i].typeName == old(params[i].typeName)
  {
    for i := 0 to params.Length
      invariant forall k :: 0 <= k < i ==> params[k] == WithoutInitialValue(old(params[k]))
      invariant forall k :: i <= k < params.Length ==> params[k] == old(params[k])
    {
      if params[i].initialExpression.Some? {
        params[i] := Parameter(params[i].name, params[i].typeName, None);
      }
    }
  }

  // ---------------------------------------------------------------------------
  // Class names

  /** The enclosing class's part of the closure name: empty for the outermost
      class itself, otherwise its short name plus `_`, cut after the last `$`,
      minus one leading `_`. */
  function TrimmedClassShortName(ownerShortName: string, classShortName: string): (s: string)
    ensures '$' !in s
    ensures s == "" || s[|s| - 1] == '_'
  {
    var named := if classShortName == ownerShortName then "" else classShortName + "_";
    var cut := AfterLastDollar(named);
    if CandidateChecks.StartsWith(cut, "_") then cut[1..] else cut
  }

  /** The outermost class itself contributes nothing to the closure name. */
  lemma OwnerNameTrimmedAway(shortName: string)
    ensures TrimmedClassShortName(shortName, shortName) == ""
  {
  }

  /** The part of `s` after its last `$`; all of `s` when it has none. */
  function AfterLastDollar(s: string): (r: string)
    ensures '$' !in r
    ensures |r| <= |s| && r == s[|s| - |r|..]
    ensures '$' !in s ==> r == s
    ensures '$' in s ==> |r| < |s| && s[|s| - |r| - 1] == '$'
  {
    var dp := LastIndexOf(s, '$');
    if dp >= 0 then
      var t := s[dp + 1..];
      assert forall j :: 0 <= j < |t| ==> t[j] == s[j + dp + 1];
      t
    else
      assert forall j :: 0 <= j < |s| ==> s[j] != '$';
      s
  }

  /** For a nested class named `prefix$inner`, with a plain `inner`, only `inner` and
      the separating `_` are kept. */
  lemma NestedClassNameCut(ownerShortName: string, prefix: string, inner: string)
    requires ownerShortName != prefix + "$" + inner && '$' !in inner
    requires |inner| > 0 && inner[0] != '_'
    ensures TrimmedClassShortName(ownerShortName, prefix + "$" + inner) == inner + "_"
  {
    var named := prefix + "$" + inner + "_";
    var tail := inner + "_";
    assert named == (prefix + "$") + tail;
    assert '$' !in tail;
    var cut := AfterLastDollar(named);
    assert named[|prefix|] == '$';
    // the cut is a `$`-free suffix preceded by `$`: it starts right after `prefix$`
    assert |cut| == |tail|;
    assert cut == named[|named| - |tail|..] == tail;
  }

  /** A nested class's plain short name (no `$`, no leading `_`) is kept, followed by `_`. */
  lemma PlainClassNameKept(ownerShortName: string, classShortName: string)
    requires ownerShortName != classShortName && '$' !in classShortName
    requires |classShortName| > 0 && classShortName[0] != '_'
    ensures TrimmedClassShortName(ownerShortName, classShortName) == classShortName + "_"
  {
    var named := classShortName + "_";
    assert '$' !in named;
    assert named[0] == classShortName[0];
  }

  function ClosureInnerName(trimmed: string, counter: nat): (r: string)
    ensures "_gc_" + trimmed + "closure" <= r
    ensures '$' !in trimmed ==> '$' !in r
  {
    var digits := DecimalString(counter);
    assert '$' !in digits by {
      assert forall i :: 0 <= i < |digits| ==> IsDigit(digits[i]);
    }
    "_gc_" + trimmed + "closure" + digits
  }

  /** The counter can be read back from any generated class name, so two names
      built from different counter values differ, whatever the classes involved. */
  lemma ClassNamesDistinct(outer1: string, outer2: string, trimmed1: string, trimmed2: string,
                           n1: nat, n2: nat)
    requires n1 != n2
    ensures outer1 + "$" + ClosureInnerName(trimmed1, n1) != outer2 + "$" + ClosureInnerName(trimmed2, n2)
  {
    var x1 := outer1 + "$" + "_gc_" + trimmed1 + "closure";
    var x2 := outer2 + "$" + "_gc_" + trimmed2 + "closure";
    assert outer1 + "$" + ClosureInnerName(trimmed1, n1) == x1 + DecimalString(n1);
    assert outer2 + "$" + ClosureInnerName(trimmed2, n2) == x2 + DecimalString(n2);
    assert x1[|x1| - 1] == 'e' && x2[|x2| - 1] == 'e';
    if x1 + DecimalString(n1) == x2 + DecimalString(n2) {
      TrailingNumberDetermined(x1, x2, n1, n2);
    }
  }

  /** The class reached by following outer-class links from `c`. */
  ghost function Outermost(c: ClassNode): (r: ClassNode)
    requires c.WellNested()
    ensures r.outerClass == null
    ensures c.outerClass == null ==> r == c
    decreases c.nesting
  {
    if c.outerClass == null then c else Outermost(c.outerClass)
  }

  /** The class name built from an origin (outer class name, trimmed short name) and a counter value. */
  function QualifiedName(origin: (string, string), counter: nat): string
  {
    origin.0 + "$" + ClosureInnerName(origin.1, counter)
  }

  /** Name of the class generated for a closure in `c` when the counter stands at `counter`. */
  ghost function ClosureClassName(c: ClassNode, counter: nat): string
    requires c.WellNested()
  {
    QualifiedName(OriginOf(c), counter)
  }

  /** What a closure class name for `c` is built from besides the counter: the
      outermost class's name and the trimmed short name of `c`. */
  ghost function OriginOf(c: ClassNode): (string, string)
    requires c.WellNested()
  {
    var outer := Outermost(c);
    (outer.name, TrimmedClassShortName(outer.nameWithoutPackage, c.nameWithoutPackage))
  }

  /** `body` is the single statement `return this.doCall(p1, ..., pn)` over `ps`. */
  predicate ForwardsToDoCall(body: seq<Stmt>, ps: seq<Parameter>)
  {
    && |body| == 1 && body[0].Return? && body[0].value.ThisCall?
    && body[0].value.methodName == "doCall"
    && |body[0].value.args| == |ps|
    && forall i :: 0 <= i < |ps| ==> body[0].value.args[i] == VarRef(ps[i].name)
  }

  datatype MethodDecl = MethodDecl(name: string, parameters: seq<Parameter>, body: seq<Stmt>)

  /** The generated closure class, as far as this model describes it. */
  datatype ClosureClassNode = ClosureClassNode(name: string, doCall: MethodDecl, call: MethodDecl,
                                               sharedVariables: seq<Parameter>)

  datatype ClosureError = MissingVariableScope

  /** `c` is the class called `name` generated for `expression` (which has a variable
      scope): `doCall` takes `ps` and runs the closure's code, `call` takes `ps` and
      forwards them to `doCall`, and the shared variables are the scope's variables
      without initial values. */
  predicate IsClosureClassFor(c: ClosureClassNode, name: string, expression: Closure, ps: seq<Parameter>)
  {
    && expression.variableScope.Some?
    && c.name == name
    && c.doCall == MethodDecl("doCall", ps, expression.statements)
    && c.call.name == "call" && c.call.parameters == ps
    && ForwardsToDoCall(c.call.body, ps)
    && c.sharedVariables == WithoutInitialValues(expression.variableScope.value)
  }

  /** The class names built from `origins`, the k-th with counter value k (from 1). */
  function NamesOf(origins: seq<(string, string)>): (names: seq<string>)
    ensures |names| == |origins|
  {
    if origins == [] then []
    else
      var last := origins[|origins| - 1];
      NamesOf(origins[..|origins| - 1]) + [QualifiedName(last, |origins|)]
  }

  lemma NamesOfSnoc(origins: seq<(string, string)>, origin: (string, string))
    ensures NamesOf(origins + [origin])
            == NamesOf(origins) + [QualifiedName(origin, |origins| + 1)]
  {
    assert (origins + [origin])[..|origins|] == origins;
  }

  lemma {:induction false} NamesOfAt(origins: seq<(string, string)>)
    ensures forall i :: 0 <= i < |origins| ==>
              NamesOf(origins)[i] == QualifiedName(origins[i], i + 1)
  {
    if origins != [] {
      var init := origins[..|origins| - 1];
      NamesOfAt(init);
      assert forall i :: 0 <= i < |init| ==> origins[i] == init[i];
    }
  }

  /** Every name in `NamesOf(origins)` is different from every other. */
  lemma NamesOfDistinct(origins: seq<(string, string)>)
    ensures forall i, j :: 0 <= i < j < |origins| ==> NamesOf(origins)[i] != NamesOf(origins)[j]
  {
    NamesOfAt(origins);
    forall i, j | 0 <= i < j < |origins|
      ensures NamesOf(origins)[i] != NamesOf(origins)[j]
    {
      ClassNamesDistinct(origins[i].0, origins[j].0, origins[i].1, origins[j].1, i + 1, j + 1);
    }
  }

  class ContractClosureWriter {
    var closureCount: nat
    /** The outer class name and trimmed enclosing-class name of each class created
        so far, in order of creation. */
    ghost var origins: seq<(string, string)>

    ghost predicate Valid()
      reads this
    {
      closureCount == |origins| + 1
    }

    /** The names of the classes created so far. */
    ghost function Issued(): seq<string>
      reads this
    {
      NamesOf(origins)
    }

    constructor ()
      ensures Valid() && closureCount == 1 && Issued() == []
    {
      closureCount := 1;
      origins := [];
    }

    /** No two classes created by one writer share a name. */
    lemma IssuedNamesDistinct()
      ensures forall i, j :: 0 <= i < j < |Issued()| ==> Issued()[i] != Issued()[j]
    {
      NamesOfDistinct(origins);
    }

    method GetOutermostClass(c: ClassNode) returns (outermost: ClassNode)
      requires c.WellNested()
      ensures outermost == Outermost(c)
      ensures outermost.outerClass == null
    {
      outermost := c;
      while outermost.outerClass != null
        invariant outermost.WellNested()
        invariant Outermost(outermost) == Outermost(c)
        decreases outermost.nesting
      {
        outermost := outermost.outerClass;
      }
    }

    /** Advances the counter without recording an origin, so on its own it leaves
        `Valid()` broken; its only caller, `NewClassName`, records the origin that
        restores it. */
    method GetClosureInnerName(owner: ClassNode, enclosingClass: ClassNode) returns (inner: string)
      modifies this`closureCount
      ensures closureCount == old(closureCount) + 1
      ensures inner == ClosureInnerName(TrimmedClassShortName(owner.nameWithoutPackage,
                                                              enclosingClass.nameWithoutPackage),
                                        old(closureCount))
    {
      var ownerShortName := owner.nameWithoutPackage;
      var classShortName := enclosingClass.nameWithoutPackage;
      if classShortName == ownerShortName {
        classShortName := "";
      } else {
        classShortName := classShortName + "_";
      }
      // remove everything up to the last `$`
      var dp := LastIndexOf(classShortName, '$');
      if dp >= 0 {
        dp := dp + 1;
        classShortName := classShortName[dp..];
      }
      assert classShortName == AfterLastDollar(if enclosingClass.nameWithoutPackage == ownerShortName then ""
                                               else enclosingClass.nameWithoutPackage + "_");
      // remove one leading `_`
      if CandidateChecks.StartsWith(classShortName, "_") {
        classShortName := classShortName[1..];
      }
      assert classShortName == TrimmedClassShortName(ownerShortName, enclosingClass.nameWithoutPackage);
      inner := "_gc_" + classShortName + "closure" + DecimalString(closureCount);
      closureCount := closureCount + 1;
    }

    /** The shared variables handed to the closure class, without initial values. */
    static method SharedVariables(scope: seq<Parameter>) returns (shared: seq<Parameter>)
      ensures shared == WithoutInitialValues(scope)
    {
      var localVariableParams := new Parameter[|scope|](i requires 0 <= i < |scope| => scope[i]);
      assert localVariableParams[..] == scope;
      RemoveInitialValues(localVariableParams);
      shared := localVariableParams[..];
    }

    /** Takes the next counter value and returns the class name built from it. */
    method NewClassName(classNode: ClassNode) returns (name: string)
      requires Valid() && classNode.WellNested()
      modifies this
      ensures Valid()
      ensures name == ClosureClassName(classNode, old(closureCount))
      ensures origins == old(origins) + [OriginOf(classNode)]
    {
      var outerClass := GetOutermostClass(classNode);
      var inner := GetClosureInnerName(outerClass, classNode);
      name := outerClass.name + "$" + inner;
      origins := origins + [OriginOf(classNode)];
    }

    /** The class named `name` for `expression`, once the name has been drawn. */
    static method BuildClosureClass(name: string, methodNode: MethodNode?, expression: Closure,
                                    addOldVariable: bool, addResultVariable: bool)
      returns (r: Result<ClosureClassNode, ClosureError>)
      ensures r.Success? <==> expression.variableScope.Some?
      ensures r.Success? ==>
                IsClosureClassFor(r.value, name, expression,
                                  AssembledParameters(expression.parameters,
                                                      ResultParameter(methodNode, addResultVariable),
                                                      addOldVariable))
    {
      var parameters := ClosureParameters(expression.parameters, methodNode,
                                          addOldVariable, addResultVariable);

      if expression.variableScope.None? {
        return Failure(MissingVariableScope);
      }
      var shared := SharedVariables(expression.variableScope.value);

      var doCall := MethodDecl("doCall", parameters, expression.statements);
      var arguments := ForwardArguments(parameters);
      var call := MethodDecl("call", parameters, [Return(ThisCall("doCall", arguments))]);
      r := Success(ClosureClassNode(name, doCall, call, shared));
    }

    method CreateClosureClass(classNode: ClassNode, methodNode: MethodNode?, expression: Closure,
                              addOldVariable: bool, addResultVariable: bool)
      returns (r: Result<ClosureClassNode, ClosureError>)
      requires Valid() && classNode.WellNested()
      modifies this
      ensures Valid()
      ensures Issued() == old(Issued()) + [ClosureClassName(classNode, old(closureCount))]
      ensures r.Success? <==> expression.variableScope.Some?
      ensures r.Success? ==>
                IsClosureClassFor(r.value, ClosureClassName(classNode, old(closureCount)), expression,
                                  AssembledParameters(expression.parameters,
                                                      ResultParameter(methodNode, addResultVariable),
                                                      addOldVariable))
    {
      ghost var before := origins;
      ghost var origin := OriginOf(classNode);
      ghost var expected := QualifiedName(origin, |origins| + 1);
      assert expected == ClosureClassName(classNode, closureCount);
      NamesOfSnoc(before, origin);
      var name := NewClassName(classNode);
      assert origins == before + [origin];
      assert Issued() == NamesOf(before) + [expected];
      r := BuildClosureClass(name, methodNode, expression, addOldVariable, addResultVariable);
    }
  }
}
