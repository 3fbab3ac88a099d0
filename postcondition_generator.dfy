/**
 * Postcondition weaving: rewrites a method's statement list in place so that it
 * captures `old` first, binds the returned expression to `result`, asserts the
 * postcondition and then returns `result`.
 *
 * Two collaborators are inputs rather than code of this model:
 *  - `returnOf(last)` is the expression of the return statement that the
 *    statement `last` amounts to, or None when it does not yield a return;
 *  - `superPostcondition(usesOld, usesResult)` is the call to the superclass
 *    postcondition method, or None when no superclass declares one.
 */
module PostconditionGeneration {
  import opened Ast

  function Last(s: seq<Stmt>): Stmt
    requires |s| > 0
  {
    s[|s| - 1]
  }

  /** The assertion checked after the body: the own predicate, AND-ed with the
      superclass postcondition call when there is one. */
  function Conjoin(own: Expr, superCall: Option<Expr>): (e: Expr)
    ensures superCall.None? ==> e == own
    ensures superCall.Some? ==> e == And(own, superCall.value)
  {
    match superCall
    case None => own
    case Some(call) => And(own, call)
  }

  /** The body after postcondition weaving, for a body `body` of a method that
      returns void or not and is a constructor or not. */
  function WovenBody(body: seq<Stmt>, returnsVoid: bool, isConstructor: bool, own: Expr,
                     returnOf: Stmt -> Option<Expr>,
                     superPostcondition: (bool, bool) -> Option<Expr>): (r: seq<Stmt>)
    ensures |body| == 0 ==> r == body
    ensures |body| > 0 ==> |r| > |body|
    ensures |body| > 0 && !(returnsVoid && isConstructor) ==> r[0] == OldDecl
  {
    if |body| == 0 then body
    else if !returnsVoid then
      var ret := returnOf(Last(body));
      var check := AssertStmt(Conjoin(own, superPostcondition(true, ret.Some?)));
      match ret
      case Some(e) => [OldDecl] + body[..|body| - 1] + [ResultDecl(e), check, Return(ResultVar)]
      case None => [OldDecl] + body + [check]
    else if isConstructor then
      body + [AssertStmt(Conjoin(own, superPostcondition(false, false)))]
    else
      [OldDecl] + body + [AssertStmt(Conjoin(own, superPostcondition(true, false)))]
  }

  /** The body after default postcondition weaving (no own postcondition; only
      the inherited one is checked). */
  function DefaultWovenBody(body: seq<Stmt>, returnsVoid: bool, returnOf: Stmt -> Option<Expr>,
                            superPostcondition: (bool, bool) -> Option<Expr>): (r: seq<Stmt>)
    ensures |r| >= |body|
    ensures r != body ==> |body| > 0 && |r| > |body| && r[0] == OldDecl
  {
    if |body| == 0 then body
    else if !returnsVoid then
      var ret := returnOf(Last(body));
      match superPostcondition(true, ret.Some?)
      case None => body
      case Some(call) =>
        match ret
        case Some(e) => [OldDecl] + body[..|body| - 1] + [ResultDecl(e), ExprStmt(call), Return(ResultVar)]
        case None => [OldDecl] + body + [ExprStmt(call)]
    else
      match superPostcondition(true, false)
      case None => body
      case Some(call) => [OldDecl] + body + [ExprStmt(call)]
  }

  method GeneratePostconditionAssertionStatement(m: MethodNode, own: Expr,
                                                  returnOf: Stmt -> Option<Expr>,
                                                  superPostcondition: (bool, bool) -> Option<Expr>)
    modifies m.code
    ensures m.code.statements ==
              WovenBody(old(m.code.statements), m.ReturnsVoid(), m.isConstructor, own,
                        returnOf, superPostcondition)
  {
    var methodBlock := m.code;
    if |methodBlock.statements| > 0 {
      var postconditionCheck: seq<Stmt> := [];
      if !m.ReturnsVoid() {
        var lastStatement := methodBlock.statements[|methodBlock.statements| - 1];
        var returnStatement := returnOf(lastStatement);
        if returnStatement.Some? {
          methodBlock.statements := methodBlock.statements[..|methodBlock.statements| - 1];
        }
        var superCall := superPostcondition(true, returnStatement.Some?);
        postconditionCheck := postconditionCheck + [AssertStmt(Conjoin(own, superCall))];
        if returnStatement.Some? {
          postconditionCheck := [ResultDecl(returnStatement.value)] + postconditionCheck;
        }
        methodBlock.statements := [OldDecl] + methodBlock.statements;
        methodBlock.statements := methodBlock.statements + postconditionCheck;
        if returnStatement.Some? {
          methodBlock.statements := methodBlock.statements + [Return(ResultVar)];
        }
      } else if m.isConstructor {
        var superCall := superPostcondition(false, false);
        postconditionCheck := postconditionCheck + [AssertStmt(Conjoin(own, superCall))];
        methodBlock.statements := methodBlock.statements + postconditionCheck;
      } else {
        var superCall := superPostcondition(true, false);
        postconditionCheck := postconditionCheck + [AssertStmt(Conjoin(own, superCall))];
        methodBlock.statements := [OldDecl] + methodBlock.statements;
        methodBlock.statements := methodBlock.statements + postconditionCheck;
      }
    }
  }

  method GenerateDefaultPostconditionStatement(t: ClassNode, m: MethodNode,
                                               returnOf: Stmt -> Option<Expr>,
                                               superPostcondition: (bool, bool) -> Option<Expr>)
    modifies m.code
    ensures m.code.statements ==
              DefaultWovenBody(old(m.code.statements), m.ReturnsVoid(), returnOf, superPostcondition)
  {
    var methodBlock := m.code;
    if |methodBlock.statements| > 0 {
      var postconditionCheck: seq<Stmt> := [];
      if !m.ReturnsVoid() {
        var lastStatement := methodBlock.statements[|methodBlock.statements| - 1];
        var returnStatement := returnOf(lastStatement);
        var superCall := superPostcondition(true, returnStatement.Some?);
        if superCall.None? {
          return;
        }
        if returnStatement.Some? {
          methodBlock.statements := methodBlock.statements[..|methodBlock.statements| - 1];
          postconditionCheck := postconditionCheck + [ResultDecl(returnStatement.value)];
        }
        postconditionCheck := postconditionCheck + [ExprStmt(superCall.value)];
        methodBlock.statements := [OldDecl] + methodBlock.statements;
        methodBlock.statements := methodBlock.statements + postconditionCheck;
        if returnStatement.Some? {
          methodBlock.statements := methodBlock.statements + [Return(ResultVar)];
        }
      } else {
        var superCall := superPostcondition(true, false);
        if superCall.None? {
          return;
        }
        postconditionCheck := postconditionCheck + [ExprStmt(superCall.value)];
        methodBlock.statements := [OldDecl] + methodBlock.statements;
        methodBlock.statements := methodBlock.statements + postconditionCheck;
      }
    }
  }

  // ---------------------------------------------------------------------------
  // Properties of the woven bodies

  lemma EmptyBodyUnchanged(returnsVoid: bool, isConstructor: bool, own: Expr,
                           returnOf: Stmt -> Option<Expr>,
                           superPostcondition: (bool, bool) -> Option<Expr>)
    ensures WovenBody([], returnsVoid, isConstructor, own, returnOf, superPostcondition) == []
    ensures DefaultWovenBody([], returnsVoid, returnOf, superPostcondition) == []
  {
  }

  /** A value-returning method whose last statement yields a return: `old` first,
      the other statements in order, then `result`, the check and `return result`. */
  lemma ReturningMethodShape(body: seq<Stmt>, isConstructor: bool, own: Expr,
                             returnOf: Stmt -> Option<Expr>,
                             superPostcondition: (bool, bool) -> Option<Expr>)
    requires |body| > 0 && returnOf(Last(body)).Some?
    ensures var r := WovenBody(body, false, isConstructor, own, returnOf, superPostcondition);
            var n := |body|;
            |r| == n + 3 && r[0] == OldDecl && r[1..n] == body[..n - 1]
            && r[n] == ResultDecl(returnOf(Last(body)).value)
            && r[n + 1] == AssertStmt(Conjoin(own, superPostcondition(true, true)))
            && r[n + 2] == Return(ResultVar)
  {
  }

  /** A value-returning method whose last statement yields no return keeps it. */
  lemma NonReturningMethodShape(body: seq<Stmt>, isConstructor: bool, own: Expr,
                                returnOf: Stmt -> Option<Expr>,
                                superPostcondition: (bool, bool) -> Option<Expr>)
    requires |body| > 0 && returnOf(Last(body)).None?
    ensures WovenBody(body, false, isConstructor, own, returnOf, superPostcondition)
            == [OldDecl] + body + [AssertStmt(Conjoin(own, superPostcondition(true, false)))]
  {
  }

  lemma VoidMethodShape(body: seq<Stmt>, own: Expr, returnOf: Stmt -> Option<Expr>,
                        superPostcondition: (bool, bool) -> Option<Expr>)
    requires |body| > 0
    ensures var r := WovenBody(body, true, false, own, returnOf, superPostcondition);
            |r| == |body| + 2 && r[0] == OldDecl && r[1..|body| + 1] == body
            && r[|body| + 1] == AssertStmt(Conjoin(own, superPostcondition(true, false)))
  {
  }

  /** Constructors get no `old` capture; the check is appended. */
  lemma ConstructorShape(body: seq<Stmt>, own: Expr, returnOf: Stmt -> Option<Expr>,
                         superPostcondition: (bool, bool) -> Option<Expr>)
    requires |body| > 0
    ensures var r := WovenBody(body, true, true, own, returnOf, superPostcondition);
            |r| == |body| + 1 && r[..|body|] == body && OldDecl !in r[|body|..]
            && r[|body|] == AssertStmt(Conjoin(own, superPostcondition(false, false)))
  {
  }

  /** The statements that stay: all of them, minus a trailing return that was pulled off. */
  function Kept(body: seq<Stmt>, returnsVoid: bool, returnOf: Stmt -> Option<Expr>): seq<Stmt>
  {
    if |body| > 0 && !returnsVoid && returnOf(Last(body)).Some? then body[..|body| - 1] else body
  }

  /** Kept statements appear in the woven body in their original order, unmodified,
      shifted by one exactly when an `old` capture was inserted in front. */
  lemma WovenBodyKeepsStatements(body: seq<Stmt>, returnsVoid: bool, isConstructor: bool, own: Expr,
                                 returnOf: Stmt -> Option<Expr>,
                                 superPostcondition: (bool, bool) -> Option<Expr>, i: nat)
    requires i < |Kept(body, returnsVoid, returnOf)|
    ensures var r := WovenBody(body, returnsVoid, isConstructor, own, returnOf, superPostcondition);
            var shift := if returnsVoid && isConstructor then 0 else 1;
            i + shift < |r| && r[i + shift] == Kept(body, returnsVoid, returnOf)[i]
  {
  }

  /** Without a superclass postcondition, the default weaving leaves the body
      alone; in particular a trailing return is not pulled off. */
  lemma DefaultWithoutSuperCallUnchanged(body: seq<Stmt>, returnsVoid: bool,
                                         returnOf: Stmt -> Option<Expr>,
                                         superPostcondition: (bool, bool) -> Option<Expr>)
    requires |body| > 0
    requires superPostcondition(true, !returnsVoid && returnOf(Last(body)).Some?).None?
    ensures DefaultWovenBody(body, returnsVoid, returnOf, superPostcondition) == body
  {
  }

  lemma DefaultReturningMethodShape(body: seq<Stmt>, returnOf: Stmt -> Option<Expr>,
                                    superPostcondition: (bool, bool) -> Option<Expr>)
    requires |body| > 0 && returnOf(Last(body)).Some? && superPostcondition(true, true).Some?
    ensures var r := DefaultWovenBody(body, false, returnOf, superPostcondition);
            var n := |body|;
            |r| == n + 3 && r[0] == OldDecl && r[1..n] == body[..n - 1]
            && r[n] == ResultDecl(returnOf(Last(body)).value)
            && r[n + 1] == ExprStmt(superPostcondition(true, true).value)
            && r[n + 2] == Return(ResultVar)
  {
  }

  lemma DefaultVoidMethodShape(body: seq<Stmt>, returnOf: Stmt -> Option<Expr>,
                               superPostcondition: (bool, bool) -> Option<Expr>)
    requires |body| > 0 && superPostcondition(true, false).Some?
    ensures DefaultWovenBody(body, true, returnOf, superPostcondition)
            == [OldDecl] + body + [ExprStmt(superPostcondition(true, false).value)]
  {
  }
}
