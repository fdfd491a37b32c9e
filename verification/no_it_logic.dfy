/**
  The visitor that refuses Moq `It` matchers inside the message template and
  the argument array of the verified call: a wildcard there would leave the
  expected log state without a rendering to compare.
 */
module NoItLogicAllowedExpressionVisitor {
  import opened Wrappers
  import opened Expressions
  import opened Failures

  /** The message thrown when `It` logic is found while verifying `methodName`. */
  function ItNotSupportedMessage(methodName: string): string {
    "Moq It methods is not supported while verifying " + methodName + "."
  }

  /** `VisitMethodCall` and the base visitor's descent: true when the walk of
      `e` throws, i.e. it meets a call declared on `It` before finishing. A call
      on any other type is descended into, instance first, then arguments. */
  predicate WalkThrows(e: Expr) {
    match e
    case MethodCall(_, m, inst, args) =>
      m.declaringType == ItTy || (inst.Some? && WalkThrows(inst.value)) || WalkListThrows(args)
    case NewArrayInit(_, xs) => WalkListThrows(xs)
    case Other(_, _, xs) => WalkListThrows(xs)
    case _ => false
  }

  /** The visitor applied to each expression of a list in turn. */
  predicate WalkListThrows(es: seq<Expr>) {
    if es == [] then false else WalkThrows(es[0]) || WalkListThrows(es[1..])
  }

  /** Some node of `e`, at any depth, is a call declared on `It`. */
  ghost predicate HasItCall(e: Expr) {
    exists path :: At(e, path).Some? && IsItCall(At(e, path).value)
  }

  /** `Visit(methodName, expressions)`: every expression of the list is
      walked; the walk throws on the first `It` call it meets and otherwise
      hands the trees back unaltered. */
  function Visit(methodName: string, expressions: seq<Expr>): (r: Result<seq<Expr>, Failure>)
    ensures r.Ok? <==> forall i :: 0 <= i < |expressions| ==> !HasItCall(expressions[i])
    ensures r.Ok? ==> r.value == expressions
    ensures r.Err? ==> r.error == InvalidOperation(ItNotSupportedMessage(methodName))
  {
    WalkListIffSomeThrows(expressions);
    forall i | 0 <= i < |expressions|
      ensures WalkThrows(expressions[i]) <==> HasItCall(expressions[i])
    {
      WalkThrowsIffHasItCall(expressions[i]);
    }
    if WalkListThrows(expressions) then Err(InvalidOperation(ItNotSupportedMessage(methodName)))
    else Ok(expressions)
  }

  /** Walking a list throws exactly when walking one of its members does. */
  lemma {:induction false} WalkListIffSomeThrows(es: seq<Expr>)
    ensures WalkListThrows(es) <==> exists i :: 0 <= i < |es| && WalkThrows(es[i])
  {
    if es != [] {
      WalkListIffSomeThrows(es[1..]);
      if WalkListThrows(es[1..]) {
        var i :| 0 <= i < |es[1..]| && WalkThrows(es[1..][i]);
        assert WalkThrows(es[i + 1]);
      }
      if exists i :: 0 <= i < |es| && WalkThrows(es[i]) {
        var i :| 0 <= i < |es| && WalkThrows(es[i]);
        if i > 0 {
          assert es[1..][i - 1] == es[i];
        }
      }
    }
  }

  /** Following `[i] + path` is following `path` from child `i`. */
  lemma AtChild(e: Expr, i: nat, path: seq<nat>)
    requires i < |Children(e)|
    ensures At(e, [i] + path) == At(Children(e)[i], path)
  {
    assert ([i] + path)[1..] == path;
  }

  /** The walk throws on `e` when some child's walk throws, and conversely
      only the root or a child can make it throw. */
  lemma WalkThrowsByChildren(e: Expr)
    ensures WalkThrows(e) <==> IsItCall(e) || exists i :: 0 <= i < |Children(e)| && WalkThrows(Children(e)[i])
  {
    match e
    case MethodCall(_, m, inst, args) =>
      WalkListIffSomeThrows(args);
      var cs := Children(e);
      if inst.Some? {
        assert cs[0] == inst.value;
        forall i | 0 <= i < |args| ensures cs[i + 1] == args[i] { }
        if exists i :: 0 <= i < |cs| && WalkThrows(cs[i]) {
          var i :| 0 <= i < |cs| && WalkThrows(cs[i]);
          if i > 0 {
            assert WalkThrows(args[i - 1]);
          }
        }
      } else {
        assert cs == args;
      }
    case NewArrayInit(_, xs) =>
      WalkListIffSomeThrows(xs);
      assert Children(e) == xs;
    case Other(_, _, xs) =>
      WalkListIffSomeThrows(xs);
      assert Children(e) == xs;
    case Constant(_, _) =>
    case Parameter(_, _) =>
  }

  /** The walk is exact: it throws on `e` if and only if some node of `e`, at
      any depth, is a call declared on `It`. */
  lemma {:induction false} WalkThrowsIffHasItCall(e: Expr)
    ensures WalkThrows(e) <==> HasItCall(e)
    decreases e
  {
    WalkThrowsByChildren(e);
    var cs := Children(e);
    if WalkThrows(e) {
      if IsItCall(e) {
        assert At(e, []) == Some(e);
      } else {
        var i :| 0 <= i < |cs| && WalkThrows(cs[i]);
        ChildIsSmaller(e, i);
        WalkThrowsIffHasItCall(cs[i]);
        var path :| At(cs[i], path).Some? && IsItCall(At(cs[i], path).value);
        AtChild(e, i, path);
      }
    }
    if HasItCall(e) {
      var path :| At(e, path).Some? && IsItCall(At(e, path).value);
      if path != [] {
        var i := path[0];
        assert i < |cs|;
        AtChild(e, i, path[1..]);
        assert [i] + path[1..] == path;
        ChildIsSmaller(e, i);
        WalkThrowsIffHasItCall(cs[i]);
      }
    }
  }

  /** Every child is a proper part of its parent. */
  lemma ChildIsSmaller(e: Expr, i: nat)
    requires i < |Children(e)|
    ensures Children(e)[i] < e
  {
    match e
    case MethodCall(_, _, inst, args) =>
      if inst.Some? && i > 0 {
        assert Children(e)[i] == args[i - 1];
      }
    case NewArrayInit(_, _) =>
    case Other(_, _, _) =>
  }
}
