/**
  Static types, runtime values and LINQ expression trees, reduced to what the
  logger verification front end inspects: a node's static type, the method a
  call node invokes (its name, declaring type and whether it carries the
  extension attribute) and the node's children.
 */
module Expressions {
  import opened Wrappers

  /** A class or struct type and its base class. `Ty` is inductive, so every
      base chain is finite and acyclic, as it is in the CLR. Interfaces have
      no base class. */
  datatype Ty = Ty(name: string, baseType: Option<Ty>)

  const ObjectTy: Ty := Ty("System.Object", None)
  const ValueTypeTy: Ty := Ty("System.ValueType", Some(ObjectTy))
  const EnumTy: Ty := Ty("System.Enum", Some(ValueTypeTy))
  const StringTy: Ty := Ty("System.String", Some(ObjectTy))
  const ArrayTy: Ty := Ty("System.Array", Some(ObjectTy))
  const ObjectArrayTy: Ty := Ty("System.Object[]", Some(ArrayTy))
  const ExceptionTy: Ty := Ty("System.Exception", Some(ObjectTy))
  const VoidTy: Ty := Ty("System.Void", Some(ValueTypeTy))
  const EventIdTy: Ty := Ty("Microsoft.Extensions.Logging.EventId", Some(ValueTypeTy))
  const LogLevelTy: Ty := Ty("Microsoft.Extensions.Logging.LogLevel", Some(EnumTy))
  const LoggerTy: Ty := Ty("Microsoft.Extensions.Logging.ILogger", None)
  const LoggerExtensionsTy: Ty := Ty("Microsoft.Extensions.Logging.LoggerExtensions", Some(ObjectTy))
  const ItTy: Ty := Ty("Moq.It", Some(ObjectTy))

  /** `Type.IsSubclassOf`: `t` derives from `c` through one or more base-class steps. */
  predicate IsSubclassOf(t: Ty, c: Ty) {
    match t.baseType
    case None => false
    case Some(b) => b == c || IsSubclassOf(b, c)
  }

  /** `t` is `c` itself or derives from it (what `c.IsAssignableFrom(t)` says for classes). */
  predicate IsSameOrSubclassOf(t: Ty, c: Ty) {
    t == c || IsSubclassOf(t, c)
  }

  /** Number of base-class steps from `t` to the root of its chain. */
  function Depth(t: Ty): nat {
    match t.baseType
    case None => 0
    case Some(b) => 1 + Depth(b)
  }

  /** A base class sits strictly higher in the chain than every class derived from it. */
  lemma {:induction false} SubclassIsDeeper(t: Ty, c: Ty)
    requires IsSubclassOf(t, c)
    ensures Depth(c) < Depth(t)
  {
    var b := t.baseType.value;
    if b != c {
      SubclassIsDeeper(b, c);
    }
  }

  /** `IsSubclassOf` is strict: no type is a subclass of itself. */
  lemma SubclassIsIrreflexive(t: Ty)
    ensures !IsSubclassOf(t, t)
  {
    if IsSubclassOf(t, t) {
      SubclassIsDeeper(t, t);
    }
  }

  /** The base classes of one type form a chain: any two of them are related. */
  lemma {:induction false} BaseClassesAreOrdered(t: Ty, a: Ty, c: Ty)
    requires IsSubclassOf(t, a) && IsSubclassOf(t, c)
    ensures a == c || IsSubclassOf(a, c) || IsSubclassOf(c, a)
  {
    var b := t.baseType.value;
    if b == a {
      assert b == c || IsSubclassOf(a, c);
    } else if b == c {
      assert IsSubclassOf(c, a);
    } else {
      BaseClassesAreOrdered(b, a, c);
    }
  }

  /** No type is both an exception and an event id: the two slots of a log
      call never compete for the same argument. */
  lemma ExceptionIsNeverEventId(t: Ty)
    requires IsSameOrSubclassOf(t, ExceptionTy)
    ensures !IsSameOrSubclassOf(t, EventIdTy)
  {
    if IsSameOrSubclassOf(t, EventIdTy) && t != ExceptionTy && t != EventIdTy {
      BaseClassesAreOrdered(t, ExceptionTy, EventIdTy);
    }
  }

  /** `Microsoft.Extensions.Logging.LogLevel`, without its `None` member, which
      no verified call uses. */
  datatype LogLevel = Trace | Debug | Information | Warning | Error | Critical

  /** A runtime value as the logging library and Moq's equality see it. An
      `EventId` compares by its numeric id only, so the model keeps just that. */
  datatype Value =
    | LevelValue(level: LogLevel)
    | EventIdValue(id: int)
    | NullValue
    | TextValue(text: string)
    | FormattedState(format: Value, parameters: Value)
    | ObjectValue(handle: nat)

  /** The `MethodInfo` of a call node: its name, declaring type and whether
      it carries `ExtensionAttribute`. */
  datatype MethodRef = MethodRef(name: string, declaringType: Ty, isExtension: bool)

  /** A LINQ expression tree node with its static type. An extension method
      call holds its receiver as argument 0 and has no instance. `Other`
      stands for every remaining node type, named by its `ExpressionType`
      (`"New"`, `"Convert"`, `"MemberAccess"`, ...), with its operands. */
  datatype Expr =
    | Constant(ty: Ty, value: Value)
    | Parameter(ty: Ty, name: string)
    | MethodCall(ty: Ty, target: MethodRef, instance: Option<Expr>, arguments: seq<Expr>)
    | NewArrayInit(ty: Ty, elements: seq<Expr>)
    | Other(ty: Ty, kind: string, operands: seq<Expr>)

  /** A call node whose method is declared on `Moq.It`. */
  predicate IsItCall(e: Expr) {
    e.MethodCall? && e.target.declaringType == ItTy
  }

  /** An object creation (`ExpressionType.New`), such as
      `new InvalidOperationException("boom")`: each evaluation yields a new object. */
  predicate IsObjectCreation(e: Expr) {
    e.Other? && e.kind == "New"
  }

  /** An `Expression<Action<TLogger>>`: one logger parameter and a body. */
  datatype Lambda = Lambda(parameter: Expr, body: Expr)

  /** The children `ExpressionVisitor` descends into, in its visiting order:
      a call's instance, then its arguments. */
  function Children(e: Expr): seq<Expr> {
    match e
    case MethodCall(_, _, inst, args) => (if inst.Some? then [inst.value] else []) + args
    case NewArrayInit(_, xs) => xs
    case Other(_, _, xs) => xs
    case _ => []
  }

  /** The node reached from `e` by following child indexes along `path`. */
  function At(e: Expr, path: seq<nat>): Option<Expr>
    decreases |path|
  {
    if path == [] then Some(e)
    else if path[0] < |Children(e)| then At(Children(e)[path[0]], path[1..])
    else None
  }

  /** `String.StartsWith(prefix, StringComparison.Ordinal)`. */
  predicate StartsWith(s: string, prefix: string) {
    |prefix| <= |s| && s[..|prefix|] == prefix
  }
}
