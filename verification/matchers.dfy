/**
  The matcher call the front end hands to Moq's `Verify`, and how Moq reads
  it against a call recorded on the mock: a plain expression matches by
  equality of its value, `It.Is<T>(p)` matches a `T` satisfying `p`, and
  `It.IsAny<T>()` matches anything.
 */
module Matchers {
  import opened Wrappers
  import opened Expressions

  /** `new FormattedLogValues(format, parameters)`, the expected log state. */
  datatype StateExpr = NewFormattedLogValues(format: Expr, parameters: Expr)

  /** What one argument position of the matcher call accepts. */
  datatype ArgMatcher =
    /** An argument expression passed through as written: a plain value, or an `It` matcher. */
    | Exactly(expected: Expr)
    /** `It.Is<FormattedLogValues>(s => expected.ToString() == s.ToString())`. */
    | RendersLike(expectedState: StateExpr)
    /** `It.IsAny<T>()`. */
    | AnyValue

  /** `ILogger.Log<FormattedLogValues>(level, eventId, state, exception, formatter)`
      or `ILogger.BeginScope<FormattedLogValues>(state)` with a matcher in each position. */
  datatype Matcher =
    | LogMatcher(logLevel: ArgMatcher, eventId: ArgMatcher, state: ArgMatcher,
                 exception: ArgMatcher, formatter: ArgMatcher)
    | BeginScopeMatcher(scopeState: ArgMatcher)

  /** A call recorded on the mock logger, with its argument values. */
  datatype Invocation =
    | LogInvocation(logLevel: Value, eventId: Value, state: Value, exception: Value, formatter: Value)
    | BeginScopeInvocation(scopeState: Value)

  /** What the model leaves uninterpreted: the value of an expression that is
      not a constant (a captured variable, a conversion, an array built at
      verification time), the rendering `FormattedLogValues.ToString` gives
      for a template and its arguments, and Moq's reading of an `It` matcher
      other than `It.IsAny`. All three are deterministic. */
  datatype Env = Env(eval: Expr -> Value, render: (Value, Value) -> string, itMatches: (Expr, Value) -> bool)

  /** The value an expression has when Moq evaluates it. */
  function Evaluate(env: Env, e: Expr): Value {
    if e.Constant? then e.value else env.eval(e)
  }

  /** `ToString()` of the expected log state. */
  function RenderExpected(env: Env, s: StateExpr): string {
    env.render(Evaluate(env, s.format), Evaluate(env, s.parameters))
  }

  /** Two log states are the same to the state matcher when they render to the same text. */
  predicate SameRendering(env: Env, expected: StateExpr, v: Value) {
    v.FormattedState? && RenderExpected(env, expected) == env.render(v.format, v.parameters)
  }

  /** Moq's reading of an argument expression of the matcher call. A call
      declared on `It` is a matcher: `It.IsAny<T>()` accepts every value, and
      any other `It` method accepts what Moq says it does. Every other
      expression is evaluated, and the recorded value must equal the result. */
  predicate ExprAccepts(env: Env, e: Expr, v: Value) {
    if IsItCall(e) then e.target.name == "IsAny" || env.itMatches(e, v)
    else Evaluate(env, e) == v
  }

  /** Moq's acceptance of one recorded argument value by one argument matcher. */
  predicate ArgAccepts(env: Env, m: ArgMatcher, v: Value) {
    match m
    case Exactly(e) => ExprAccepts(env, e, v)
    case RendersLike(s) => SameRendering(env, s, v)
    case AnyValue => true
  }

  /** Moq's acceptance of a recorded call by a matcher call: same method,
      every argument accepted. */
  predicate Accepts(env: Env, m: Matcher, inv: Invocation) {
    match m
    case LogMatcher(l, ev, st, ex, f) =>
      && inv.LogInvocation?
      && ArgAccepts(env, l, inv.logLevel)
      && ArgAccepts(env, ev, inv.eventId)
      && ArgAccepts(env, st, inv.state)
      && ArgAccepts(env, ex, inv.exception)
      && ArgAccepts(env, f, inv.formatter)
    case BeginScopeMatcher(st) =>
      inv.BeginScopeInvocation? && ArgAccepts(env, st, inv.scopeState)
  }
}
