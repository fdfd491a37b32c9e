/**
  Construction of the matcher call: the expected `FormattedLogValues` state,
  the rendered-string state matcher, and the five-position `Log` matcher or
  one-position `BeginScope` matcher.
 */
module FormattedLogValuesHelpers {
  import opened Wrappers
  import opened Expressions
  import opened Matchers

  /** The event id a `Log` matcher expects when the verified call has none: `(EventId)0`. */
  const DefaultEventId: Expr := Constant(EventIdTy, EventIdValue(0))

  /** The exception a `Log` matcher expects when the verified call has none: a typed `null`. */
  const DefaultException: Expr := Constant(ExceptionTy, NullValue)

  /** `Create(format, parameters)`: the expected state renders the template
      given first with the arguments given second. */
  function Create(format: Expr, parameters: Expr): (s: StateExpr)
    ensures forall env: Env :: RenderExpected(env, s) == env.render(Evaluate(env, format), Evaluate(env, parameters))
  {
    NewFormattedLogValues(format, parameters)
  }

  /** `Match(ToString(state))`: accepts a recorded state exactly when it is a
      log state rendering to the same text as the expected one, whatever its
      identity or field layout. */
  function Match(state: StateExpr): (m: ArgMatcher)
    ensures forall env: Env, v: Value :: ArgAccepts(env, m, v) <==> SameRendering(env, state, v)
  {
    RendersLike(state)
  }

  /** `LogMatch`: a recorded call is accepted exactly when it is a `Log` call
      whose level the given level expression accepts, whose event id the
      given one accepts (or is 0 when none is given), whose state renders
      like the expected state, and whose exception the given one accepts (or
      is null when none is given). The three expressions go to Moq as
      written, so an `It` matcher among them keeps its wildcard reading. The
      formatter is never constrained. */
  function LogMatch(logLevel: Expr, eventId: Option<Expr>, state: StateExpr, exception: Option<Expr>): (m: Matcher)
    ensures m.LogMatcher?
    ensures forall env: Env, inv: Invocation :: Accepts(env, m, inv) <==>
      && inv.LogInvocation?
      && ExprAccepts(env, logLevel, inv.logLevel)
      && (if eventId.Some? then ExprAccepts(env, eventId.value, inv.eventId) else inv.eventId == EventIdValue(0))
      && SameRendering(env, state, inv.state)
      && (if exception.Some? then ExprAccepts(env, exception.value, inv.exception) else inv.exception == NullValue)
  {
    LogMatcher(Exactly(logLevel), Exactly(eventId.GetOr(DefaultEventId)), Match(state),
               Exactly(exception.GetOr(DefaultException)), AnyValue)
  }

  /** `BeginScopeMatch`: a recorded call is accepted exactly when it is a
      `BeginScope` call whose state renders like the expected state. */
  function BeginScopeMatch(state: StateExpr): (m: Matcher)
    ensures m.BeginScopeMatcher?
    ensures forall env: Env, inv: Invocation :: Accepts(env, m, inv) <==>
      inv.BeginScopeInvocation? && SameRendering(env, state, inv.scopeState)
  {
    BeginScopeMatcher(Match(state))
  }

  /** Only the rendering of a recorded state matters: two states with equal
      renderings are accepted or refused together, whether built from value-
      or reference-typed arguments. */
  lemma RenderingDecidesStateMatch(env: Env, state: StateExpr, a: Value, b: Value)
    requires a.FormattedState? && b.FormattedState?
    requires env.render(a.format, a.parameters) == env.render(b.format, b.parameters)
    ensures ArgAccepts(env, Match(state), a) <==> ArgAccepts(env, Match(state), b)
  {
  }
}
