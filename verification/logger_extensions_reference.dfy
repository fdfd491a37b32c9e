/**
  A reference for the round trip `VerifyExt` is for: a logging extension call
  as a test writes it, the expression tree of that call, and the `ILogger`
  call that running it records on the mock. Verifying the described call
  should accept the recorded one.
 */
module LoggerExtensionsReference {
  import opened Wrappers
  import opened Expressions
  import opened Matchers
  import NoItLogicAllowedExpressionVisitor
  import FormattedLogValuesHelpers
  import opened MockILoggerExtensions

  /** The logging extensions `VerifyExt` accepts. */
  datatype Operation = LevelOperation(level: LogLevel) | LogOperation | BeginScopeOperation

  function OperationName(op: Operation): string {
    match op
    case LevelOperation(level) => LevelMethodName(level)
    case LogOperation => "Log"
    case BeginScopeOperation => "BeginScope"
  }

  /** A call of one of the logging extensions: the level (for `Log` only),
      the optional event id and exception, the message template and the
      argument array. */
  datatype ExtensionCall = ExtensionCall(op: Operation, level: Option<Expr>, eventId: Option<Expr>,
                                         exception: Option<Expr>, message: Expr, args: Expr)

  /** The call has the shape and argument types of an overload the logging
      library declares. */
  predicate IsOverload(c: ExtensionCall) {
    && (c.op.BeginScopeOperation? ==> c.eventId.None? && c.exception.None?)
    && (c.op.LogOperation? <==> c.level.Some?)
    && (c.level.Some? ==> c.level.value.ty == LogLevelTy)
    && (c.eventId.Some? ==> c.eventId.value.ty == EventIdTy)
    && (c.exception.Some? ==> IsSameOrSubclassOf(c.exception.value.ty, ExceptionTy))
    && c.message.ty == StringTy
    && c.args.ty == ObjectArrayTy
  }

  /** The call holds no `It` logic in its template or argument array. */
  ghost predicate WithoutItLogic(c: ExtensionCall) {
    !NoItLogicAllowedExpressionVisitor.HasItCall(c.message) && !NoItLogicAllowedExpressionVisitor.HasItCall(c.args)
  }

  /** The logger parameter of the verified lambda. */
  const Receiver: Expr := Parameter(LoggerTy, "l")

  function OptionalArgument(e: Option<Expr>): seq<Expr> {
    if e.Some? then [e.value] else []
  }

  /** The arguments after the receiver, in declaration order. */
  function TrailingArguments(c: ExtensionCall): seq<Expr> {
    OptionalArgument(c.level) + OptionalArgument(c.eventId) + OptionalArgument(c.exception) + [c.message, c.args]
  }

  /** The expression `l => l.Op(level?, eventId?, exception?, message, args)`. */
  function Describe(c: ExtensionCall): Lambda {
    Lambda(Receiver, MethodCall(VoidTy, MethodRef(OperationName(c.op), LoggerExtensionsTy, true), None,
                                [Receiver] + TrailingArguments(c)))
  }

  /** The message formatter the logging extensions pass to `ILogger.Log`. */
  const MessageFormatter: Value := ObjectValue(0)

  /** The `ILogger` call that running the extension records: the level fixed
      by the name or given, the event id given or 0, a new log state of the
      template and arguments, the exception given or null. */
  function Perform(env: Env, c: ExtensionCall): Invocation {
    var state := FormattedState(Evaluate(env, c.message), Evaluate(env, c.args));
    var eventId := if c.eventId.Some? then Evaluate(env, c.eventId.value) else EventIdValue(0);
    var exception := if c.exception.Some? then Evaluate(env, c.exception.value) else NullValue;
    match c.op
    case BeginScopeOperation => BeginScopeInvocation(state)
    case LevelOperation(level) => LogInvocation(LevelValue(level), eventId, state, exception, MessageFormatter)
    case LogOperation =>
      LogInvocation(if c.level.Some? then Evaluate(env, c.level.value) else NullValue, eventId, state, exception, MessageFormatter)
  }

  /** The optional argument if the slot test picks it up. */
  function Picked(rule: ParameterRule, e: Option<Expr>, target: Ty): Option<Expr> {
    if e.Some? && Qualifies(rule, e.value.ty, target) then e else None
  }

  /** The level expression the front end takes for the call. */
  function LevelExpression(c: ExtensionCall): Expr {
    match c.op
    case LevelOperation(level) => LevelConstant(level)
    case _ => c.level.GetOr(Receiver)
  }

  /** No argument of a logging overload other than the event id is of an
      event id type, and none other than the exception of an exception type. */
  lemma OtherArgumentsNeverQualify(rule: ParameterRule, c: ExtensionCall)
    requires IsOverload(c)
    ensures forall x :: x in TrailingArguments(c) && Qualifies(rule, x.ty, EventIdTy) ==> Some(x) == c.eventId
    ensures forall x :: x in TrailingArguments(c) && Qualifies(rule, x.ty, ExceptionTy) ==> Some(x) == c.exception
  {
    forall x | x in TrailingArguments(c) && Qualifies(rule, x.ty, EventIdTy)
      ensures Some(x) == c.eventId
    {
      ArgumentOfOverload(c, x);
      if c.exception.Some? && x == c.exception.value {
        ExceptionIsNeverEventId(x.ty);
      }
    }
    forall x | x in TrailingArguments(c) && Qualifies(rule, x.ty, ExceptionTy)
      ensures Some(x) == c.exception
    {
      ArgumentOfOverload(c, x);
      assert !IsSameOrSubclassOf(EventIdTy, ExceptionTy);
    }
  }

  /** Each argument after the receiver is one of the call's slots, and the
      level, template and array slots are neither event ids nor exceptions. */
  lemma ArgumentOfOverload(c: ExtensionCall, x: Expr)
    requires IsOverload(c) && x in TrailingArguments(c)
    ensures Some(x) == c.eventId || Some(x) == c.exception ||
            (!IsSameOrSubclassOf(x.ty, EventIdTy) && !IsSameOrSubclassOf(x.ty, ExceptionTy))
  {
    assert !IsSameOrSubclassOf(LogLevelTy, EventIdTy) && !IsSameOrSubclassOf(LogLevelTy, ExceptionTy);
    assert !IsSameOrSubclassOf(StringTy, EventIdTy) && !IsSameOrSubclassOf(StringTy, ExceptionTy);
    assert !IsSameOrSubclassOf(ObjectArrayTy, EventIdTy) && !IsSameOrSubclassOf(ObjectArrayTy, ExceptionTy);
  }

  /** When at most one argument passes the slot test, the search finds
      exactly the one the slot test picks up. */
  lemma PicksTheOnlyCandidate(rule: ParameterRule, ps: seq<Expr>, e: Option<Expr>, target: Ty)
    requires forall x :: x in ps && Qualifies(rule, x.ty, target) ==> Some(x) == e
    requires e.Some? ==> e.value in ps
    ensures GetExistingParameterExpression(rule, ps, target) == Picked(rule, e, target)
  {
    var r := GetExistingParameterExpression(rule, ps, target);
    if r.Some? {
      var i :| 0 <= i < |ps| && ps[i] == r.value && Qualifies(rule, ps[i].ty, target);
      assert ps[i] in ps;
    }
  }

  /** A log call that passes the name and `It` checks becomes the log
      matcher for the level its name gives, the first arguments the slot
      test picks up and the state of its last two arguments. */
  lemma TranslateLogResult(rule: ParameterRule, call: Expr)
    requires call.MethodCall? && call.target.name in LogMethodToLogLevel
    requires |call.arguments| >= 3 && !ItInFormattedLogArguments(call)
    ensures var ps := ParametersOf(call);
            var args := call.arguments;
            var level := match LogMethodToLogLevel[call.target.name]
                         case Some(l) => LevelConstant(l)
                         case None => ps[0];
            TranslateLog(rule, call) ==
            Ok(FormattedLogValuesHelpers.LogMatch(level, GetExistingParameterExpression(rule, ps, EventIdTy),
                                                  FormattedLogValuesHelpers.Create(args[|args| - 2], args[|args| - 1]),
                                                  GetExistingParameterExpression(rule, ps, ExceptionTy)))
  {
  }

  /** The expression tree of a described call: its arguments after the
      receiver, and the template and argument array as its last two. */
  lemma DescribedCallShape(c: ExtensionCall)
    requires WithoutItLogic(c)
    ensures var call := Describe(c).body;
            && call.MethodCall?
            && call.target.isExtension
            && call.target.name == OperationName(c.op)
            && |call.arguments| >= 3
            && ParametersOf(call) == TrailingArguments(c)
            && call.arguments[|call.arguments| - 2] == c.message
            && call.arguments[|call.arguments| - 1] == c.args
            && !ItInFormattedLogArguments(call)
  {
    var call := Describe(c).body;
    assert FormattedLogArguments(call) == [c.message, c.args];
  }

  /** Every log operation is routed to the log branch and finds its entry in
      the level table: a fixed level, or none for `Log`. */
  lemma LogNamesRouteToLevelTable(op: Operation)
    requires !op.BeginScopeOperation?
    ensures OperationName(op) != "BeginScope" && StartsWith(OperationName(op), "Log")
    ensures OperationName(op) in LogMethodToLogLevel
    ensures LogMethodToLogLevel[OperationName(op)] == if op.LevelOperation? then Some(op.level) else None
  {
    match op
    case LevelOperation(level) =>
      assert OperationName(op)[..3] == "Log";
      assert GetLogLevelExpressionFromMethodName(OperationName(op)) == Ok(Some(LevelConstant(level)));
    case LogOperation =>
  }

  /** The front end turns a described log call into the log matcher for its
      level, the event id and exception the slot test picks up, and the
      state of its template and arguments. */
  lemma TranslateDescribedLog(rule: ParameterRule, c: ExtensionCall)
    requires IsOverload(c) && WithoutItLogic(c) && !c.op.BeginScopeOperation?
    ensures Translate(rule, Describe(c)) ==
            Ok(FormattedLogValuesHelpers.LogMatch(LevelExpression(c), Picked(rule, c.eventId, EventIdTy),
                                                  FormattedLogValuesHelpers.Create(c.message, c.args),
                                                  Picked(rule, c.exception, ExceptionTy)))
  {
    var call := Describe(c).body;
    var ps := TrailingArguments(c);
    DescribedCallShape(c);
    LogNamesRouteToLevelTable(c.op);
    TranslateLogResult(rule, call);
    if c.op.LogOperation? {
      assert ps[0] == c.level.value;
    }
    OtherArgumentsNeverQualify(rule, c);
    PicksTheOnlyCandidate(rule, ps, c.eventId, EventIdTy);
    PicksTheOnlyCandidate(rule, ps, c.exception, ExceptionTy);
  }

  /** The slot test picks up the event id and the exception the call was given. */
  predicate SlotsVisible(rule: ParameterRule, c: ExtensionCall) {
    && (c.eventId.Some? ==> Qualifies(rule, c.eventId.value.ty, EventIdTy))
    && (c.exception.Some? ==> Qualifies(rule, c.exception.value.ty, ExceptionTy))
  }

  /** The level, event id and exception the call was given are plain
      expressions, as the code under test writes them, not `It` matchers. */
  predicate PlainSlots(c: ExtensionCall) {
    && (c.level.Some? ==> !IsItCall(c.level.value))
    && (c.eventId.Some? ==> !IsItCall(c.eventId.value))
    && (c.exception.Some? ==> !IsItCall(c.exception.value))
  }

  /** The exception, if any, is an existing object (a captured variable, a
      field) rather than one created inside the lambda: a created one is a
      new object at each evaluation, and Moq compares exceptions by
      reference (see `FreshExceptionIsRefused`). */
  predicate ExistingException(c: ExtensionCall) {
    c.exception.Some? ==> !IsObjectCreation(c.exception.value)
  }

  /** Round trip: when the slot test sees the optional arguments, verifying
      a described call yields a matcher, and that matcher accepts the call
      running the same description records on the mock. */
  lemma RoundTrip(rule: ParameterRule, c: ExtensionCall, env: Env)
    requires IsOverload(c) && WithoutItLogic(c) && SlotsVisible(rule, c)
    requires PlainSlots(c) && ExistingException(c)
    ensures Translate(rule, Describe(c)).Ok?
    ensures Accepts(env, Translate(rule, Describe(c)).value, Perform(env, c))
  {
    if c.op.BeginScopeOperation? {
      DescribedCallShape(c);
      assert Translate(rule, Describe(c)) == TranslateBeginScope(Describe(c).body);
    } else {
      LogRoundTrip(rule, c, env);
    }
  }

  lemma LogRoundTrip(rule: ParameterRule, c: ExtensionCall, env: Env)
    requires IsOverload(c) && WithoutItLogic(c) && SlotsVisible(rule, c) && !c.op.BeginScopeOperation?
    requires PlainSlots(c)
    ensures Translate(rule, Describe(c)).Ok?
    ensures Accepts(env, Translate(rule, Describe(c)).value, Perform(env, c))
  {
    TranslateDescribedLog(rule, c);
    var inv := Perform(env, c);
    assert ExprAccepts(env, LevelExpression(c), inv.logLevel);
  }

  /** With the slot test that admits the type itself, every described
      overload call round-trips. */
  lemma CorrectedRoundTrip(c: ExtensionCall, env: Env)
    requires IsOverload(c) && WithoutItLogic(c) && PlainSlots(c) && ExistingException(c)
    ensures Translate(SameOrSubclass, Describe(c)).Ok?
    ensures Accepts(env, Translate(SameOrSubclass, Describe(c)).value, Perform(env, c))
  {
    RoundTrip(SameOrSubclass, c, env);
  }

  /** An exception created inside the lambda is evaluated twice: when the
      code under test logs it, and when Moq evaluates the matcher. The two
      evaluations give different objects, and Moq compares exceptions by
      reference, so the logged call is refused. */
  lemma FreshExceptionIsRefused(rule: ParameterRule, c: ExtensionCall, logged: Env, verified: Env)
    requires IsOverload(c) && WithoutItLogic(c) && !c.op.BeginScopeOperation?
    requires c.exception.Some? && IsObjectCreation(c.exception.value)
    requires Qualifies(rule, c.exception.value.ty, ExceptionTy)
    requires Evaluate(verified, c.exception.value) != Evaluate(logged, c.exception.value)
    ensures Translate(rule, Describe(c)).Ok?
    ensures !Accepts(verified, Translate(rule, Describe(c)).value, Perform(logged, c))
  {
    TranslateDescribedLog(rule, c);
  }

  /** With the source's strict test, a call round-trips when it has no event
      id and any exception it has is of a type derived from `Exception`. */
  lemma AsWrittenRoundTrip(c: ExtensionCall, env: Env)
    requires IsOverload(c) && WithoutItLogic(c) && PlainSlots(c) && ExistingException(c)
    requires c.eventId.None?
    requires c.exception.Some? ==> IsSubclassOf(c.exception.value.ty, ExceptionTy)
    ensures Translate(StrictSubclass, Describe(c)).Ok?
    ensures Accepts(env, Translate(StrictSubclass, Describe(c)).value, Perform(env, c))
  {
    RoundTrip(StrictSubclass, c, env);
  }

  /** With the source's strict test an event id argument is never picked up,
      `EventId` being a struct whose arguments are typed exactly `EventId`:
      the matcher demands event id 0, and a call made with any other event
      id is refused although it was made exactly as described. */
  lemma AsWrittenMissesEventId(c: ExtensionCall, env: Env)
    requires IsOverload(c) && WithoutItLogic(c) && !c.op.BeginScopeOperation?
    requires c.eventId.Some? && Evaluate(env, c.eventId.value) != EventIdValue(0)
    ensures Translate(StrictSubclass, Describe(c)).Ok?
    ensures !Accepts(env, Translate(StrictSubclass, Describe(c)).value, Perform(env, c))
  {
    SubclassIsIrreflexive(EventIdTy);
    TranslateDescribedLog(StrictSubclass, c);
  }

  /** With the source's strict test an exception argument typed exactly
      `Exception` is not picked up: the matcher demands a null exception,
      and the call made with that exception is refused. */
  lemma AsWrittenMissesException(c: ExtensionCall, env: Env)
    requires IsOverload(c) && WithoutItLogic(c) && !c.op.BeginScopeOperation?
    requires c.exception.Some? && c.exception.value.ty == ExceptionTy
    requires Evaluate(env, c.exception.value) != NullValue
    ensures Translate(StrictSubclass, Describe(c)).Ok?
    ensures !Accepts(env, Translate(StrictSubclass, Describe(c)).value, Perform(env, c))
  {
    SubclassIsIrreflexive(ExceptionTy);
    TranslateDescribedLog(StrictSubclass, c);
  }

  /** `l => l.LogWarning(new EventId(5), "Hello")`. */
  const WarningWithEventId: ExtensionCall :=
    ExtensionCall(LevelOperation(Warning), None, Some(Constant(EventIdTy, EventIdValue(5))), None,
                  Constant(StringTy, TextValue("Hello")), NewArrayInit(ObjectArrayTy, []))

  /** Performing that call and then verifying it, the code as written refuses it. */
  lemma WarningWithEventIdIsRefused(env: Env)
    ensures Translate(StrictSubclass, Describe(WarningWithEventId)).Ok?
    ensures !Accepts(env, Translate(StrictSubclass, Describe(WarningWithEventId)).value, Perform(env, WarningWithEventId))
  {
    var c := WarningWithEventId;
    assert !NoItLogicAllowedExpressionVisitor.WalkThrows(c.message) && !NoItLogicAllowedExpressionVisitor.WalkThrows(c.args);
    NoItLogicAllowedExpressionVisitor.WalkThrowsIffHasItCall(c.message);
    NoItLogicAllowedExpressionVisitor.WalkThrowsIffHasItCall(c.args);
    AsWrittenMissesEventId(c, env);
  }

  /** The matcher compares log states by rendered text only: a recorded call
      is accepted only if its state renders like the described one. */
  lemma AcceptedCallsRenderAlike(rule: ParameterRule, c: ExtensionCall, d: ExtensionCall, env: Env)
    requires IsOverload(c) && WithoutItLogic(c)
    requires Translate(rule, Describe(c)).Ok?
    requires Accepts(env, Translate(rule, Describe(c)).value, Perform(env, d))
    ensures env.render(Evaluate(env, c.message), Evaluate(env, c.args)) ==
            env.render(Evaluate(env, d.message), Evaluate(env, d.args))
  {
    if c.op.BeginScopeOperation? {
      ScopeCallsRenderAlike(rule, c, d, env);
    } else {
      LogCallsRenderAlike(rule, c, d, env);
    }
  }

  lemma ScopeCallsRenderAlike(rule: ParameterRule, c: ExtensionCall, d: ExtensionCall, env: Env)
    requires IsOverload(c) && WithoutItLogic(c) && c.op.BeginScopeOperation?
    requires Translate(rule, Describe(c)).Ok?
    requires Accepts(env, Translate(rule, Describe(c)).value, Perform(env, d))
    ensures env.render(Evaluate(env, c.message), Evaluate(env, c.args)) ==
            env.render(Evaluate(env, d.message), Evaluate(env, d.args))
  {
    DescribedCallShape(c);
    var call := Describe(c).body;
    assert Translate(rule, Describe(c)) == TranslateBeginScope(call);
    assert Perform(env, d).BeginScopeInvocation?;
  }

  lemma LogCallsRenderAlike(rule: ParameterRule, c: ExtensionCall, d: ExtensionCall, env: Env)
    requires IsOverload(c) && WithoutItLogic(c) && !c.op.BeginScopeOperation?
    requires Translate(rule, Describe(c)).Ok?
    requires Accepts(env, Translate(rule, Describe(c)).value, Perform(env, d))
    ensures env.render(Evaluate(env, c.message), Evaluate(env, c.args)) ==
            env.render(Evaluate(env, d.message), Evaluate(env, d.args))
  {
    TranslateDescribedLog(rule, c);
    var state := FormattedLogValuesHelpers.Create(c.message, c.args);
    var m := FormattedLogValuesHelpers.LogMatch(LevelExpression(c), Picked(rule, c.eventId, EventIdTy),
                                                state, Picked(rule, c.exception, ExceptionTy));
    assert Accepts(env, m, Perform(env, d));
    assert Perform(env, d).LogInvocation?;
  }

  /** `It.IsAny<LogLevel>()`. */
  const ItIsAnyLevel: Expr := MethodCall(LogLevelTy, MethodRef("IsAny", ItTy, false), None, [])

  /** `l => l.Log(It.IsAny<LogLevel>(), "Hello")`. */
  const LogAtAnyLevel: ExtensionCall :=
    ExtensionCall(LogOperation, Some(ItIsAnyLevel), None, None,
                  Constant(StringTy, TextValue("Hello")), NewArrayInit(ObjectArrayTy, []))

  /** The level of `Log` reaches Moq as written, so `It.IsAny<LogLevel>()`
      there is a wildcard: "Hello" logged at any level is accepted. */
  lemma AnyLevelIsAccepted(rule: ParameterRule, env: Env, level: LogLevel)
    ensures Translate(rule, Describe(LogAtAnyLevel)).Ok?
    ensures Accepts(env, Translate(rule, Describe(LogAtAnyLevel)).value,
                    LogInvocation(LevelValue(level), EventIdValue(0),
                                  FormattedState(TextValue("Hello"), Evaluate(env, LogAtAnyLevel.args)),
                                  NullValue, MessageFormatter))
  {
    var c := LogAtAnyLevel;
    assert !NoItLogicAllowedExpressionVisitor.WalkThrows(c.message) && !NoItLogicAllowedExpressionVisitor.WalkThrows(c.args);
    NoItLogicAllowedExpressionVisitor.WalkThrowsIffHasItCall(c.message);
    NoItLogicAllowedExpressionVisitor.WalkThrowsIffHasItCall(c.args);
    TranslateDescribedLog(rule, c);
  }
}
