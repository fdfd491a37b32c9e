/**
  `VerifyExt`: checks that a logger extension call such as
  `l => l.LogWarning("Hello {You}", "World")` was made on a mock logger by
  translating it into a matcher for the `ILogger` method the extension calls,
  handing that to Moq, and rebuilding a "no matching calls" failure around
  the caller's own expression.
 */
module MockILoggerExtensions {
  import opened Wrappers
  import opened Expressions
  import opened Failures
  import opened Matchers
  import NoItLogicAllowedExpressionVisitor
  import FormattedLogValuesHelpers
  import MockExceptionHelpers

  /** A mock logger. Its `Verify` is Moq's: the model does not interpret it. */
  datatype MockLogger = MockLogger(verify: (Matcher, Times, Option<string>) -> Outcome<MockFailure>)

  /** The name of the logging extension that logs at `level`. */
  function LevelMethodName(level: LogLevel): string {
    match level
    case Trace => "LogTrace"
    case Debug => "LogDebug"
    case Information => "LogInformation"
    case Warning => "LogWarning"
    case Error => "LogError"
    case Critical => "LogCritical"
  }

  /** `LogMethodToLogLevel`: the six level extensions with their fixed level,
      and `Log`, whose level is its first argument. */
  const LogMethodToLogLevel: map<string, Option<LogLevel>> := map[
    "LogTrace" := Some(Trace),
    "LogDebug" := Some(Debug),
    "LogInformation" := Some(Information),
    "LogWarning" := Some(Warning),
    "LogError" := Some(Error),
    "LogCritical" := Some(Critical),
    "Log" := None
  ]

  /** The expression `Expression.Constant(level)`. */
  function LevelConstant(level: LogLevel): Expr {
    Constant(LogLevelTy, LevelValue(level))
  }

  const NonExtensionMessage: string := "Use Mock.Verify methods for non-extension methods."

  function UnsupportedLogMethodMessage(methodName: string): string {
    "The log extension method " + methodName + " is not supported by VerifyExt."
  }

  function UnsupportedExtensionMessage(methodName: string): string {
    "The " + methodName + " extension method is not supported by VerifyExt."
  }

  /** The two "not supported" messages that name a method never read like
      the one that refuses a non-extension method. */
  lemma MessagesDiffer(methodName: string)
    ensures UnsupportedLogMethodMessage(methodName) != NonExtensionMessage
    ensures UnsupportedExtensionMessage(methodName) != NonExtensionMessage
  {
    assert NonExtensionMessage == "Use Mock.Verify methods for non-extension methods.";
    assert UnsupportedLogMethodMessage(methodName)[0] == 'T';
    assert UnsupportedExtensionMessage(methodName)[0] == 'T';
  }

  /** `GetLogLevelExpressionFromMethodName`: a level constant for the six
      level extensions, no expression for `Log`, and a refusal for any other
      name. */
  function GetLogLevelExpressionFromMethodName(methodName: string): (r: Result<Option<Expr>, Failure>)
    ensures forall level: LogLevel :: r == Ok(Some(LevelConstant(level))) <==> methodName == LevelMethodName(level)
    ensures r == Ok(None) <==> methodName == "Log"
    ensures r.Err? <==> methodName !in LogMethodToLogLevel
    ensures r.Err? ==> r.error == NotSupported(UnsupportedLogMethodMessage(methodName))
  {
    if methodName in LogMethodToLogLevel then
      match LogMethodToLogLevel[methodName]
      case Some(level) => Ok(Some(LevelConstant(level)))
      case None => Ok(None)
    else Err(NotSupported(UnsupportedLogMethodMessage(methodName)))
  }

  /** `Enumerable.Skip(n)`: everything after the first `n`; all of `xs` when
      `n` is not positive. */
  function Skip(xs: seq<Expr>, n: int): seq<Expr> {
    if n <= 0 then xs else if n >= |xs| then [] else xs[n..]
  }

  /** `Enumerable.First`. */
  function First(xs: seq<Expr>): Result<Expr, Failure> {
    if xs == [] then Err(InvalidOperation(EmptySequenceMessage)) else Ok(xs[0])
  }

  /** The arguments after the receiver. */
  function ParametersOf(call: Expr): seq<Expr>
    requires call.MethodCall?
  {
    Skip(call.arguments, 1)
  }

  /** The last two arguments, the message template and the argument array;
      all arguments when there are fewer than two. */
  function FormattedLogArguments(call: Expr): seq<Expr>
    requires call.MethodCall?
  {
    Skip(call.arguments, |call.arguments| - 2)
  }

  /** `CreateFormattedLogValues`: refuses `It` logic in the last two
      arguments, then builds the expected state from the second-to-last
      argument as template and the last one as arguments (the only argument
      serving as both when there is one). */
  function CreateFormattedLogValues(call: Expr): (r: Result<StateExpr, Failure>)
    requires call.MethodCall?
    ensures var fa := FormattedLogArguments(call);
            r.Ok? <==> fa != [] && forall i :: 0 <= i < |fa| ==> !NoItLogicAllowedExpressionVisitor.HasItCall(fa[i])
    ensures var args := call.arguments;
            r.Ok? ==> |args| >= 1 && r.value == FormattedLogValuesHelpers.Create(args[if |args| >= 2 then |args| - 2 else 0], args[|args| - 1])
    ensures r.Err? && FormattedLogArguments(call) != [] ==>
            r.error == InvalidOperation(NoItLogicAllowedExpressionVisitor.ItNotSupportedMessage(call.target.name))
    ensures FormattedLogArguments(call) == [] ==> r == Err(InvalidOperation(EmptySequenceMessage))
  {
    var formattedLogArguments := FormattedLogArguments(call);
    var _ :- NoItLogicAllowedExpressionVisitor.Visit(call.target.name, formattedLogArguments);
    var format :- First(formattedLogArguments);
    // `Last` cannot throw once `First` has not.
    Ok(FormattedLogValuesHelpers.Create(format, formattedLogArguments[|formattedLogArguments| - 1]))
  }

  /** How an argument's static type is tested against EventId or Exception:
      the source's `IsSubclassOf`, or the test it evidently means. */
  datatype ParameterRule = StrictSubclass | SameOrSubclass

  predicate Qualifies(rule: ParameterRule, t: Ty, target: Ty) {
    match rule
    case StrictSubclass => IsSubclassOf(t, target)
    case SameOrSubclass => IsSameOrSubclassOf(t, target)
  }

  /** `GetExistingParameterExpression`: the first argument whose static type
      passes the test, or none when no argument does. */
  function GetExistingParameterExpression(rule: ParameterRule, parameters: seq<Expr>, target: Ty): (r: Option<Expr>)
    ensures r.None? <==> forall i :: 0 <= i < |parameters| ==> !Qualifies(rule, parameters[i].ty, target)
    ensures r.Some? ==> exists i :: 0 <= i < |parameters| && parameters[i] == r.value &&
                                    Qualifies(rule, parameters[i].ty, target) &&
                                    forall j :: 0 <= j < i ==> !Qualifies(rule, parameters[j].ty, target)
  {
    if parameters == [] then None
    else if Qualifies(rule, parameters[0].ty, target) then Some(parameters[0])
    else
      var r := GetExistingParameterExpression(rule, parameters[1..], target);
      assert forall i :: 1 <= i < |parameters| ==> parameters[i] == parameters[1..][i - 1];
      r
  }

  /** The levels a log matcher accepts, read from the name of the verified
      extension: the fixed level for the six level extensions; for `Log`,
      whatever its first argument after the receiver accepts (its value, or
      anything for `It.IsAny<LogLevel>()`). */
  predicate LevelAccepted(env: Env, name: string, arguments: seq<Expr>, v: Value)
    requires name in LogMethodToLogLevel
    requires name == "Log" ==> |arguments| >= 2
  {
    match LogMethodToLogLevel[name]
    case Some(level) => v == LevelValue(level)
    case None => ExprAccepts(env, arguments[1], v)
  }

  /** Some argument among the last two holds `It` logic. */
  ghost predicate ItInFormattedLogArguments(call: Expr)
    requires call.MethodCall?
  {
    var fa := FormattedLogArguments(call);
    exists i :: 0 <= i < |fa| && NoItLogicAllowedExpressionVisitor.HasItCall(fa[i])
  }

  /** The `BeginScope` branch: a scope matcher accepting exactly the scopes
      whose state renders like the template and arguments the call was given
      last. No level is looked up. */
  function TranslateBeginScope(call: Expr): (r: Result<Matcher, Failure>)
    requires call.MethodCall?
    ensures r.Ok? <==> call.arguments != [] && !ItInFormattedLogArguments(call)
    ensures r.Err? && call.arguments != [] ==>
            r.error == InvalidOperation(NoItLogicAllowedExpressionVisitor.ItNotSupportedMessage(call.target.name))
    ensures r.Ok? ==>
            var args := call.arguments;
            forall env: Env, inv: Invocation :: Accepts(env, r.value, inv) <==>
              inv.BeginScopeInvocation? &&
              SameRendering(env, FormattedLogValuesHelpers.Create(args[if |args| >= 2 then |args| - 2 else 0], args[|args| - 1]), inv.scopeState)
  {
    var state :- CreateFormattedLogValues(call);
    Ok(FormattedLogValuesHelpers.BeginScopeMatch(state))
  }

  /** The branch for names starting with `Log`: an unknown such name is
      refused before the arguments are looked at; otherwise the level comes
      from the name (or the first argument for `Log`), the event id and the
      exception from the first arguments of a qualifying type, and the state
      from the last two arguments. */
  function TranslateLog(rule: ParameterRule, call: Expr): (r: Result<Matcher, Failure>)
    requires call.MethodCall?
    ensures call.target.name !in LogMethodToLogLevel ==>
            r == Err(NotSupported(UnsupportedLogMethodMessage(call.target.name)))
    ensures call.target.name in LogMethodToLogLevel && |call.arguments| >= 2 && ItInFormattedLogArguments(call) ==>
            r == Err(InvalidOperation(NoItLogicAllowedExpressionVisitor.ItNotSupportedMessage(call.target.name)))
    ensures r.Err? ==> r.error.NotSupported? || r.error.InvalidOperation?
    ensures r.Ok? ==>
            && r.value.LogMatcher?
            && call.target.name in LogMethodToLogLevel
            && (call.target.name == "Log" ==> |call.arguments| >= 2)
            && forall env: Env, inv: Invocation :: Accepts(env, r.value, inv) ==>
                 LevelAccepted(env, call.target.name, call.arguments, inv.logLevel)
  {
    var name := call.target.name;
    var parameters := ParametersOf(call);
    var levelExpression :- GetLogLevelExpressionFromMethodName(name);
    var logLevel :- if levelExpression.Some? then Ok(levelExpression.value) else First(parameters);
    var eventId := GetExistingParameterExpression(rule, parameters, EventIdTy);
    var state :- CreateFormattedLogValues(call);
    var exception := GetExistingParameterExpression(rule, parameters, ExceptionTy);
    Ok(FormattedLogValuesHelpers.LogMatch(logLevel, eventId, state, exception))
  }

  /** The front end of `VerifyExt` with the slot test as a parameter: the
      matcher for the verified extension call, or the exception it throws.
      A body that is not a call and a method that is not an extension are
      refused before anything else; then the name decides. */
  function Translate(rule: ParameterRule, expression: Lambda): (r: Result<Matcher, Failure>)
    ensures r == Err(InvalidCast) <==> !expression.body.MethodCall?
    ensures r == Err(NotSupported(NonExtensionMessage)) <==>
            expression.body.MethodCall? && !expression.body.target.isExtension
    ensures var call := expression.body;
            call.MethodCall? && call.target.isExtension && call.target.name != "BeginScope" &&
            !StartsWith(call.target.name, "Log") ==>
            r == Err(NotSupported(UnsupportedExtensionMessage(call.target.name)))
    ensures var call := expression.body;
            call.MethodCall? && call.target.isExtension ==>
            r == (if call.target.name == "BeginScope" then TranslateBeginScope(call)
                  else if StartsWith(call.target.name, "Log") then TranslateLog(rule, call)
                  else Err(NotSupported(UnsupportedExtensionMessage(call.target.name))))
  {
    if !expression.body.MethodCall? then Err(InvalidCast)
    else
      var call := expression.body;
      var name := call.target.name;
      MessagesDiffer(name);
      if !call.target.isExtension then Err(NotSupported(NonExtensionMessage))
      else if name == "BeginScope" then TranslateBeginScope(call)
      else if StartsWith(name, "Log") then TranslateLog(rule, call)
      else Err(NotSupported(UnsupportedExtensionMessage(name)))
  }

  /** `VerifyWithExceptionHandling`: Moq's verdict, except that a failure
      whose reasons include "no matching calls" is rebuilt around the
      caller's original expression with the count read from its text. */
  function VerifyWithExceptionHandling(mock: MockLogger, matcher: Matcher, times: Times,
                                       failMessage: Option<string>, originalExpression: Lambda): (r: Outcome<Failure>)
    ensures mock.verify(matcher, times, failMessage) == Pass ==> r == Pass
    ensures var v := mock.verify(matcher, times, failMessage);
            v.Fail? && !MockExceptionHelpers.IsNoMatchingCalls(v.error) ==> r == Fail(MockFailed(v.error))
    ensures var v := mock.verify(matcher, times, failMessage);
            v.Fail? && MockExceptionHelpers.IsNoMatchingCalls(v.error) ==>
            r.Fail? && match MockExceptionHelpers.CallCount(v.error.message)
                       case Ok(n) => r.error == NoMatchingCalls(originalExpression, failMessage, times, n)
                       case Err(_) => r.error == Overflow
  {
    match mock.verify(matcher, times, failMessage)
    case Pass => Pass
    case Fail(e) =>
      if MockExceptionHelpers.IsNoMatchingCalls(e) then
        match MockExceptionHelpers.CreateNewException(e, originalExpression, times, failMessage)
        case Ok(rebuilt) => Fail(rebuilt)
        case Err(thrown) => Fail(thrown)
      else Fail(MockFailed(e))
  }

  /** `VerifyExt(mock, expression, times, failMessage)`: the null checks, in
      order, then the translation, then Moq's verdict with failure rewriting.
      The event id and exception are picked with the same-or-subclass test;
      the source's strict test is `Translate(StrictSubclass, _)`. */
  function VerifyExt(mock: Option<MockLogger>, expression: Option<Lambda>, times: Times,
                     failMessage: Option<string>): (r: Outcome<Failure>)
    ensures mock.None? ==> r == Fail(ArgumentNull("mock"))
    ensures mock.Some? && expression.None? ==> r == Fail(ArgumentNull("expression"))
    ensures r == Pass <==>
            && mock.Some? && expression.Some?
            && Translate(SameOrSubclass, expression.value).Ok?
            && mock.value.verify(Translate(SameOrSubclass, expression.value).value, times, failMessage) == Pass
    ensures mock.Some? && expression.Some? && Translate(SameOrSubclass, expression.value).Err? ==>
            r == Fail(Translate(SameOrSubclass, expression.value).error)
    ensures r.Fail? && r.error.NoMatchingCalls? ==>
            && expression.Some?
            && r.error.expression == expression.value
            && r.error.times == times
            && r.error.failMessage == failMessage
    ensures mock.Some? && expression.Some? && Translate(SameOrSubclass, expression.value).Ok? ==>
            r == VerifyWithExceptionHandling(mock.value, Translate(SameOrSubclass, expression.value).value,
                                             times, failMessage, expression.value)
    ensures mock.Some? && expression.Some? && Translate(SameOrSubclass, expression.value).Ok? ==>
            var v := mock.value.verify(Translate(SameOrSubclass, expression.value).value, times, failMessage);
            v.Fail? && !MockExceptionHelpers.IsNoMatchingCalls(v.error) ==> r == Fail(MockFailed(v.error))
    ensures mock.Some? && expression.Some? && Translate(SameOrSubclass, expression.value).Ok? ==>
            var v := mock.value.verify(Translate(SameOrSubclass, expression.value).value, times, failMessage);
            v.Fail? && MockExceptionHelpers.IsNoMatchingCalls(v.error) ==>
            r == match MockExceptionHelpers.CallCount(v.error.message)
                 case Ok(n) => Fail(NoMatchingCalls(expression.value, failMessage, times, n))
                 case Err(_) => Fail(Overflow)
  {
    if mock.None? then Fail(ArgumentNull("mock"))
    else if expression.None? then Fail(ArgumentNull("expression"))
    else
      match Translate(SameOrSubclass, expression.value)
      case Err(e) => Fail(e)
      case Ok(matcher) => VerifyWithExceptionHandling(mock.value, matcher, times, failMessage, expression.value)
  }
}
