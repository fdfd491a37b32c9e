# Moq.Logger `VerifyExt`, modelled in Dafny

Moq.Logger lets a test check that a logging call was made on a mocked
`ILogger` by writing the call the way the code under test writes it, for
example `mock.VerifyExt(l => l.LogWarning("Hello {You}", "World"))`. The
logging extension methods are static, so Moq cannot intercept them. Each one
ends in `ILogger.Log<TState>(level, eventId, state, exception, formatter)` or
`ILogger.BeginScope<TState>(state)`. `VerifyExt` therefore translates the
described extension call into a matcher for that underlying call and lets
Moq verify it. It then turns Moq's "no matching calls" failure into one that
names the caller's expression.

This project models that front end:

- the null checks;
- refusing methods that are not extensions;
- routing by method name: `BeginScope`, names starting with `Log`, anything else;
- the fixed name-to-level table;
- picking the event id and exception arguments by their static type;
- refusing Moq `It` wildcards in the template and argument array, found by a tree walk;
- the five-position `Log` matcher and the one-position `BeginScope` matcher;
- the test for the "no matching calls" reason flag;
- the scan of Moq's failure text for `, but was N times`.

Modules follow the source files:

| module | file | models |
|---|---|---|
| `MockILoggerExtensions` | `mock_ilogger_extensions.dfy` | `VerifyExt` and its private helpers |
| `NoItLogicAllowedExpressionVisitor` | `no_it_logic.dfy` | the wildcard-refusing visitor |
| `FormattedLogValuesHelpers` | `formatted_log_values.dfy` | construction of the state and of the matchers |
| `MockExceptionHelpers` | `mock_exceptions.dfy` | reason flags, count scan, rebuilt failure |
| `Expressions` | `expressions.dfy` | static types with base classes, values, expression trees |
| `Matchers` | `matchers.dfy` | the matcher record and how Moq reads it (`Accepts`) |
| `Failures` | `failures.dfy` | the thrown exceptions as data |
| `LoggerExtensionsReference` | `logger_extensions_reference.dfy` | a described extension call, its expression tree, the `ILogger` call running it records, and the round trip between them |
| `Wrappers` | `wrappers.dfy` | `Option`, `Result`, `Outcome` |

Exceptions become `Result`/`Outcome` values.

Four things are parameters rather than definitions:

- Moq's `Verify` on the mock, a function stored in `MockLogger`;
- the values of non-constant expressions, in `Env.eval`;
- the rendering done by `FormattedLogValues.ToString`, in `Env.render`;
- how Moq reads an It matcher other than `It.IsAny`, in `Env.itMatches`.

The test on argument types is also a parameter of `Translate`, of type
`ParameterRule`. `StrictSubclass` is the source's `IsSubclassOf`, as
written. `SameOrSubclass` is the corrected test described under Findings,
and `VerifyExt` uses it.

## Model

| member | source | states |
|---|---|---|
| `MockILoggerExtensions.VerifyExt` | src/Moq.Logger/MockILoggerExtensions.cs:150-194 | A missing mock fails with ArgumentNullException("mock") whatever the expression. Otherwise a missing expression fails with ArgumentNullException("expression"). The call passes exactly when the translation succeeds and Moq's verify of the matcher passes. Translation uses the corrected same-or-subclass test (see Findings), and a translation failure is thrown as is. Once translation succeeds, the outcome is the exception handling's: Moq's pass, its failure without the no-matching-calls flag passed on unchanged, or, with the flag, the rebuilt failure. The rebuilt failure carries the caller's own expression, times and fail message and the count read from Moq's text, or is OverflowException |
| `MockILoggerExtensions.Translate` | src/Moq.Logger/MockILoggerExtensions.cs:163-193 | A body that is not a method call fails with InvalidCastException. Refusal with "Use Mock.Verify methods for non-extension methods." happens exactly when the method lacks the extension attribute, before any name routing. An extension neither named BeginScope nor starting with Log is refused with "The {name} extension method is not supported by VerifyExt." |
| `MockILoggerExtensions.TranslateBeginScope` | src/Moq.Logger/MockILoggerExtensions.cs:169-174 | Succeeds exactly when there are arguments and none of the last two holds It logic. When there are arguments, a failure is the It message naming the method. The resulting scope matcher accepts exactly the BeginScope calls whose state renders like the last two arguments (template, then arguments). No level is involved |
| `MockILoggerExtensions.TranslateLog` | src/Moq.Logger/MockILoggerExtensions.cs:175-189 | A Log-prefixed name missing from the table is refused with "The log extension method {name} is not supported by VerifyExt." whatever the arguments, so before the It check. For a known name, It logic in the last two arguments is refused. The matcher accepts only the level fixed by the name. For Log it accepts whatever the first argument after the receiver accepts: its value, or any level for `It.IsAny` |
| `MockILoggerExtensions.GetLogLevelExpressionFromMethodName` | src/Moq.Logger/MockILoggerExtensions.cs:210-215 | Yields the constant level for exactly the six level extension names, each bound to its own level. Yields no expression for exactly "Log". Any other name throws NotSupportedException naming it |
| `MockILoggerExtensions.CreateFormattedLogValues` | src/Moq.Logger/MockILoggerExtensions.cs:196-208 | Succeeds exactly when the last two arguments (all of them when fewer) are non-empty and free of It logic. When that list is non-empty, a failure is the It message naming the method. An empty list fails as `Enumerable.First` does. The state is built from the second-to-last argument as format and the last as parameters |
| `MockILoggerExtensions.GetExistingParameterExpression` | src/Moq.Logger/MockILoggerExtensions.cs:217-220 | The result is absent exactly when no argument passes the type test. Otherwise it is the first argument that passes |
| `MockILoggerExtensions.VerifyWithExceptionHandling` | src/Moq.Logger/MockILoggerExtensions.cs:222-235 | A pass returns normally. A failure without the no-matching-calls flag propagates unchanged. A failure with the flag is replaced by the rebuilt failure: the original expression, the same times and fail message, and the count read from the text. Reading the count throws OverflowException if the count exceeds int.MaxValue |
| `NoItLogicAllowedExpressionVisitor.Visit` | src/Moq.Logger/Internals/NoItLogicAllowedExpressionVisitor.cs:24-27 | Fails exactly when some expression of the list, not just the first, holds a call declared on It at any depth. The failure is InvalidOperationException("Moq It methods is not supported while verifying {methodName}."). On success the trees come back unaltered |
| `NoItLogicAllowedExpressionVisitor.WalkThrowsIffHasItCall` | src/Moq.Logger/Internals/NoItLogicAllowedExpressionVisitor.cs:34-42 | The recursive walk, which descends into non-It calls, throws exactly when some node reachable by a child path is a call declared on It |
| `NoItLogicAllowedExpressionVisitor.WalkListIffSomeThrows` | src/Moq.Logger/Internals/NoItLogicAllowedExpressionVisitor.cs:24-27 | Walking a list throws exactly when walking one of its members throws |
| `FormattedLogValuesHelpers.Create` | src/Moq.Logger/Internals/FormattedLogValuesHelpers.cs:26-29 | The expected state renders the format given first with the parameters given second |
| `FormattedLogValuesHelpers.Match` | src/Moq.Logger/Internals/FormattedLogValuesHelpers.cs:66-74 | The state matcher accepts a value exactly when it is a log state whose rendering equals the expected state's rendering |
| `FormattedLogValuesHelpers.LogMatch` | src/Moq.Logger/Internals/FormattedLogValuesHelpers.cs:52-64 | Accepts exactly the Log calls whose level the given level expression accepts and whose event id the given expression accepts (or is 0 when absent). The state must render like the expected one, and the exception must be accepted by the given expression (or be null when absent). An expression is accepted by value, except that an It call keeps Moq's matcher reading, so `It.IsAny` accepts anything. The formatter is never constrained |
| `FormattedLogValuesHelpers.BeginScopeMatch` | src/Moq.Logger/Internals/FormattedLogValuesHelpers.cs:38-43 | Accepts exactly the BeginScope calls whose state renders like the expected one |
| `FormattedLogValuesHelpers.RenderingDecidesStateMatch` | src/Moq.Logger/Internals/FormattedLogValuesHelpers.cs:70-71 | Two recorded states with equal renderings are accepted or refused together |
| `MockExceptionHelpers.NoMatchingCallsIsBitFour` | src/Moq.Logger/Internals/MockExceptionHelpers.cs:50-53 | The flag test holds exactly when the flag of value 4 (bit 2) is set. Adding or clearing any other bits (1, 8, 16, 32, 64, ...) neither causes nor prevents it |
| `MockExceptionHelpers.DigitRun` | src/Moq.Logger/Internals/MockExceptionHelpers.cs:20 | The run of `\d` in the pattern: the returned length covers only digits and stops at a non-digit or the end |
| `MockExceptionHelpers.MatchesAtIffRegex` | src/Moq.Logger/Internals/MockExceptionHelpers.cs:20 | Testing one position with the maximal digit run finds a match exactly when the regular expression matches there. The group length the regular expression can use is unique |
| `MockExceptionHelpers.FirstMatch` | src/Moq.Logger/Internals/MockExceptionHelpers.cs:36 | The result is the leftmost matching position at or after the start, or absent when no position matches |
| `MockExceptionHelpers.CallCountGroup` | src/Moq.Logger/Internals/MockExceptionHelpers.cs:36 | The CallCount group is absent exactly when the pattern never matches. Otherwise it is the digit group of the leftmost match |
| `MockExceptionHelpers.CallCount` | src/Moq.Logger/Internals/MockExceptionHelpers.cs:36-40 | The count is 0 when the pattern does not occur. Otherwise it is the decimal value of the digits of the leftmost match, with OverflowException exactly when that value exceeds int.MaxValue |
| `MockExceptionHelpers.CallCountReadsBack` | src/Moq.Logger/Internals/MockExceptionHelpers.cs:36-40 | A message that reports ", but was N times" with no comma before it reads back as N, whatever follows |
| `MockExceptionHelpers.DecimalTextReadsBack` | src/Moq.Logger/Internals/MockExceptionHelpers.cs:39 | A count's decimal text is a non-empty run of digits that parses back to the count |
| `MockExceptionHelpers.CreateNewException` | src/Moq.Logger/Internals/MockExceptionHelpers.cs:33-43 | The rebuilt failure keeps the given expression, times and fail message, with the count read from the old failure's text. The count is the value of the leftmost match's digits, or 0 when the pattern does not occur. It fails with OverflowException exactly when that reading fails |
| `Expressions.SubclassIsIrreflexive` | src/Moq.Logger/MockILoggerExtensions.cs:219 | IsSubclassOf is strict: no type is a subclass of itself |
| `Expressions.ExceptionIsNeverEventId` | src/Moq.Logger/MockILoggerExtensions.cs:182-184 | No type is both an exception and an event id, so the two slots never take the same argument |
| `LoggerExtensionsReference.TranslateDescribedLog` | src/Moq.Logger/MockILoggerExtensions.cs:179-187 | A described log call becomes the log matcher for its level, the event id and exception the type test picks up, and the state of its template and arguments |
| `LoggerExtensionsReference.RoundTrip` | src/Moq.Logger/MockILoggerExtensions.cs:169-189 | Take a described call whose level, event id and exception are plain expressions, not It calls, whose exception is not created inside the lambda, and whose optional arguments the type test sees. Verifying it gives a matcher that accepts the call recorded by running the same description |
| `LoggerExtensionsReference.AsWrittenRoundTrip` | src/Moq.Logger/MockILoggerExtensions.cs:182-184 | With the source's strict test, calls with plain slots and no event id round-trip, provided any exception has a type derived from Exception and is not created inside the lambda |
| `LoggerExtensionsReference.AsWrittenMissesEventId` | src/Moq.Logger/MockILoggerExtensions.cs:182 | With the strict test, a call made with a non-zero event id is refused by the matcher built from its own description |
| `LoggerExtensionsReference.AsWrittenMissesException` | src/Moq.Logger/MockILoggerExtensions.cs:184 | With the strict test, a call made with a non-null argument typed exactly Exception is refused by the matcher built from its own description |
| `LoggerExtensionsReference.WarningWithEventIdIsRefused` | src/Moq.Logger/MockILoggerExtensions.cs:182 | `l.LogWarning(new EventId(5), "Hello")`, once performed, is not accepted by the matcher built from its own description |
| `LoggerExtensionsReference.CorrectedRoundTrip` | src/Moq.Logger/MockILoggerExtensions.cs:217-220 | With a test that admits the type itself, every overload-shaped call round-trips, provided it has no It logic and its exception is not created inside the lambda |
| `LoggerExtensionsReference.FreshExceptionIsRefused` | src/Moq.Logger/MockILoggerExtensions.cs:184-186 | The exception expression reaches the matcher as written and is evaluated again at verification. When it creates a new object, a different one from the logged object, the logged call is refused |
| `LoggerExtensionsReference.AnyLevelIsAccepted` | src/Moq.Logger/MockILoggerExtensions.cs:181 | `l => l.Log(It.IsAny<LogLevel>(), "Hello")` translates, and its matcher accepts "Hello" logged at every level |
| `LoggerExtensionsReference.AcceptedCallsRenderAlike` | src/Moq.Logger/Internals/FormattedLogValuesHelpers.cs:70-71 | A recorded call is accepted only if its template and arguments render to the same text as the described ones |

## Left out

- The `VerifyExt` overloads at src/Moq.Logger/MockILoggerExtensions.cs:48-137 only default `times` to at-least-once and `failMessage` to null, so they are not modelled.
- Moq's `Verify`, the recording of invocations and the meaning of `Times` are external. They are an uninterpreted function in `MockLogger`.
- The message layout Moq's non-public `NoMatchingCalls` factory writes is not modelled. The rebuilt failure is a record of its inputs: expression, times, fail message and count. The reason flags Moq gives the rebuilt exception are not modelled either.
- `FormattedLogValues.ToString` (template interpolation) is an uninterpreted, deterministic `render` function.
- The values of captured variables and other non-constant expressions are an uninterpreted `eval` function.
- The argument-type checks that `Expression.Call` and `Expression.New` make while building the matcher are not modelled. With them, an ill-typed custom extension named like a logging method would throw ArgumentException. The model builds the matcher regardless.
- The lambda parameter the matcher reuses (`expression.Parameters.Single()`) is not modelled. An `Expression<Action<TLogger>>` always has exactly one.
- The reflection lookups in src/Moq.Logger/Internals/LoggerHelpers.cs, src/Moq.Logger/Internals/ItHelpers.cs and src/Moq.Logger/Reflection/*.cs are not modelled. They locate methods and types and have no behaviour of their own.
- `\d` in .NET also matches non-ASCII decimal digits, and `int.Parse` rejects those. The model's scan only recognises ASCII 0-9.
- `LogLevel.None` and the name part of an `EventId` are not modelled. `EventId` equality compares the id only.
- `Ty` cannot express that a struct is sealed. `LoggerExtensionsReference.IsOverload` instead requires an event id argument to be typed exactly `EventId`.
- `MockILoggerExtensions.VerifyExt`: picks the event id and exception with the corrected same-or-subclass test, not the source's strict `IsSubclassOf`. `Translate(StrictSubclass, _)` keeps the code as written. See Findings.
- `LoggerExtensionsReference.RoundTrip`: requires that the exception is not created inside the lambda (`new SomeException(...)`). Such an expression yields a new object each time it is evaluated, and Moq compares exceptions by reference, so the program refuses those calls. `FreshExceptionIsRefused` states that refusal. The model's evaluation is otherwise deterministic: a captured variable has the same value when logged and when verified.
- Moq reads only a top-level It call in a slot as a matcher in this model. An It call nested in another node, such as a conversion, is evaluated as a plain value. It methods other than `It.IsAny` are left to an uninterpreted `Env.itMatches`.
- `MockILoggerExtensions.TranslateLog`: its own contract states only the level. For described logging calls, `LoggerExtensionsReference.TranslateDescribedLog` states the whole matcher.

## Findings

| source | as written | input that shows it | evidently intended | confidence | as-written member | corrected member |
|---|---|---|---|---|---|---|
| src/Moq.Logger/MockILoggerExtensions.cs:182 | The event id is the first argument whose type `IsSubclassOf(typeof(EventId))`. `EventId` is a struct, so every event id argument is typed exactly `EventId` and none is a strict subclass. The matcher then demands event id 0 | The mock logged `LogWarning(new EventId(5), "Hello")`, then `VerifyExt(l => l.LogWarning(new EventId(5), "Hello"))` is called | The argument's type is `EventId` or derives from it, so the event id given is matched | medium; not executed | `LoggerExtensionsReference.AsWrittenMissesEventId` | `LoggerExtensionsReference.CorrectedRoundTrip` |
| src/Moq.Logger/MockILoggerExtensions.cs:184 | The exception is the first argument whose type `IsSubclassOf(typeof(Exception))`. An argument declared exactly as `Exception` is skipped, and the matcher then demands a null exception | `catch (Exception ex) { logger.LogError(ex, "Failed"); }`, then `VerifyExt(l => l.LogError(ex, "Failed"))` is called | The argument's type is `Exception` or derives from it | medium; not executed | `LoggerExtensionsReference.AsWrittenMissesException` | `LoggerExtensionsReference.CorrectedRoundTrip` |

For both rows, `MockILoggerExtensions.Translate` takes the type test as a
parameter. With `StrictSubclass` it is the code as written, and the
as-written lemmas use that form. `MockILoggerExtensions.VerifyExt` uses
`SameOrSubclass`. `LoggerExtensionsReference.CorrectedRoundTrip` proves the
round trip for that test on every overload-shaped call.
