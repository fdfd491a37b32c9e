/** The exceptions the verification front end throws or lets through, as data. */
module Failures {
  import opened Wrappers
  import opened Expressions

  /** Moq's `Times`: the accepted range of matching-call counts. The front end
      only passes it on. */
  datatype Times = Times(from: nat, to: nat)

  /** A `MockException` as Moq's `Verify` raises it: the bit flags of its
      non-public `Reasons` property and its message text. */
  datatype MockFailure = MockFailure(reasons: bv32, message: string)

  datatype Failure =
    /** `ArgumentNullException` naming the missing parameter. */
    | ArgumentNull(paramName: string)
    /** `InvalidCastException`: the lambda body is not a method call. */
    | InvalidCast
    /** `NotSupportedException` with its message. */
    | NotSupported(message: string)
    /** `InvalidOperationException` with its message. */
    | InvalidOperation(message: string)
    /** `OverflowException` from `int.Parse` on the scanned call count. */
    | Overflow
    /** A `MockException` from Moq, passed through unchanged. */
    | MockFailed(failure: MockFailure)
    /** The `MockException` rebuilt through Moq's `NoMatchingCalls` factory
        around the caller's own expression. */
    | NoMatchingCalls(expression: Lambda, failMessage: Option<string>, times: Times, callCount: int)

  /** The message `Enumerable.First` throws with on an empty sequence. */
  const EmptySequenceMessage: string := "Sequence contains no elements"
}
