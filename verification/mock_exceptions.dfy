/**
  Re-diagnosis of a failed verification: the test for Moq's
  "no matching calls" reason, the scan of the failure text for the observed
  call count, and the rebuilt failure naming the caller's own expression.
 */
module MockExceptionHelpers {
  import opened Wrappers
  import opened Expressions
  import opened Failures

  // The bits of Moq's `MockExceptionReasons` flags enum.
  const IncorrectNumberOfCalls: bv32 := 1
  const NoMatchingCallsReason: bv32 := 4
  const NoSetup: bv32 := 8
  const ReturnValueRequired: bv32 := 16
  const UnmatchedSetup: bv32 := 32
  const UnverifiedInvocations: bv32 := 64

  /** `IsNoMatchingCalls`: the failure's reasons include "no matching calls". */
  predicate IsNoMatchingCalls(e: MockFailure) {
    e.reasons & NoMatchingCallsReason == NoMatchingCallsReason
  }

  /** The flag test looks at the flag of value 4 alone: it holds exactly when that bit is
      set, and adding or removing any other reasons neither causes nor
      prevents it. */
  lemma NoMatchingCallsIsBitFour(reasons: bv32, other: bv32, message: string)
    requires other & NoMatchingCallsReason == 0
    ensures IsNoMatchingCalls(MockFailure(reasons, message)) <==> (reasons >> 2) & 1 == 1
    ensures IsNoMatchingCalls(MockFailure(reasons | other, message)) <==> IsNoMatchingCalls(MockFailure(reasons, message))
    ensures IsNoMatchingCalls(MockFailure(reasons & !other, message)) <==> IsNoMatchingCalls(MockFailure(reasons, message))
  {
  }

  // The pattern `, but was (?<CallCount>\d+) times`, as its literal parts.
  const CallCountPrefix: string := ", but was "
  const CallCountSuffix: string := " times"

  /** An ASCII decimal digit. */
  predicate IsDigit(c: char) {
    '0' <= c <= '9'
  }

  /** The regular expression matches `s` at position `i` with a digit group of
      length `k`: the prefix, one or more digits, the suffix. */
  ghost predicate RegexMatchesAt(s: string, i: int, k: int) {
    var j := i + |CallCountPrefix|;
    && 0 <= i
    && k >= 1
    && j + k + |CallCountSuffix| <= |s|
    && s[i..j] == CallCountPrefix
    && (forall d :: j <= d < j + k ==> IsDigit(s[d]))
    && s[j + k..j + k + |CallCountSuffix|] == CallCountSuffix
  }

  /** The match `Regex.Match` reports: the leftmost position that matches. */
  ghost predicate IsFirstRegexMatch(s: string, i: int, k: int) {
    RegexMatchesAt(s, i, k) && forall i', k' :: i' < i ==> !RegexMatchesAt(s, i', k')
  }

  /** The length of the run of digits starting at `j`. */
  function DigitRun(s: string, j: nat): (n: nat)
    requires j <= |s|
    ensures j + n <= |s|
    ensures forall d :: j <= d < j + n ==> IsDigit(s[d])
    ensures j + n < |s| ==> !IsDigit(s[j + n])
    decreases |s| - j
  {
    if j < |s| && IsDigit(s[j]) then 1 + DigitRun(s, j + 1) else 0
  }

  /** A run of `k` digits followed by a non-digit is exactly what `DigitRun` measures. */
  lemma {:induction false} DigitRunStops(s: string, j: nat, k: nat)
    requires j + k < |s| && !IsDigit(s[j + k])
    requires forall d :: j <= d < j + k ==> IsDigit(s[d])
    ensures DigitRun(s, j) == k
    decreases k
  {
    if k > 0 {
      DigitRunStops(s, j + 1, k - 1);
    }
  }

  /** The match test at one position, taking the whole run of digits as the
      group: the suffix starts with a non-digit, so no shorter group could
      be followed by it. */
  predicate MatchesAt(s: string, i: nat) {
    var j := i + |CallCountPrefix|;
    && j <= |s|
    && s[i..j] == CallCountPrefix
    && var k := DigitRun(s, j);
    && k >= 1
    && j + k + |CallCountSuffix| <= |s|
    && s[j + k..j + k + |CallCountSuffix|] == CallCountSuffix
  }

  /** Taking the whole run of digits loses no match and finds the only group
      length the regular expression can match with. */
  lemma MatchesAtIffRegex(s: string, i: nat)
    ensures MatchesAt(s, i) <==> exists k :: RegexMatchesAt(s, i, k)
    ensures forall k :: RegexMatchesAt(s, i, k) ==> k == DigitRun(s, i + |CallCountPrefix|)
  {
    var j := i + |CallCountPrefix|;
    forall k | RegexMatchesAt(s, i, k)
      ensures k == DigitRun(s, j)
    {
      assert s[j + k] == CallCountSuffix[0];
      DigitRunStops(s, j, k);
    }
    if MatchesAt(s, i) {
      assert RegexMatchesAt(s, i, DigitRun(s, j));
    }
  }

  /** The first position at or after `from` where the pattern matches. */
  function FirstMatch(s: string, from: nat): (r: Option<nat>)
    requires from <= |s|
    ensures r.None? ==> forall i :: from <= i <= |s| ==> !MatchesAt(s, i)
    ensures r.Some? ==> from <= r.value <= |s| && MatchesAt(s, r.value)
    ensures r.Some? ==> forall i :: from <= i < r.value ==> !MatchesAt(s, i)
    decreases |s| - from
  {
    if MatchesAt(s, from) then Some(from)
    else if from == |s| then None
    else FirstMatch(s, from + 1)
  }

  /** `ExtractCallCount.Match(message)`: the `CallCount` group of the leftmost
      match, or nothing when the pattern does not occur. */
  function CallCountGroup(message: string): (g: Option<string>)
    ensures g.None? <==> forall i, k :: !RegexMatchesAt(message, i, k)
    ensures g.Some? ==> exists i, k :: IsFirstRegexMatch(message, i, k) &&
                                       g.value == message[i + |CallCountPrefix|..i + |CallCountPrefix| + k]
  {
    var first := FirstMatch(message, 0);
    forall i, k | RegexMatchesAt(message, i, k)
      ensures first.Some? && first.value <= i
    {
      MatchesAtIffRegex(message, i);
    }
    match first
    case None => None
    case Some(i) =>
      var j := i + |CallCountPrefix|;
      var k := DigitRun(message, j);
      MatchesAtIffRegex(message, i);
      assert IsFirstRegexMatch(message, i, k) by {
        forall i', k' | 0 <= i' < i
          ensures !RegexMatchesAt(message, i', k')
        {
          MatchesAtIffRegex(message, i');
        }
      }
      Some(message[j..j + k])
  }

  /** The numeric value of an ASCII digit. */
  function DigitValue(c: char): nat {
    if IsDigit(c) then (c as int) - ('0' as int) else 0
  }

  /** The value of a string of decimal digits, most significant first. */
  function DecimalValue(ds: string): nat {
    if ds == [] then 0 else 10 * DecimalValue(ds[..|ds| - 1]) + DigitValue(ds[|ds| - 1])
  }

  /** The decimal text of `n`, as `int.ToString` writes it. */
  function DecimalText(n: nat): string {
    if n < 10 then [('0' as int + n) as char]
    else DecimalText(n / 10) + [('0' as int + n % 10) as char]
  }

  /** Decimal text is a non-empty run of digits that reads back as `n`. */
  lemma {:induction false} DecimalTextReadsBack(n: nat)
    ensures |DecimalText(n)| >= 1
    ensures forall d :: 0 <= d < |DecimalText(n)| ==> IsDigit(DecimalText(n)[d])
    ensures DecimalValue(DecimalText(n)) == n
  {
    var t := DecimalText(n);
    if n >= 10 {
      DecimalTextReadsBack(n / 10);
      assert t[..|t| - 1] == DecimalText(n / 10);
    }
  }

  // `int.MaxValue`.
  const Int32Max: int := 0x7fff_ffff

  /** `int.Parse(digits, CultureInfo.InvariantCulture)` on a run of ASCII
      digits: the value, or an overflow beyond `int.MaxValue`. */
  function ParseInt32(digits: string): Result<int, Failure> {
    var v := DecimalValue(digits);
    if v <= Int32Max then Ok(v) else Err(Overflow)
  }

  /** The call count `CreateNewException` passes on: the number in the first
      `, but was N times` of the message, 0 when the pattern does not occur. */
  function CallCount(message: string): (r: Result<int, Failure>)
    ensures (forall i, k :: !RegexMatchesAt(message, i, k)) ==> r == Ok(0)
    ensures forall i, k :: IsFirstRegexMatch(message, i, k) ==>
              var v := DecimalValue(message[i + |CallCountPrefix|..i + |CallCountPrefix| + k]);
              r == (if v <= Int32Max then Ok(v) else Err(Overflow))
    ensures r.Ok? ==> 0 <= r.value <= Int32Max
    ensures r.Err? ==> r.error == Overflow
  {
    assert forall i, k :: IsFirstRegexMatch(message, i, k) ==>
             CallCountGroup(message) == Some(message[i + |CallCountPrefix|..i + |CallCountPrefix| + k]) by {
      forall i, k | IsFirstRegexMatch(message, i, k)
        ensures CallCountGroup(message) == Some(message[i + |CallCountPrefix|..i + |CallCountPrefix| + k])
      {
        GroupOfFirstMatch(message, i, k);
      }
    }
    match CallCountGroup(message)
    case None => Ok(0)
    case Some(g) => ParseInt32(g)
  }

  /** A message that reports an observed count the way Moq does reads back as
      that count, whatever follows, provided no comma comes before it. */
  lemma CallCountReadsBack(prefix: string, n: nat, suffix: string)
    requires ',' !in prefix
    requires n <= Int32Max
    ensures CallCount(prefix + CallCountPrefix + DecimalText(n) + CallCountSuffix + suffix) == Ok(n)
  {
    var digits := DecimalText(n);
    DecimalTextReadsBack(n);
    var s := prefix + CallCountPrefix + digits + CallCountSuffix + suffix;
    ReportedCountIsFirstMatch(prefix, digits, suffix);
    ReportedDigitsSlice(prefix, CallCountPrefix, digits, CallCountSuffix, suffix);
    CountOfFirstMatch(s, |prefix|, digits);
  }

  /** The count is the value of the digits of the leftmost match. */
  lemma CountOfFirstMatch(s: string, i: int, digits: string)
    requires IsFirstRegexMatch(s, i, |digits|)
    requires s[i + |CallCountPrefix|..i + |CallCountPrefix| + |digits|] == digits
    requires DecimalValue(digits) <= Int32Max
    ensures CallCount(s) == Ok(DecimalValue(digits))
  {
  }

  /** The reported digits, cut back out of a message built as text before,
      the pattern's prefix, the digits, its suffix and text after. */
  lemma ReportedDigitsSlice<T>(a: seq<T>, b: seq<T>, c: seq<T>, d: seq<T>, e: seq<T>)
    ensures (a + b + c + d + e)[|a| + |b|..|a| + |b| + |c|] == c
  {
  }

  /** In such a message the pattern first matches where the report starts,
      with the reported digits as its group. */
  lemma ReportedCountIsFirstMatch(prefix: string, digits: string, suffix: string)
    requires ',' !in prefix
    requires |digits| >= 1 && forall d :: 0 <= d < |digits| ==> IsDigit(digits[d])
    ensures IsFirstRegexMatch(prefix + CallCountPrefix + digits + CallCountSuffix + suffix, |prefix|, |digits|)
  {
    var s := prefix + CallCountPrefix + digits + CallCountSuffix + suffix;
    var i := |prefix|;
    var j := i + |CallCountPrefix|;
    var k := |digits|;
    assert s[i..j] == CallCountPrefix;
    assert s[j..j + k] == digits;
    assert s[j + k..j + k + |CallCountSuffix|] == CallCountSuffix;
    assert RegexMatchesAt(s, i, k);
    forall i', k' | i' < i
      ensures !RegexMatchesAt(s, i', k')
    {
      if 0 <= i' {
        assert s[i'] == prefix[i'] != ',';
        assert s[i'..i' + |CallCountPrefix|][0] != CallCountPrefix[0];
      }
    }
  }

  /** The group `CallCountGroup` reports is the one of the leftmost match. */
  lemma GroupOfFirstMatch(s: string, i: int, k: int)
    requires IsFirstRegexMatch(s, i, k)
    ensures CallCountGroup(s) == Some(s[i + |CallCountPrefix|..i + |CallCountPrefix| + k])
  {
    var g := CallCountGroup(s);
    var i2, k2 :| IsFirstRegexMatch(s, i2, k2) && g.value == s[i2 + |CallCountPrefix|..i2 + |CallCountPrefix| + k2];
    assert i2 == i;
    MatchesAtIffRegex(s, i);
  }

  /** `CreateNewException`: the failure rebuilt around the caller's own
      expression, with the same times and fail message and the count read
      from the old failure's text (0 when the text reports none). Reading a
      count beyond `int.MaxValue` throws instead. */
  function CreateNewException(oldException: MockFailure, expression: Lambda, times: Times,
                              failMessage: Option<string>): (r: Result<Failure, Failure>)
    ensures r.Ok? <==> CallCount(oldException.message).Ok?
    ensures r.Ok? ==> r.value == NoMatchingCalls(expression, failMessage, times, CallCount(oldException.message).value)
    ensures forall i, k :: IsFirstRegexMatch(oldException.message, i, k) ==>
              var v := DecimalValue(oldException.message[i + |CallCountPrefix|..i + |CallCountPrefix| + k]);
              r == (if v <= Int32Max then Ok(NoMatchingCalls(expression, failMessage, times, v)) else Err(Overflow))
    ensures (forall i, k :: !RegexMatchesAt(oldException.message, i, k)) ==>
              r == Ok(NoMatchingCalls(expression, failMessage, times, 0))
    ensures r.Err? ==> r.error == Overflow
  {
    var callCount :- CallCount(oldException.message);
    Ok(NoMatchingCalls(expression, failMessage, times, callCount))
  }
}
