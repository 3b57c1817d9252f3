/** Retrying with exponential backoff (src/utils/retry.py). The retried
    call is a function from the attempt number to its outcome, and the sleeps
    are returned as a trace instead of being taken. */
module Retry {
  import opened Wrappers
  import opened Text

  // ---------------------------------------------------------------------
  // parse_retry_delay

  /** A character of the class `[\d.]`. */
  predicate IsNumberChar(c: char) { IsDigit(c) || c == '.' }

  /** The end of the greedy `[\d.]+` run that starts at `i`. */
  function NumberRunEnd(s: string, i: nat): (e: nat)
    requires i <= |s|
    decreases |s| - i
    ensures i <= e <= |s|
    ensures forall k :: i <= k < e ==> IsNumberChar(s[k])
    ensures e == |s| || !IsNumberChar(s[e])
  {
    if i < |s| && IsNumberChar(s[i]) then NumberRunEnd(s, i + 1) else i
  }

  const RetryIn: string := "retry in "
  const RetryAfter: string := "retry after "

  /** `retry in ([\d.]+)s?` matches at `p` (case-insensitively); the trailing `s?` never fails. */
  predicate RetryInAt(s: string, p: nat) {
    ContainsAt(Lower(s), RetryIn, p) && p + |RetryIn| < |s| && IsNumberChar(s[p + |RetryIn|])
  }

  /** `retry after ([\d.]+)\s*seconds?` matches at `p` (case-insensitively).
      Neither `[\d.]+` nor `\s*` can give back characters to let the rest
      match, so both take their greedy runs. */
  predicate RetryAfterAt(s: string, p: nat) {
    && ContainsAt(Lower(s), RetryAfter, p)
    && p + |RetryAfter| < |s| && IsNumberChar(s[p + |RetryAfter|])
    && ContainsAt(Lower(s), "second", SpaceRunEnd(s, NumberRunEnd(s, p + |RetryAfter|)))
  }

  /** `re.search` for the first pattern: the leftmost match at or after `from`. */
  function FirstRetryIn(s: string, from: nat): (r: Option<nat>)
    decreases |s| - from
    ensures r.Some? ==> from <= r.value && RetryInAt(s, r.value)
    ensures r.Some? ==> forall p :: from <= p < r.value ==> !RetryInAt(s, p)
    ensures r.None? ==> forall p :: from <= p ==> !RetryInAt(s, p)
  {
    if from >= |s| then None
    else if RetryInAt(s, from) then Some(from)
    else FirstRetryIn(s, from + 1)
  }

  /** `re.search` for the second pattern. */
  function FirstRetryAfter(s: string, from: nat): (r: Option<nat>)
    decreases |s| - from
    ensures r.Some? ==> from <= r.value && RetryAfterAt(s, r.value)
    ensures r.Some? ==> forall p :: from <= p < r.value ==> !RetryAfterAt(s, p)
    ensures r.None? ==> forall p :: from <= p ==> !RetryAfterAt(s, p)
  {
    if from >= |s| then None
    else if RetryAfterAt(s, from) then Some(from)
    else FirstRetryAfter(s, from + 1)
  }

  function Pow10(n: nat): (r: nat)
    ensures r > 0
  {
    if n == 0 then 1 else 10 * Pow10(n - 1)
  }

  /** The first '.' of `s`, if any. */
  function DotIndex(s: string): (r: Option<nat>)
    ensures r.Some? ==> r.value < |s| && s[r.value] == '.' && forall k :: 0 <= k < r.value ==> s[k] != '.'
    ensures r.None? ==> forall k :: 0 <= k < |s| ==> s[k] != '.'
  {
    if s == [] then None
    else if s[0] == '.' then Some(0)
    else match DotIndex(s[1..])
      case None => None
      case Some(k) => Some(k + 1)
  }

  /** Python's `float` of a `[\d.]+` text: digits with at most one point and
      at least one digit; anything else raises ValueError. */
  function ParseFloat(t: string): (r: Result<real>)
    ensures r.Success? ==> r.value >= 0.0
  {
    var error := Failure("could not convert string to float: '" + t + "'");
    match DotIndex(t)
    case None =>
      if t != [] && AllDigits(t) then Success(DecimalValue(t) as real) else error
    case Some(k) =>
      var whole, fraction := t[..k], t[k + 1..];
      if AllDigits(whole) && AllDigits(fraction) && |whole| + |fraction| > 0 then
        Success(DecimalValue(whole) as real + Fraction(fraction))
      else error
  }

  /** The value of the digits after a decimal point. */
  function Fraction(f: string): (r: real)
    requires AllDigits(f)
    ensures 0.0 <= r < 1.0
  {
    DecimalBelowPow10(f);
    QuotientBelowOne(DecimalValue(f) as real, Pow10(|f|) as real);
    DecimalValue(f) as real / Pow10(|f|) as real
  }

  lemma QuotientBelowOne(a: real, b: real)
    requires 0.0 <= a < b
    ensures 0.0 <= a / b < 1.0
  {
    var q := a / b;
    assert q * b == a;
    assert q >= 1.0 ==> q * b >= b;
    assert q < 0.0 ==> q * b < 0.0;
  }

  lemma {:induction false} DecimalBelowPow10(f: string)
    requires AllDigits(f)
    ensures DecimalValue(f) < Pow10(|f|)
  {
    if f != [] {
      var g := f[..|f| - 1];
      assert AllDigits(g) by { assert forall i :: 0 <= i < |g| ==> g[i] == f[i]; }
      DecimalBelowPow10(g);
    }
  }

  /** `parse_retry_delay`: the number after the first "retry in", else the
      number after the first "retry after … second", else `default`; a
      number that `float` refuses raises. */
  function ParseRetryDelay(message: string, default: real): Result<real> {
    match FirstRetryIn(message, 0)
    case Some(p) => ParseFloat(message[p + |RetryIn|..NumberRunEnd(message, p + |RetryIn|)])
    case None =>
      match FirstRetryAfter(message, 0)
      case Some(p) => ParseFloat(message[p + |RetryAfter|..NumberRunEnd(message, p + |RetryAfter|)])
      case None => Success(default)
  }

  /** A whole number reads back as itself. */
  lemma ParseFloatWhole(n: nat)
    ensures ParseFloat(NatToString(n)) == Success(n as real)
  {
    var t := NatToString(n);
    assert forall k :: 0 <= k < |t| ==> t[k] != '.';
  }

  /** "w.f" reads as w + f / 10^|f|. */
  lemma ParseFloatPoint(w: nat, f: string)
    requires AllDigits(f)
    ensures ParseFloat(NatToString(w) + "." + f) == Success(w as real + Fraction(f))
  {
    ParseFloatJoin(NatToString(w), f);
  }

  lemma ParseFloatJoin(a: string, f: string)
    requires a != [] && AllDigits(a) && AllDigits(f)
    ensures ParseFloat(a + "." + f) == Success(DecimalValue(a) as real + Fraction(f))
  {
    var t := a + "." + f;
    assert forall k :: 0 <= k < |a| ==> t[k] == a[k];
    DotIndexIs(t, |a|);
    assert t[..|a|] == a && t[|a| + 1..] == f;
  }

  lemma {:induction false} DotIndexIs(t: string, k: nat)
    requires k < |t| && t[k] == '.' && forall j :: 0 <= j < k ==> t[j] != '.'
    ensures DotIndex(t) == Some(k)
  {
    if k > 0 {
      assert forall j :: 0 <= j < k - 1 ==> t[1..][j] == t[j + 1];
      DotIndexIs(t[1..], k - 1);
    }
  }

  /** A point alone, or two points, are refused. */
  lemma ParseFloatRefuses()
    ensures ParseFloat(".").Failure?
    ensures ParseFloat("1.2.3").Failure?
  {
    assert "."[..0] == [] && "."[1..] == [];
    assert "1.2.3"[1] == '.' && "1.2.3"[0] != '.';
    assert !AllDigits("1.2.3"[2..]) by { assert "1.2.3"[2..][1] == '.'; }
  }

  /** A "retry in" clause wins over any "retry after" clause: the first one decides. */
  lemma RetryInFirst(message: string, default: real, p: nat)
    requires RetryInAt(message, p)
    requires forall q :: 0 <= q < p ==> !RetryInAt(message, q)
    ensures ParseRetryDelay(message, default) ==
      ParseFloat(message[p + |RetryIn|..NumberRunEnd(message, p + |RetryIn|)])
  {
    var r := FirstRetryIn(message, 0);
    assert r.Some? && r.value == p;
  }

  /** Without either clause the default is returned. */
  lemma NoClauseGivesDefault(message: string, default: real)
    requires forall p :: !RetryInAt(message, p) && !RetryAfterAt(message, p)
    ensures ParseRetryDelay(message, default) == Success(default)
  {
    assert FirstRetryIn(message, 0).None?;
    assert FirstRetryAfter(message, 0).None?;
  }

  /** The example from the documentation: "retry after 60 seconds" gives 60. */
  lemma RetryAfterSixty(default: real)
    ensures ParseRetryDelay("retry after 60 seconds", default) == Success(60.0)
  {
    var m := "retry after 60 seconds";
    NoRetryInSixty();
    RetryAfterAtSixty();
    assert FirstRetryIn(m, 0).None?;
    assert FirstRetryAfter(m, 0) == Some(0);
    assert ParseRetryDelay(m, default) == ParseFloat(m[12..NumberRunEnd(m, 12)]);
    assert m[12..14] == "60";
    SixtyParses();
  }

  lemma SixtyParses()
    ensures ParseFloat("60") == Success(60.0)
  {
    var t := "60";
    assert AllDigits(t);
    assert t[..1] == "6" && "6"[..0] == [];
    assert DecimalValue(t) == 60;
    ParseFloatIntegerText(t);
  }

  lemma NoRetryInSixty()
    ensures forall p: nat :: !RetryInAt("retry after 60 seconds", p)
  {
    var m := "retry after 60 seconds";
    assert Lower(m) == m;
    assert forall k :: 0 <= k < |m| ==> m[k] != 'i';
    forall p: nat ensures !RetryInAt(m, p) {
      if p + |RetryIn| <= |m| { assert m[p..p + |RetryIn|][6] == m[p + 6]; }
    }
  }

  lemma RetryAfterAtSixty()
    ensures RetryAfterAt("retry after 60 seconds", 0)
    ensures NumberRunEnd("retry after 60 seconds", 12) == 14
  {
    var m := "retry after 60 seconds";
    SixtyLower();
    SixtyRuns();
    assert m[..12] == RetryAfter;
    assert m[15..21] == "second";
  }

  lemma SixtyLower()
    ensures Lower("retry after 60 seconds") == "retry after 60 seconds"
  {
  }

  lemma SixtyRuns()
    ensures NumberRunEnd("retry after 60 seconds", 12) == 14
    ensures SpaceRunEnd("retry after 60 seconds", 14) == 15
  {
  }

  lemma ParseFloatIntegerText(t: string)
    requires t != [] && AllDigits(t)
    ensures ParseFloat(t) == Success(DecimalValue(t) as real)
  {
  }

  // ---------------------------------------------------------------------
  // retry_with_backoff

  /** The rate-limit test: "429" in the raw text, or "rate" or "quota" in its lower-cased form. */
  predicate IsRateLimitError(message: string) {
    Contains(message, "429") || Contains(Lower(message), "rate") || Contains(Lower(message), "quota")
  }

  function Pow2(n: nat): (r: nat)
    ensures r > 0
  {
    if n == 0 then 1 else 2 * Pow2(n - 1)
  }

  /** The sleep before retrying after a rate-limited `attempt`:
      `min(parse_retry_delay(msg, base·2^attempt), max_delay)`. */
  function BackoffDelay(message: string, attempt: nat, baseDelay: real, maxDelay: real): (r: Result<real>)
    ensures r.Success? ==> r.value <= maxDelay
  {
    match ParseRetryDelay(message, baseDelay * Pow2(attempt) as real)
    case Failure(e) => Failure(e)
    case Success(d) => Success(if maxDelay < d then maxDelay else d)
  }

  /** What the `except` block decides for an error raised by attempt `attempt`. */
  datatype Reaction =
    | Reraise                   // not a rate limit, or the final attempt: the error itself propagates
    | RaiseOther(error: string) // parsing the delay raised
    | SleepFor(delay: real)     // sleep, then try again

  /** The `except` block: a non-rate-limit error is re-raised; for a rate
      limit the capped delay is computed first, then slept unless this was
      the final attempt. */
  function OnError(message: string, attempt: nat, maxRetries: nat, baseDelay: real, maxDelay: real): (r: Reaction)
    ensures r.SleepFor? ==> r.delay <= maxDelay && attempt < maxRetries
  {
    if !IsRateLimitError(message) then Reraise
    else match BackoffDelay(message, attempt, baseDelay, maxDelay)
      case Failure(e) => RaiseOther(e)
      case Success(d) => if attempt < maxRetries then SleepFor(d) else Reraise
  }

  /** `OnError` for one configuration, as a function of the error and the attempt. */
  function Reactions(maxRetries: nat, baseDelay: real, maxDelay: real): (string, nat) -> Reaction {
    (message: string, attempt: nat) => OnError(message, attempt, maxRetries, baseDelay, maxDelay)
  }

  /** A finished run: what was returned or raised, the sleeps in order, and the number of calls. */
  datatype RetryRun<T> = RetryRun(result: Result<T>, sleeps: seq<real>, calls: nat)

  /** The run from attempt `attempt` on, for any way `react` of answering an error. */
  function RetryFrom<T>(call: nat -> Result<T>, maxRetries: nat, react: (string, nat) -> Reaction, attempt: nat): RetryRun<T>
    requires attempt <= maxRetries
    decreases maxRetries - attempt
  {
    match call(attempt)
    case Success(v) => RetryRun(Success(v), [], 1)
    case Failure(message) =>
      match react(message, attempt)
      case Reraise => RetryRun(Failure(message), [], 1)
      case RaiseOther(e) => RetryRun(Failure(e), [], 1)
      case SleepFor(delay) =>
        if attempt < maxRetries then
          var rest := RetryFrom(call, maxRetries, react, attempt + 1);
          RetryRun(rest.result, [delay] + rest.sleeps, rest.calls + 1)
        else RetryRun(Failure(message), [], 1)
  }

  /** `retry_with_backoff(func, max_retries, base_delay, max_delay)`. */
  function Retried<T>(call: nat -> Result<T>, maxRetries: nat, baseDelay: real, maxDelay: real): RetryRun<T> {
    RetryFrom(call, maxRetries, Reactions(maxRetries, baseDelay, maxDelay), 0)
  }

  /** Attempt `j` failed and its error was answered by sleeping `delay`. */
  ghost predicate SleptAfter<T>(call: nat -> Result<T>, react: (string, nat) -> Reaction, j: nat, delay: real) {
    call(j).Failure? && react(call(j).error, j) == SleepFor(delay)
  }

  /** Why the run stopped at attempt `last`: a success is returned at once,
      and an error is re-raised or replaced as `react` says. */
  ghost predicate StoppedAt<T>(call: nat -> Result<T>, maxRetries: nat, react: (string, nat) -> Reaction, last: nat, result: Result<T>) {
    match call(last)
    case Success(v) => result == Success(v)
    case Failure(message) =>
      match react(message, last)
      case Reraise => result == Failure(message)
      case RaiseOther(e) => result == Failure(e)
      case SleepFor(_) => last == maxRetries && result == Failure(message)
  }

  /** The run from `attempt` makes between 1 and `maxRetries + 1 - attempt`
      calls, sleeps once between consecutive calls, each sleep being the
      answer to the error before it, and stops for the reason `StoppedAt` gives. */
  lemma {:induction false} RetryFromShape<T>(call: nat -> Result<T>, maxRetries: nat, react: (string, nat) -> Reaction, attempt: nat)
    requires attempt <= maxRetries
    decreases maxRetries - attempt
    ensures var run := RetryFrom(call, maxRetries, react, attempt);
      && 1 <= run.calls <= maxRetries + 1 - attempt
      && |run.sleeps| == run.calls - 1
      && (forall j :: 0 <= j < |run.sleeps| ==> SleptAfter(call, react, attempt + j, run.sleeps[j]))
      && StoppedAt(call, maxRetries, react, attempt + run.calls - 1, run.result)
  {
    var run := RetryFrom(call, maxRetries, react, attempt);
    if call(attempt).Failure? && react(call(attempt).error, attempt).SleepFor? && attempt < maxRetries {
      RetryFromShape(call, maxRetries, react, attempt + 1);
      var rest := RetryFrom(call, maxRetries, react, attempt + 1);
      assert run.sleeps == [react(call(attempt).error, attempt).delay] + rest.sleeps;
      forall j | 0 <= j < |run.sleeps| ensures SleptAfter(call, react, attempt + j, run.sleeps[j]) {
        if j > 0 { assert run.sleeps[j] == rest.sleeps[j - 1]; }
      }
    }
  }

  /** The whole run: at most `maxRetries + 1` calls, exactly one sleep between
      consecutive calls, each the capped delay for a rate-limited attempt and
      so at most `maxDelay`, and the first success returned as soon as it comes. */
  lemma RetriedShape<T>(call: nat -> Result<T>, maxRetries: nat, baseDelay: real, maxDelay: real)
    ensures var run := Retried(call, maxRetries, baseDelay, maxDelay);
      && 1 <= run.calls <= maxRetries + 1
      && |run.sleeps| == run.calls - 1
      && (forall j :: 0 <= j < |run.sleeps| ==>
            call(j).Failure? && IsRateLimitError(call(j).error)
            && BackoffDelay(call(j).error, j, baseDelay, maxDelay) == Success(run.sleeps[j])
            && run.sleeps[j] <= maxDelay)
      && (run.result.Success? ==> run.result == call(run.calls - 1))
  {
    var react := Reactions(maxRetries, baseDelay, maxDelay);
    var run := Retried(call, maxRetries, baseDelay, maxDelay);
    RetryFromShape(call, maxRetries, react, 0);
    forall j | 0 <= j < |run.sleeps|
      ensures call(j).Failure? && IsRateLimitError(call(j).error)
      ensures BackoffDelay(call(j).error, j, baseDelay, maxDelay) == Success(run.sleeps[j])
    {
      assert SleptAfter(call, react, j, run.sleeps[j]);
    }
    if run.result.Success? {
      assert StoppedAt(call, maxRetries, react, run.calls - 1, run.result);
    }
  }

  /** A first error that is not a rate limit is re-raised after one call, without sleeping. */
  lemma OtherErrorNotRetried<T>(call: nat -> Result<T>, maxRetries: nat, baseDelay: real, maxDelay: real)
    requires call(0).Failure? && !IsRateLimitError(call(0).error)
    ensures Retried(call, maxRetries, baseDelay, maxDelay) == RetryRun(Failure(call(0).error), [], 1)
  {
  }

  /** When every call is rate-limited with a delay that parses, all
      `maxRetries + 1` calls are made, `maxRetries` sleeps taken, and the last
      error re-raised without a sleep after it. */
  lemma AllRateLimitedExhausts<T>(call: nat -> Result<T>, maxRetries: nat, baseDelay: real, maxDelay: real)
    requires forall j :: 0 <= j <= maxRetries ==>
      call(j).Failure? && IsRateLimitError(call(j).error) && BackoffDelay(call(j).error, j, baseDelay, maxDelay).Success?
    ensures var run := Retried(call, maxRetries, baseDelay, maxDelay);
      run.calls == maxRetries + 1 && |run.sleeps| == maxRetries && run.result == Failure(call(maxRetries).error)
  {
    var react := Reactions(maxRetries, baseDelay, maxDelay);
    var run := Retried(call, maxRetries, baseDelay, maxDelay);
    RetryFromShape(call, maxRetries, react, 0);
    var last := run.calls - 1;
    assert StoppedAt(call, maxRetries, react, last, run.result);
    assert react(call(last).error, last) == OnError(call(last).error, last, maxRetries, baseDelay, maxDelay);
  }

  /** A run from a later attempt, after `calls` calls that slept `sleeps`. */
  function Prepended<T>(sleeps: seq<real>, calls: nat, rest: RetryRun<T>): RetryRun<T> {
    RetryRun(rest.result, sleeps + rest.sleeps, calls + rest.calls)
  }

  /** An error answered by a sleep before the final attempt leads to the run from the next attempt. */
  lemma SleepThenRest<T>(call: nat -> Result<T>, maxRetries: nat, react: (string, nat) -> Reaction, attempt: nat, delay: real, sleeps: seq<real>)
    requires attempt < maxRetries
    requires call(attempt).Failure? && react(call(attempt).error, attempt) == SleepFor(delay)
    ensures Prepended(sleeps, attempt, RetryFrom(call, maxRetries, react, attempt))
      == Prepended(sleeps + [delay], attempt + 1, RetryFrom(call, maxRetries, react, attempt + 1))
  {
    var next := RetryFrom(call, maxRetries, react, attempt + 1);
    assert sleeps + ([delay] + next.sleeps) == (sleeps + [delay]) + next.sleeps;
  }

  /** The attempt loop of `retry_with_backoff`, for any way `react` of answering an error. */
  method RetryLoop<T>(call: nat -> Result<T>, maxRetries: nat, react: (string, nat) -> Reaction)
    returns (result: Result<T>, sleeps: seq<real>, calls: nat)
    ensures RetryRun(result, sleeps, calls) == RetryFrom(call, maxRetries, react, 0)
  {
    sleeps := [];
    var attempt := 0;
    assert Prepended(sleeps, 0, RetryFrom(call, maxRetries, react, 0)) == RetryFrom(call, maxRetries, react, 0);
    while true
      invariant attempt <= maxRetries
      invariant Prepended(sleeps, attempt, RetryFrom(call, maxRetries, react, attempt)) == RetryFrom(call, maxRetries, react, 0)
      decreases maxRetries - attempt
    {
      var outcome := call(attempt);
      if outcome.Success? {
        assert sleeps + [] == sleeps;
        return outcome, sleeps, attempt + 1;
      }
      var reaction := react(outcome.error, attempt);
      if reaction.Reraise? || (reaction.SleepFor? && attempt == maxRetries) {
        assert sleeps + [] == sleeps;
        return Failure(outcome.error), sleeps, attempt + 1;
      }
      if reaction.RaiseOther? {
        assert sleeps + [] == sleeps;
        return Failure(reaction.error), sleeps, attempt + 1;
      }
      SleepThenRest(call, maxRetries, react, attempt, reaction.delay, sleeps);
      sleeps := sleeps + [reaction.delay];
      attempt := attempt + 1;
    }
  }

  /** `retry_with_backoff`: the loop with the `except` block `OnError`. */
  method RetryWithBackoff<T>(call: nat -> Result<T>, maxRetries: nat, baseDelay: real, maxDelay: real)
    returns (result: Result<T>, sleeps: seq<real>, calls: nat)
    ensures RetryRun(result, sleeps, calls) == Retried(call, maxRetries, baseDelay, maxDelay)
  {
    result, sleeps, calls := RetryLoop(call, maxRetries, Reactions(maxRetries, baseDelay, maxDelay));
  }
}
