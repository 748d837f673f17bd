/** The retry loop and its backoff, on u64 values whose additions and products wrap. */
module Retry {
  import opened Options

  const MAX_U64: nat := 0xFFFF_FFFF_FFFF_FFFF
  const TWO_64: nat := 0x1_0000_0000_0000_0000

  function WrapAdd(a: nat, b: nat): nat {
    (a + b) % TWO_64
  }

  function WrapMul(a: nat, b: nat): nat {
    (a * b) % TWO_64
  }

  function SaturatingMul(a: nat, b: nat): nat {
    if a * b <= MAX_U64 then a * b else MAX_U64
  }

  function Pow2(k: nat): nat {
    if k == 0 then 1 else 2 * Pow2(k - 1)
  }

  /** `1u64.checked_shl(k).unwrap_or(u64::MAX)`. */
  function ShlOrMax(k: nat): nat {
    if k < 64 then Pow2(k) else MAX_U64
  }

  function Min(a: nat, b: nat): nat {
    if a <= b then a else b
  }

  function Max(a: nat, b: nat): nat {
    if a >= b then a else b
  }

  datatype ErrorKind =
    | RateLimit | Overloaded | PromptTooLong | InvalidRequest | AuthenticationFailed | ModelNotFound
    | ContentFiltered | Timeout | ServerError | ConnectionError | Unknown
  {
    predicate IsRetriable() {
      RateLimit? || Overloaded? || Timeout? || ServerError? || ConnectionError?
    }
  }

  datatype Config = Config(maxRetries: nat, baseDelayMs: nat, maxDelayMs: nat, respectRetryAfter: bool)
  {
    /** The widths of the fields; the attempt counter itself does not wrap. */
    predicate Valid() {
      maxRetries < 0xFFFF_FFFF && baseDelayMs <= MAX_U64 && maxDelayMs <= MAX_U64
    }
  }

  // ----- one delay -----

  /** Timeouts back off from half the base. */
  function Base(config: Config, kind: ErrorKind): nat {
    if kind.Timeout? then config.baseDelayMs / 2 else config.baseDelayMs
  }

  /** Jitter is drawn below this. */
  function JitterBound(base: nat): (bound: nat)
    ensures bound >= 1
  {
    Max(base, 2) / 2
  }

  function ExpDelay(base: nat, attempt: nat): nat
    requires attempt >= 1
  {
    SaturatingMul(base, ShlOrMax(attempt - 1))
  }

  function Backoff(config: Config, attempt: nat, kind: ErrorKind, jitter: nat): nat
    requires attempt >= 1
  {
    Min(WrapAdd(ExpDelay(Base(config, kind), attempt), jitter), config.maxDelayMs)
  }

  /** `calculate_delay`; the random draw is a number reduced below its bound. */
  function CalculateDelay(config: Config, attempt: nat, retryAfter: Option<nat>, kind: ErrorKind, draw: nat): (d: nat)
    requires attempt >= 1
    ensures d <= config.maxDelayMs
  {
    if retryAfter.Some? && kind.RateLimit? then
      Min(WrapMul(retryAfter.value, 1000), config.maxDelayMs)
    else
      Backoff(config, attempt, kind, draw % JitterBound(Base(config, kind)))
  }

  /** A corollary: Retry-After is honoured up to the cap exactly unless the product wraps below the cap. */
  lemma RetryAfterHonoured(config: Config, attempt: nat, secs: nat, draw: nat)
    requires config.Valid() && attempt >= 1
    ensures CalculateDelay(config, attempt, Some(secs), RateLimit, draw) == Min(secs * 1000, config.maxDelayMs)
       <==> secs * 1000 <= MAX_U64 || WrapMul(secs, 1000) >= config.maxDelayMs
  {
    if secs * 1000 <= MAX_U64 {
      assert WrapMul(secs, 1000) == secs * 1000;
    }
  }

  // ----- delays of one error kind never decrease -----

  lemma {:induction false} Pow2Positive(k: nat)
    ensures Pow2(k) >= 1
    ensures k >= 64 ==> Pow2(k) > MAX_U64
  {
    if k > 0 { Pow2Positive(k - 1); }
    if k == 64 { Pow2At64(); }
  }

  lemma Pow2At64()
    ensures Pow2(64) == TWO_64
  {
    assert Pow2(8) == 256;
    Pow2Sum(8, 8);
    Pow2Sum(16, 16);
    Pow2Sum(32, 32);
  }

  lemma {:induction false} Pow2Sum(a: nat, b: nat)
    ensures Pow2(a + b) == Pow2(a) * Pow2(b)
  {
    if a > 0 { Pow2Sum(a - 1, b); }
  }

  /** The shift with its fallback saturates like the true product does. */
  lemma ExpDelayIsPower(base: nat, attempt: nat)
    requires attempt >= 1
    ensures ExpDelay(base, attempt) == Min(base * Pow2(attempt - 1), MAX_U64)
  {
    Pow2Positive(attempt - 1);
    if attempt - 1 >= 64 && base > 0 {
      AtLeast(base, MAX_U64);
      AtLeast(base, Pow2(attempt - 1));
    }
  }

  lemma AtLeast(a: nat, b: nat)
    requires a > 0
    ensures a * b >= b
  {
  }

  /** A later attempt waits at least twice as long before the cap and the jitter. */
  lemma {:induction false} Doubles(base: nat, a: nat, b: nat)
    requires a < b
    ensures base * Pow2(b) >= 2 * (base * Pow2(a))
  {
    if b > a + 1 {
      Doubles(base, a, b - 1);
    }
    assert base * Pow2(b) == 2 * (base * Pow2(b - 1)) by { TwiceInside(base, Pow2(b - 1)); }
  }

  lemma TwiceInside(x: nat, y: nat)
    ensures x * (2 * y) == 2 * (x * y)
  {
  }

  lemma ExpDelayAtLeastBase(base: nat, attempt: nat)
    requires attempt >= 1 && base <= MAX_U64
    ensures base <= ExpDelay(base, attempt) <= MAX_U64
  {
    ExpDelayIsPower(base, attempt);
    Pow2Positive(attempt - 1);
    if base > 0 { TimesAtLeast(base, Pow2(attempt - 1)); }
  }

  lemma TimesAtLeast(a: nat, b: nat)
    requires b >= 1
    ensures a * b >= a
  {
  }

  lemma ExpDelayGrows(base: nat, a: nat, b: nat)
    requires 1 <= a < b && base <= MAX_U64
    ensures ExpDelay(base, b) >= Min(2 * ExpDelay(base, a), MAX_U64)
  {
    ExpDelayIsPower(base, a);
    ExpDelayIsPower(base, b);
    Doubles(base, a - 1, b - 1);
  }

  /** Whatever jitter is drawn, a later sleep for the same kind of error is not shorter. */
  ghost predicate NeverDecreases(config: Config, kind: ErrorKind) {
    forall a, b, i, j | 1 <= a < b <= config.maxRetries
      && 0 <= i < JitterBound(Base(config, kind)) && 0 <= j < JitterBound(Base(config, kind)) ::
      Backoff(config, a, kind, i) <= Backoff(config, b, kind, j)
  }

  /** The largest exponential delay still has room for the largest jitter. */
  predicate NoWrap(config: Config, kind: ErrorKind)
    requires config.maxRetries >= 1
  {
    var base := Base(config, kind);
    ExpDelay(base, config.maxRetries) + JitterBound(base) - 1 <= MAX_U64
  }

  /** The last attempt's delay before cap and jitter is the largest. */
  lemma LastIsLargest(base: nat, b: nat, n: nat)
    requires 1 <= b <= n && base <= MAX_U64
    ensures ExpDelay(base, b) <= ExpDelay(base, n)
  {
    if b < n {
      ExpDelayGrows(base, b, n);
      ExpDelayAtLeastBase(base, b);
    }
  }

  /** Plain numbers: doubling outweighs any jitter, and nothing wraps. */
  lemma JitterIsOutweighed(base: nat, ea: nat, eb: nat, en: nat, i: nat, j: nat)
    requires base <= ea <= MAX_U64 && Min(2 * ea, MAX_U64) <= eb <= en
    requires en + JitterBound(base) - 1 <= MAX_U64
    requires i < JitterBound(base) && j < JitterBound(base)
    ensures WrapAdd(ea, i) <= WrapAdd(eb, j)
  {
    assert ea + i <= eb;
  }

  lemma OneStepUp(config: Config, kind: ErrorKind, a: nat, b: nat, i: nat, j: nat)
    requires config.Valid() && 1 <= a < b <= config.maxRetries && NoWrap(config, kind)
    requires i < JitterBound(Base(config, kind)) && j < JitterBound(Base(config, kind))
    ensures Backoff(config, a, kind, i) <= Backoff(config, b, kind, j)
  {
    var base := Base(config, kind);
    ExpDelayGrows(base, a, b);
    ExpDelayAtLeastBase(base, a);
    LastIsLargest(base, b, config.maxRetries);
    JitterIsOutweighed(base, ExpDelay(base, a), ExpDelay(base, b), ExpDelay(base, config.maxRetries), i, j);
  }

  /** When the jitter can make the last sleep's sum wrap, it can make that sleep zero. */
  lemma WrapsToZero(base: nat, n: nat) returns (j: nat)
    requires n >= 1 && base <= MAX_U64 && ExpDelay(base, n) + JitterBound(base) - 1 > MAX_U64
    ensures j < JitterBound(base) && WrapAdd(ExpDelay(base, n), j) == 0 && base > 0
  {
    ExpDelayAtLeastBase(base, n);
    j := TWO_64 - ExpDelay(base, n);
  }

  lemma FirstDelay(base: nat)
    requires base <= MAX_U64
    ensures WrapAdd(ExpDelay(base, 1), 0) == base
  {
    assert ShlOrMax(0) == 1;
  }

  /**
   Sleeps for a fixed kind of error never decrease, whatever jitter is drawn, exactly when there is
   at most one of them, they are capped at zero, or the addition of the jitter cannot wrap.
   */
  lemma SleepsNeverDecrease(config: Config, kind: ErrorKind)
    requires config.Valid()
    ensures NeverDecreases(config, kind)
       <==> config.maxRetries <= 1 || config.maxDelayMs == 0 || NoWrap(config, kind)
  {
    if config.maxRetries >= 2 && config.maxDelayMs > 0 {
      if NoWrap(config, kind) {
        NoWrapNeverDecreases(config, kind);
      } else {
        WrapDecreases(config, kind);
      }
    }
  }

  lemma NoWrapNeverDecreases(config: Config, kind: ErrorKind)
    requires config.Valid() && config.maxRetries >= 2 && NoWrap(config, kind)
    ensures NeverDecreases(config, kind)
  {
    forall a, b, i, j | 1 <= a < b <= config.maxRetries
      && 0 <= i < JitterBound(Base(config, kind)) && 0 <= j < JitterBound(Base(config, kind))
      ensures Backoff(config, a, kind, i) <= Backoff(config, b, kind, j)
    {
      OneStepUp(config, kind, a, b, i, j);
    }
  }

  lemma WrapDecreases(config: Config, kind: ErrorKind)
    requires config.Valid() && config.maxRetries >= 2 && config.maxDelayMs > 0 && !NoWrap(config, kind)
    ensures !NeverDecreases(config, kind)
  {
    var n, base := config.maxRetries, Base(config, kind);
    var j := WrapsToZero(base, n);
    FirstDelay(base);
    assert Backoff(config, n, kind, j) == 0;
    assert Backoff(config, 1, kind, 0) > 0;
  }

  // ----- the loop -----

  /** What one send came to; the body of a streaming reply is not read here. */
  datatype Reply =
    | Streaming
    | Buffered(status: nat, kind: ErrorKind, retryAfter: Option<nat>)
    | Unreachable

  datatype Outcome = Outcome(result: Reply, attempts: nat, totalDelayMs: nat, retryAfterSecs: Option<nat>)

  predicate IsSuccess(status: nat) {
    200 <= status < 300
  }

  /** A reply worth another attempt. */
  predicate Retriable(reply: Reply) {
    match reply
    case Streaming => false
    case Buffered(status, kind, _) => !IsSuccess(status) && kind.IsRetriable()
    case Unreachable => true
  }

  /** The sleep after an attempt that is retried. */
  function SleepAfter(config: Config, attempt: nat, reply: Reply, draw: nat): nat
    requires attempt >= 1
  {
    match reply
    case Buffered(_, kind, retryAfter) =>
      CalculateDelay(config, attempt, if config.respectRetryAfter then retryAfter else None, kind, draw)
    case _ => CalculateDelay(config, attempt, None, ConnectionError, draw)
  }

  // ----- what one failure calls for, said without the functions above -----

  /** The base, halved for timeouts and doubled for every earlier attempt, plus the jitter, capped. */
  function Drawn(config: Config, attempt: nat, timeout: bool, jitter: nat): nat
    requires attempt >= 1
  {
    var base := if timeout then config.baseDelayMs / 2 else config.baseDelayMs;
    Capped((Min(base * Pow2(attempt - 1), MAX_U64) + jitter) % TWO_64, config.maxDelayMs)
  }

  /** Jitter is less than half the base, or none. */
  predicate Jitters(config: Config, timeout: bool, jitter: nat) {
    jitter == 0 || 2 * jitter + 2 <= if timeout then config.baseDelayMs / 2 else config.baseDelayMs
  }

  ghost predicate BacksOff(config: Config, attempt: nat, timeout: bool, d: nat)
    requires attempt >= 1
  {
    exists jitter: nat | Jitters(config, timeout, jitter) :: d == Drawn(config, attempt, timeout, jitter)
  }

  function Capped(d: nat, cap: nat): nat {
    if d > cap then cap else d
  }

  /** A reply is retried unless it succeeded or could not succeed the next time either; this is the sleep before. */
  ghost predicate CallsFor(config: Config, attempt: nat, reply: Reply, d: nat)
    requires attempt >= 1
  {
    match reply
    case Streaming => false
    case Unreachable => BacksOff(config, attempt, false, d)
    case Buffered(status, kind, retryAfter) =>
      && (status < 200 || status > 299)
      && (kind == RateLimit || kind == Overloaded || kind == Timeout || kind == ServerError || kind == ConnectionError)
      && if kind == RateLimit && config.respectRetryAfter && retryAfter.Some?
         then d == Capped(retryAfter.value * 1000 % TWO_64, config.maxDelayMs)
         else BacksOff(config, attempt, kind == Timeout, d)
  }

  lemma BackoffIs(config: Config, attempt: nat, kind: ErrorKind, jitter: nat)
    requires attempt >= 1
    ensures Backoff(config, attempt, kind, jitter) == Drawn(config, attempt, kind == Timeout, jitter)
    ensures jitter < JitterBound(Base(config, kind)) <==> Jitters(config, kind == Timeout, jitter)
  {
    ExpDelayIsPower(Base(config, kind), attempt);
  }

  /** The draws reach every jitter below the bound. */
  lemma BackoffExactly(config: Config, attempt: nat, kind: ErrorKind, d: nat)
    requires attempt >= 1
    ensures BacksOff(config, attempt, kind == Timeout, d) <==>
            exists draw: nat :: CalculateDelay(config, attempt, None, kind, draw) == d
  {
    var bound := JitterBound(Base(config, kind));
    if BacksOff(config, attempt, kind == Timeout, d) {
      var jitter: nat :|
        Jitters(config, kind == Timeout, jitter) && d == Drawn(config, attempt, kind == Timeout, jitter);
      BackoffIs(config, attempt, kind, jitter);
      DrawsItself(jitter, bound);
      assert CalculateDelay(config, attempt, None, kind, jitter) == d;
    }
    if draw: nat :| CalculateDelay(config, attempt, None, kind, draw) == d {
      BackoffIs(config, attempt, kind, draw % bound);
    }
  }

  lemma DrawsItself(draw: nat, bound: nat)
    requires draw < bound
    ensures draw % bound == draw
  {
  }

  lemma RetryAfterOnlyThen(config: Config, attempt: nat, retryAfter: Option<nat>, kind: ErrorKind, draw: nat)
    requires attempt >= 1 && (retryAfter.None? || kind != RateLimit)
    ensures CalculateDelay(config, attempt, retryAfter, kind, draw) == CalculateDelay(config, attempt, None, kind, draw)
  {
  }

  /**
   A reply is retried exactly when some sleep is called for, and the sleeps it calls for are exactly
   those the loop can draw.
   */
  lemma SleepsExactly(config: Config, attempt: nat, reply: Reply, d: nat)
    requires attempt >= 1
    ensures CallsFor(config, attempt, reply, d) <==>
            Retriable(reply) && exists draw: nat :: SleepAfter(config, attempt, reply, draw) == d
    ensures Retriable(reply) <==> exists any: nat :: CallsFor(config, attempt, reply, any)
  {
    forall any: nat
      ensures CallsFor(config, attempt, reply, any) <==>
              Retriable(reply) && exists draw: nat :: SleepAfter(config, attempt, reply, draw) == any
    {
      OneSleepExactly(config, attempt, reply, any);
    }
    if Retriable(reply) {
      assert CallsFor(config, attempt, reply, SleepAfter(config, attempt, reply, 0));
    }
  }

  lemma OneSleepExactly(config: Config, attempt: nat, reply: Reply, d: nat)
    requires attempt >= 1
    ensures CallsFor(config, attempt, reply, d) <==>
            Retriable(reply) && exists draw: nat :: SleepAfter(config, attempt, reply, draw) == d
  {
    match reply
    case Streaming =>
    case Unreachable =>
      BackoffExactly(config, attempt, ConnectionError, d);
      assert forall draw: nat :: SleepAfter(config, attempt, reply, draw)
                              == CalculateDelay(config, attempt, None, ConnectionError, draw);
    case Buffered(status, kind, retryAfter) =>
      var header := if config.respectRetryAfter then retryAfter else None;
      assert forall draw: nat :: SleepAfter(config, attempt, reply, draw)
                              == CalculateDelay(config, attempt, header, kind, draw);
      if kind == RateLimit && header.Some? {
        var fixed := Capped(header.value * 1000 % TWO_64, config.maxDelayMs);
        assert forall draw: nat :: SleepAfter(config, attempt, reply, draw) == fixed;
        assert SleepAfter(config, attempt, reply, 0) == fixed;
      } else {
        BackoffExactly(config, attempt, kind, d);
        forall draw: nat
          ensures CalculateDelay(config, attempt, header, kind, draw)
               == CalculateDelay(config, attempt, None, kind, draw)
        {
          RetryAfterOnlyThen(config, attempt, header, kind, draw);
        }
      }
  }

  function Sum(s: seq<nat>): nat {
    if s == [] then 0 else Sum(s[..|s| - 1]) + s[|s| - 1]
  }

  lemma {:induction false} SumBound(s: seq<nat>, bound: nat)
    requires AtMost(s, bound)
    ensures Sum(s) <= |s| * bound
  {
    if s != [] { SumBound(s[..|s| - 1], bound); }
  }

  /** The sleeps so far are those the replies so far call for. */
  predicate Slept(config: Config, send: nat -> Reply, draw: nat -> nat, sleeps: seq<nat>) {
    forall i: nat | i < |sleeps| ::
      Retriable(send(i)) && sleeps[i] == SleepAfter(config, i + 1, send(i), draw(i))
  }

  /** Retry-After of a failed reply, when it is respected. */
  function ShownRetryAfter(config: Config, reply: Reply): Option<nat> {
    match reply
    case Buffered(status, _, retryAfter) =>
      if IsSuccess(status) || !config.respectRetryAfter then None else retryAfter
    case _ => None
  }

  /** One turn of the loop after the reply: give up, or the delay before the next attempt. */
  method AfterAttempt(config: Config, attempts: nat, result: Reply, draw: nat)
    returns (giveUp: bool, delay: nat, retryAfter: Option<nat>)
    requires attempts >= 1
    ensures giveUp <==> !Retriable(result) || attempts > config.maxRetries
    ensures !giveUp ==> delay == SleepAfter(config, attempts, result, draw)
    ensures giveUp ==> retryAfter == ShownRetryAfter(config, result)
  {
    match result
    case Streaming =>
      return true, 0, None;
    case Buffered(status, kind, header) =>
      if IsSuccess(status) {
        return true, 0, None;
      }
      retryAfter := if config.respectRetryAfter then header else None;
      if attempts > config.maxRetries || !kind.IsRetriable() {
        return true, 0, retryAfter;
      }
      return false, CalculateDelay(config, attempts, retryAfter, kind, draw), retryAfter;
    case Unreachable =>
      if attempts > config.maxRetries {
        return true, 0, None;
      }
      return false, CalculateDelay(config, attempts, None, ConnectionError, draw), None;
  }

  /**
   `execute_with_retry`. The n-th send of the run is answered by `send(n)` and the n-th jitter is
   drawn from `draw(n)`. The reply returned is the first that is not worth a retry, or the one
   after the last allowed retry; every earlier one was retried after the sleep it calls for.
   */
  method ExecuteWithRetry(config: Config, send: nat -> Reply, draw: nat -> nat)
    returns (outcome: Outcome, sleeps: seq<nat>)
    requires config.Valid()
    ensures 1 <= outcome.attempts == |sleeps| + 1 <= config.maxRetries + 1
    ensures outcome.result == send(|sleeps|)
    ensures !Retriable(outcome.result) || |sleeps| == config.maxRetries
    ensures Slept(config, send, draw, sleeps)
    ensures outcome.totalDelayMs == WrappedTotal(sleeps)
    ensures outcome.totalDelayMs == Sum(sleeps) <==> Sum(sleeps) <= MAX_U64
    ensures MaxSleep(config) <= MAX_U64 ==> outcome.totalDelayMs == Sum(sleeps)
    ensures outcome.retryAfterSecs ==
      if config.respectRetryAfter && outcome.result.Buffered? && !(200 <= outcome.result.status < 300)
      then outcome.result.retryAfter else None
  {
    var attempts := 0;
    var totalDelay := 0;
    sleeps := [];
    while true
      invariant attempts == |sleeps| <= config.maxRetries
      invariant Slept(config, send, draw, sleeps)
      invariant totalDelay == WrappedTotal(sleeps)
      decreases config.maxRetries - attempts
    {
      attempts := attempts + 1;
      var result := send(attempts - 1);
      var giveUp, delay, retryAfter := AfterAttempt(config, attempts, result, draw(attempts - 1));
      if giveUp {
        SleepsAreBounded(config, send, draw, sleeps);
        TotalIsExact(sleeps);
        return Outcome(result, attempts, totalDelay, retryAfter), sleeps;
      }
      WrappedSnoc(sleeps, delay);
      SleptSnoc(config, send, draw, sleeps, delay);
      totalDelay := WrapAdd(totalDelay, delay);
      sleeps := sleeps + [delay];
    }
  }

  /** The longest a run of the loop can sleep. */
  function MaxSleep(config: Config): nat {
    config.maxRetries * config.maxDelayMs
  }

  /** Every sleep of a run is capped, and so is their sum. */
  lemma SleepsAreBounded(config: Config, send: nat -> Reply, draw: nat -> nat, sleeps: seq<nat>)
    requires Slept(config, send, draw, sleeps) && |sleeps| <= config.maxRetries
    ensures AtMost(sleeps, config.maxDelayMs)
    ensures Sum(sleeps) <= MaxSleep(config)
  {
    TotalBound(config, sleeps);
  }

  lemma SleptSnoc(config: Config, send: nat -> Reply, draw: nat -> nat, sleeps: seq<nat>, delay: nat)
    requires Slept(config, send, draw, sleeps) && Retriable(send(|sleeps|))
    requires delay == SleepAfter(config, |sleeps| + 1, send(|sleeps|), draw(|sleeps|))
    ensures Slept(config, send, draw, sleeps + [delay])
  {
  }

  lemma SumSnoc(s: seq<nat>, x: nat)
    ensures Sum(s + [x]) == Sum(s) + x
  {
    assert (s + [x])[..|s|] == s;
  }

  /** `total_delay_ms` as a u64. */
  function WrappedTotal(sleeps: seq<nat>): nat {
    Sum(sleeps) % TWO_64
  }

  lemma WrappedSnoc(sleeps: seq<nat>, delay: nat)
    ensures WrapAdd(WrappedTotal(sleeps), delay) == WrappedTotal(sleeps + [delay])
  {
    WrappedSum(Sum(sleeps), delay);
    SumSnoc(sleeps, delay);
  }

  lemma WrappedSum(total: nat, delay: nat)
    ensures WrapAdd(total % TWO_64, delay) == (total + delay) % TWO_64
  {
  }

  lemma TotalBound(config: Config, sleeps: seq<nat>)
    requires |sleeps| <= config.maxRetries
    requires AtMost(sleeps, config.maxDelayMs)
    ensures Sum(sleeps) <= MaxSleep(config)
  {
    SumBound(sleeps, config.maxDelayMs);
    MulMonotone(|sleeps|, config.maxRetries, config.maxDelayMs);
  }

  lemma MulMonotone(a: nat, b: nat, c: nat)
    requires a <= b
    ensures a * c <= b * c
  {
  }

  /** The reported total is the time slept exactly when that fits in a u64. */
  lemma TotalIsExact(sleeps: seq<nat>)
    ensures WrappedTotal(sleeps) == Sum(sleeps) <==> Sum(sleeps) <= MAX_U64
  {
  }

  // ----- after a 401 -----

  /** A 401 on an OAuth account asks for a forced refresh. */
  predicate NeedsRefresh(oauth: bool, reply: Reply) {
    oauth && reply.Buffered? && reply.status == 401
  }

  /**
   `execute_with_oauth_retry`: at most one refresh, and a second run of the retry loop only after
   it succeeded. The second run continues the sequence of sends and draws.
   */
  method ExecuteWithOAuthRetry(config: Config, oauth: bool, refreshSucceeds: bool, send: nat -> Reply, draw: nat -> nat)
    returns (outcome: Outcome, first: nat, sends: nat, refreshes: nat, sleeps: seq<nat>)
    requires config.Valid()
    ensures 1 <= first <= config.maxRetries + 1 && first <= sends <= first + config.maxRetries + 1
    ensures refreshes == if oauth && send(first - 1).Buffered? && send(first - 1).status == 401 then 1 else 0
    ensures sends == first + if refreshes == 1 && refreshSucceeds then outcome.attempts else 0
    ensures outcome.result == send(sends - 1)
    ensures AtMost(sleeps, config.maxDelayMs)
    ensures |sleeps| <= 2 * config.maxRetries
    ensures Sum(sleeps) <= 2 * MaxSleep(config)
  {
    outcome, sleeps := RunFrom(config, send, draw, 0);
    first, sends, refreshes := outcome.attempts, outcome.attempts, 0;
    if !NeedsRefresh(oauth, outcome.result) { return; }
    refreshes := 1;
    if !refreshSucceeds { return; }
    var again, more := RunFrom(config, send, draw, first);
    TwoRuns(sleeps, more, config.maxDelayMs, MaxSleep(config));
    outcome, sends, sleeps := again, first + again.attempts, sleeps + more;
  }

  /** A run of the loop whose sends and draws are those from the n-th on. */
  method RunFrom(config: Config, send: nat -> Reply, draw: nat -> nat, n: nat)
    returns (outcome: Outcome, sleeps: seq<nat>)
    requires config.Valid()
    ensures 1 <= outcome.attempts == |sleeps| + 1 <= config.maxRetries + 1
    ensures outcome.result == send(n + outcome.attempts - 1)
    ensures AtMost(sleeps, config.maxDelayMs)
    ensures Sum(sleeps) <= MaxSleep(config)
  {
    outcome, sleeps := ExecuteWithRetry(config, Later(send, n), Later(draw, n));
    SleepsAreBounded(config, Later(send, n), Later(draw, n), sleeps);
  }

  predicate AtMost(s: seq<nat>, bound: nat) {
    forall i | 0 <= i < |s| :: s[i] <= bound
  }

  lemma TwoRuns(a: seq<nat>, b: seq<nat>, bound: nat, total: nat)
    requires AtMost(a, bound) && AtMost(b, bound) && Sum(a) <= total && Sum(b) <= total
    ensures AtMost(a + b, bound) && Sum(a + b) <= 2 * total
  {
    SumAppend(a, b);
  }

  /** A sequence of events from its n-th on. */
  function Later<T>(events: nat -> T, n: nat): nat -> T {
    (i: nat) => events(n + i)
  }

  lemma {:induction false} SumAppend(a: seq<nat>, b: seq<nat>)
    ensures Sum(a + b) == Sum(a) + Sum(b)
  {
    if b == [] {
      assert a + b == a;
    } else {
      assert (a + b)[..|a + b| - 1] == a + b[..|b| - 1];
      SumAppend(a, b[..|b| - 1]);
    }
  }
}
