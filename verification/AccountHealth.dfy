/** Health columns of account and provider rows: what every history of marks leaves in them. */
module AccountHealth {
  import opened Options
  import opened Strings

  /** Nanoseconds on the wall clock. */
  type Time = int

  const SECOND: Time := 1_000_000_000

  // ----- classification of a failure message -----

  function ToAsciiLower(s: string): (r: string)
    ensures |r| == |s|
  {
    if s == [] then []
    else [if 'A' <= s[0] <= 'Z' then ('a' as int + (s[0] as int - 'A' as int)) as char else s[0]]
         + ToAsciiLower(s[1..])
  }

  predicate Contains(s: string, part: string) {
    StartsWith(s, part) || (s != [] && Contains(s[1..], part))
  }

  function LowerOf(c: char): char {
    if 'A' <= c <= 'Z' then ('a' as int + (c as int - 'A' as int)) as char else c
  }

  predicate SpeltAt(text: string, i: nat, words: string) {
    i + |words| <= |text| && forall j | 0 <= j < |words| :: words[j] == LowerOf(text[i + j])
  }

  /** The words stand somewhere in the text, in capitals or not. */
  predicate Says(text: string, words: string) {
    exists i | 0 <= i <= |text| :: SpeltAt(text, i, words)
  }

  lemma {:induction false} LoweredAt(s: string, i: nat)
    requires i < |s|
    ensures ToAsciiLower(s)[i] == LowerOf(s[i])
  {
    if i > 0 { LoweredAt(s[1..], i - 1); }
  }

  lemma SpeltFirst(text: string, words: string)
    ensures SpeltAt(text, 0, words) <==> StartsWith(ToAsciiLower(text), words)
  {
    var lowered := ToAsciiLower(text);
    forall i | 0 <= i < |text| ensures lowered[i] == LowerOf(text[i]) { LoweredAt(text, i); }
    if SpeltAt(text, 0, words) { assert lowered[..|words|] == words; }
  }

  lemma SpeltLater(text: string, i: nat, words: string)
    requires text != [] && i > 0
    ensures SpeltAt(text, i, words) <==> SpeltAt(text[1..], i - 1, words)
  {
    assert forall k | 0 <= k < |text| - 1 :: text[1..][k] == text[k + 1];
  }

  /** The words stand at the start, or somewhere in the rest. */
  lemma SaysStep(text: string, words: string)
    requires text != []
    ensures Says(text, words) <==> SpeltAt(text, 0, words) || Says(text[1..], words)
  {
    forall i | 0 < i <= |text| ensures SpeltAt(text, i, words) <==> SpeltAt(text[1..], i - 1, words) {
      SpeltLater(text, i, words);
    }
    if Says(text[1..], words) {
      var i :| 0 <= i <= |text[1..]| && SpeltAt(text[1..], i, words);
      assert SpeltAt(text, i + 1, words);
    }
  }

  lemma {:induction false} SaysExactly(text: string, words: string)
    ensures Says(text, words) <==> Contains(ToAsciiLower(text), words)
  {
    SpeltFirst(text, words);
    if text != [] {
      SaysStep(text, words);
      SaysExactly(text[1..], words);
      assert ToAsciiLower(text)[1..] == ToAsciiLower(text[1..]);
    }
  }

  /** A message is about a rate limit exactly when it says so, speaks of a quota, or names the status. */
  lemma RateLimitExactly(message: string)
    ensures IsRateLimit(message) <==> Says(message, "rate limit") || Says(message, "quota") || Says(message, "429")
  {
    SaysExactly(message, "rate limit");
    SaysExactly(message, "quota");
    SaysExactly(message, "429");
  }

  predicate IsRateLimit(message: string) {
    var lowered := ToAsciiLower(message);
    Contains(lowered, "rate limit") || Contains(lowered, "quota") || Contains(lowered, "429")
  }

  // ----- one row -----

  datatype Health = Health(
    enabled: bool,
    lastError: Option<string>,
    rateLimitedUntil: Option<Time>,
    circuitOpenUntil: Option<Time>,
    backoffLevel: nat,
    consecutiveUseCount: nat)

  datatype Mark = Failure(message: string, at: Time) | Success(at: Time)

  /** A row as it is created. */
  function NewRow(enabled: bool): Health {
    Health(enabled, None, None, None, 0, 0)
  }

  /** COALESCE(new, old). */
  function Coalesce(newer: Option<Time>, older: Option<Time>): Option<Time> {
    if newer.Some? then newer else older
  }

  function ApplyMark(h: Health, mark: Mark): Health {
    match mark
    case Failure(message, at) =>
      var limited := if IsRateLimit(message) then Some(at + 30 * SECOND) else None;
      h.(lastError := Some(message),
         rateLimitedUntil := Coalesce(limited, h.rateLimitedUntil),
         circuitOpenUntil := Some(at + 15 * SECOND),
         backoffLevel := h.backoffLevel + 1,
         consecutiveUseCount := 0)
    case Success(_) =>
      h.(lastError := None, rateLimitedUntil := None, circuitOpenUntil := None,
         backoffLevel := 0, consecutiveUseCount := h.consecutiveUseCount + 1)
  }

  predicate Past(until: Option<Time>, now: Time) {
    match until
    case Some(t) => t <= now
    case None => true
  }

  predicate StrictlyPast(until: Option<Time>, now: Time) {
    match until
    case Some(t) => t < now
    case None => true
  }

  /** The WHERE clause of `list_selectable_provider_accounts`. */
  predicate Selectable(h: Health, now: Time) {
    h.enabled && Past(h.rateLimitedUntil, now) && Past(h.circuitOpenUntil, now)
  }

  /** The filter `route` puts on provider rows; unlike the accounts' it is strict. */
  predicate ProviderAvailable(h: Health, now: Time) {
    h.enabled && StrictlyPast(h.rateLimitedUntil, now) && StrictlyPast(h.circuitOpenUntil, now)
  }

  // ----- the table -----

  /** The health columns of one table; an UPDATE of a missing row changes nothing. */
  class HealthTable {
    var rows: map<string, Health>

    constructor (initial: map<string, Health>)
      ensures rows == initial
    {
      rows := initial;
    }

    /** `mark_provider_account_failure`, and `mark_provider_failure` on its own table. */
    method MarkFailure(id: string, message: string, now: Time)
      modifies this
      ensures rows == Marked(old(rows), id, Failure(message, now))
    {
      if id !in rows { return; }
      var row := rows[id];
      var rateLimited := IsRateLimit(message);
      var until := row.rateLimitedUntil;
      if rateLimited { until := Some(now + 30 * SECOND); }
      rows := rows[id := row.(lastError := Some(message), rateLimitedUntil := until,
                              circuitOpenUntil := Some(now + 15 * SECOND),
                              backoffLevel := row.backoffLevel + 1, consecutiveUseCount := 0)];
    }

    /** `mark_provider_account_success`, and `mark_provider_success` on its own table. */
    method MarkSuccess(id: string, now: Time)
      modifies this
      ensures rows == Marked(old(rows), id, Success(now))
    {
      if id !in rows { return; }
      var row := rows[id];
      rows := rows[id := row.(lastError := None, rateLimitedUntil := None, circuitOpenUntil := None,
                              backoffLevel := 0, consecutiveUseCount := row.consecutiveUseCount + 1)];
    }
  }

  /** The table with one row marked. */
  function Marked(rows: map<string, Health>, id: string, mark: Mark): map<string, Health> {
    if id in rows then rows[id := ApplyMark(rows[id], mark)] else rows
  }

  // ----- every history -----

  function After(h: Health, marks: seq<Mark>): Health {
    if marks == [] then h else ApplyMark(After(h, marks[..|marks| - 1]), marks[|marks| - 1])
  }

  /** How many marks at the end of a history are failures. */
  function FailureRun(marks: seq<Mark>): (k: nat)
    ensures k <= |marks|
    ensures forall i | |marks| - k <= i < |marks| :: marks[i].Failure?
    ensures k < |marks| ==> marks[|marks| - k - 1].Success?
  {
    if marks == [] || marks[|marks| - 1].Success? then 0 else 1 + FailureRun(marks[..|marks| - 1])
  }

  function SuccessRun(marks: seq<Mark>): (k: nat)
    ensures k <= |marks|
    ensures forall i | |marks| - k <= i < |marks| :: marks[i].Success?
    ensures k < |marks| ==> marks[|marks| - k - 1].Failure?
  {
    if marks == [] || marks[|marks| - 1].Failure? then 0 else 1 + SuccessRun(marks[..|marks| - 1])
  }

  /** The time of the last rate-limit failure since the last success. */
  function LastRateLimit(marks: seq<Mark>): Option<Time> {
    if marks == [] || marks[|marks| - 1].Success? then None
    else
      var last := marks[|marks| - 1];
      if IsRateLimit(last.message) then Some(last.at) else LastRateLimit(marks[..|marks| - 1])
  }

  predicate RateLimited(m: Mark) {
    m.Failure? && IsRateLimit(m.message)
  }

  /** It is a failure of the trailing run, and no later mark is a rate limit. */
  lemma {:induction false} LastRateLimitIsLast(marks: seq<Mark>) returns (i: nat)
    ensures LastRateLimit(marks).Some? ==>
      |marks| - FailureRun(marks) <= i < |marks| && RateLimited(marks[i]) && marks[i].at == LastRateLimit(marks).value
    ensures LastRateLimit(marks).None? ==> i == |marks| - FailureRun(marks)
    ensures i <= |marks| && forall j | i < j < |marks| :: !RateLimited(marks[j])
    ensures LastRateLimit(marks).None? && i < |marks| ==> !RateLimited(marks[i])
  {
    if marks == [] || marks[|marks| - 1].Success? {
      i := |marks|;
    } else if RateLimited(marks[|marks| - 1]) {
      i := |marks| - 1;
    } else {
      var front := marks[..|marks| - 1];
      i := LastRateLimitIsLast(front);
      assert forall j | 0 <= j < |front| :: front[j] == marks[j];
    }
  }

  /**
   The health columns are a function of history: the backoff level is the length of the trailing
   failure run, the use count that of the trailing success run, an error is recorded and the
   circuit opened exactly while failures trail, and the two deadlines are those of the last
   failure and of the last rate limit since the last success.
   */
  lemma {:induction false} HealthIsHistory(enabled: bool, marks: seq<Mark>)
    ensures var h := After(NewRow(enabled), marks);
            && h.enabled == enabled
            && h.backoffLevel == FailureRun(marks)
            && h.consecutiveUseCount == SuccessRun(marks)
            && (h.lastError == if FailureRun(marks) > 0 then Some(marks[|marks| - 1].message) else None)
            && (h.circuitOpenUntil ==
                if FailureRun(marks) > 0 then Some(marks[|marks| - 1].at + 15 * SECOND) else None)
            && (h.rateLimitedUntil ==
                match LastRateLimit(marks) case Some(t) => Some(t + 30 * SECOND) case None => None)
  {
    if marks != [] {
      HealthIsHistory(enabled, marks[..|marks| - 1]);
    }
  }

  /** A corollary: the two counters are never both positive. */
  lemma CountersExclude(enabled: bool, marks: seq<Mark>)
    ensures var h := After(NewRow(enabled), marks);
            && !(h.backoffLevel > 0 && h.consecutiveUseCount > 0)
            && (marks != [] ==> h.backoffLevel > 0 || h.consecutiveUseCount > 0)
            && (h.lastError.Some? <==> h.backoffLevel > 0)
            && (h.circuitOpenUntil.Some? <==> h.backoffLevel > 0)
  {
    HealthIsHistory(enabled, marks);
  }

  /**
   An account is selectable exactly when it is enabled, 15 seconds have passed since a trailing
   failure, and 30 seconds since the last rate-limit failure after the last success.
   */
  lemma SelectableIsHistory(enabled: bool, marks: seq<Mark>, now: Time)
    ensures Selectable(After(NewRow(enabled), marks), now) <==>
            && enabled
            && (FailureRun(marks) > 0 ==> marks[|marks| - 1].at + 15 * SECOND <= now)
            && (match LastRateLimit(marks) case Some(t) => t + 30 * SECOND <= now case None => true)
  {
    HealthIsHistory(enabled, marks);
  }

  /** How long a failure keeps its account out of selection. */
  function Cooldown(m: Mark): Time {
    if RateLimited(m) then 30 * SECOND else 15 * SECOND
  }

  predicate CooledDown(marks: seq<Mark>, now: Time) {
    forall i | |marks| - FailureRun(marks) <= i < |marks| :: marks[i].at + Cooldown(marks[i]) <= now
  }

  predicate Monotone(marks: seq<Mark>) {
    forall i, j | 0 <= i < j < |marks| :: marks[i].at <= marks[j].at
  }

  /**
   With a monotone clock an account is selectable exactly when it is enabled and past every failure
   since its last success, by 30 seconds for a rate limit and by 15 for any other.
   */
  lemma SelectableIsCooledDown(enabled: bool, marks: seq<Mark>, now: Time)
    requires Monotone(marks)
    ensures Selectable(After(NewRow(enabled), marks), now) <==> enabled && CooledDown(marks, now)
  {
    SelectableIsHistory(enabled, marks, now);
    var k := LastRateLimitIsLast(marks);
    if Selectable(After(NewRow(enabled), marks), now) {
      forall i | |marks| - FailureRun(marks) <= i < |marks|
        ensures marks[i].at + Cooldown(marks[i]) <= now
      {
        assert marks[i].at <= marks[|marks| - 1].at;
        if RateLimited(marks[i]) {
          assert i <= k;
        }
      }
    }
  }
}
