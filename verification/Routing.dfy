/**
 Failover routing of one request: candidates, then the providers that match each, then the accounts
 of each provider, until an attempt decides. What the network, the clock, the cache and the
 translators say is one arbitrary `Environment`.
 */
module Routing {
  import opened Options
  import opened Strings
  import opened Sorting
  import opened AccountHealth
  import opened RoundRobin
  import Retry

  // ----- rows and the environment -----

  datatype Provider = Provider(
    id: string,
    provider: string,
    authType: string,
    modelPrefix: string,
    defaultModel: Option<string>,
    priority: int,
    nearLimit: bool,
    roundRobin: bool)

  datatype Account = Account(id: string, connection: string, priority: int, createdAt: Time)

  /** What the adapters make of a successful body; `Failed` is a Responses body that reports an error. */
  datatype Adapted = Broken(error: string) | Failed(message: string) | Body

  /** What one upstream call comes to after its own retries. */
  datatype Answer =
    | ConnError(message: string)
    | Streaming(status: nat)
    | Collected(status: nat, transcript: string, adapted: Adapted)
    | Buffered(status: nat, text: string, adapted: Adapted)

  /**
   `clock(n)` is the n-th reading of the clock; `cached(k)` and `answer(k)` are what the cache and the
   upstream say to the k-th target; `prepared(n, id)` says whether the account's secret was there, or
   could be refreshed, for the list read at reading n.
   */
  datatype Environment = Environment(
    endpoint: string,
    providers: seq<Provider>,
    accounts: seq<Account>,
    clock: nat -> Time,
    cached: nat -> Option<nat>,
    answer: nat -> Answer,
    prepared: (nat, string) -> bool,
    serves: (Provider, Option<Account>) -> bool,
    routes: Provider -> bool,
    translates: (Provider, string) -> bool,
    inferred: string -> Option<string>,
    anthropicCompatible: Provider -> bool)

  /** What a run reads and changes. */
  datatype World = World(
    providers: map<string, Health>,
    accounts: map<string, Health>,
    counters: Counters,
    ticks: nat,
    calls: nat)

  // ----- which providers a candidate is sent to -----

  /** `split_model`: prefix and model, no prefix for a bare name, an error if either side is empty. */
  function SplitModel(value: string): Option<(string, string)> {
    var k := FirstSlash(value);
    if k == |value| then Some(("", value))
    else if k == 0 || k + 1 == |value| then None
    else Some((value[..k], value[k + 1..]))
  }

  /** The providers `route` starts from. */
  function Available(env: Environment, providers: seq<Provider>, health: map<string, Health>, now: Time)
    : seq<Provider>
  {
    if providers == [] then []
    else
      var p := providers[0];
      var rest := Available(env, providers[1..], health, now);
      if p.id in health && ProviderAvailable(health[p.id], now) && env.routes(p) then [p] + rest else rest
  }

  function WithPrefix(providers: seq<Provider>, prefix: string): seq<Provider> {
    if providers == [] then []
    else
      var rest := WithPrefix(providers[1..], prefix);
      if providers[0].modelPrefix == prefix || providers[0].provider == prefix then [providers[0]] + rest else rest
  }

  predicate GuessedFor(env: Environment, p: Provider, model: string) {
    var inferred := env.inferred(model);
    || (inferred.Some?
        && (p.provider == inferred.value || p.modelPrefix == inferred.value
            || (inferred.value == "anthropic" && env.anthropicCompatible(p))))
    || (p.defaultModel.Some? && (p.defaultModel.value == model || EndsWith(p.defaultModel.value, "/" + model)))
  }

  function Guessed(env: Environment, providers: seq<Provider>, model: string): seq<Provider> {
    if providers == [] then []
    else
      var rest := Guessed(env, providers[1..], model);
      if GuessedFor(env, providers[0], model) then [providers[0]] + rest else rest
  }

  /** `find_providers_for_bare_model`. */
  function ForBareModel(env: Environment, providers: seq<Provider>, model: string): seq<Provider> {
    var guessed := Guessed(env, providers, model);
    if guessed == [] && env.inferred(model).None? then providers else guessed
  }

  function Matching(env: Environment, providers: seq<Provider>, prefix: string, model: string): seq<Provider> {
    if prefix == "" then ForBareModel(env, providers, model) else WithPrefix(providers, prefix)
  }

  /** Providers near their rate limit come last; within each half the priority decides. */
  function ProviderKey(p: Provider): Key {
    Key(if p.nearLimit then 1 else 0, p.priority)
  }

  function AccountKey(a: Account): Key {
    Key(a.priority, a.createdAt)
  }

  // ----- the targets of one provider -----

  function SelectableAccounts(accounts: seq<Account>, health: map<string, Health>, connection: string, now: Time)
    : seq<Account>
  {
    if accounts == [] then []
    else
      var a := accounts[0];
      var rest := SelectableAccounts(accounts[1..], health, connection, now);
      if a.connection == connection && a.id in health && Selectable(health[a.id], now) then [a] + rest else rest
  }

  predicate HasAccounts(accounts: seq<Account>, connection: string) {
    exists i | 0 <= i < |accounts| :: accounts[i].connection == connection
  }

  /** `list_selectable_provider_accounts` at the next reading of the clock. */
  function Listed(env: Environment, w: World, p: Provider): seq<Account> {
    SortBy(SelectableAccounts(env.accounts, w.accounts, p.id, env.clock(w.ticks)), AccountKey)
  }

  predicate Rotates(p: Provider, listed: seq<Account>) {
    p.roundRobin && |listed| > 1
  }

  function Ordered(w: World, p: Provider, listed: seq<Account>): seq<Account> {
    if Rotates(p, listed) then Order(w.counters, Turn(ConnectionKey(p.id), listed)) else listed
  }

  /** The accounts that could be prepared and serve the upstream endpoint. */
  function Usable(env: Environment, p: Provider, accounts: seq<Account>, tick: nat): seq<Option<Account>> {
    if accounts == [] then []
    else
      var rest := Usable(env, p, accounts[1..], tick);
      if env.prepared(tick, accounts[0].id) && env.serves(p, Some(accounts[0]))
      then [Some(accounts[0])] + rest else rest
  }

  /** A connection without any account is its own target, unless it needs one. */
  function Bare(env: Environment, p: Provider): seq<Option<Account>> {
    if ToAsciiLower(p.authType) == "oauth" || ToAsciiLower(p.provider) == "custom" then []
    else if HasAccounts(env.accounts, p.id) || !env.serves(p, None) then []
    else [None]
  }

  /** `execution_targets`. */
  function Targets(env: Environment, w: World, p: Provider): seq<Option<Account>> {
    var listed := Listed(env, w, p);
    if listed == [] then Bare(env, p) else Usable(env, p, Ordered(w, p, listed), w.ticks)
  }

  function AfterListing(env: Environment, w: World, p: Provider): World {
    var listed := Listed(env, w, p);
    w.(ticks := w.ticks + 1,
       counters := if Rotates(p, listed) then Advanced(w.counters, ConnectionKey(p.id)) else w.counters)
  }

  // ----- one attempt -----

  datatype Reply = CacheHit(status: nat) | Answered(answer: Answer)

  datatype Attempt = Attempt(
    candidate: nat,
    model: string,
    provider: Provider,
    account: Option<Account>,
    position: nat,
    startedAt: Time,
    providerMarkAt: Time,
    accountMarkAt: Time,
    reply: Reply)

  datatype Entry = Entry(provider: string, model: string, status: nat, body: string, account: Option<string>)

  predicate FallbackError(status: nat, body: string) {
    var s := if 100 <= status <= 999 then status else 502;
    s == 429 || 500 <= s < 600
    || Contains(ToAsciiLower(body), "rate limit") || Contains(ToAsciiLower(body), "quota")
  }

  /** The mark an attempt leaves: none for a cache hit, nor for a body the adapters break on. */
  function MarkOf(reply: Reply, at: Time): Option<Mark> {
    match reply
    case CacheHit(_) => None
    case Answered(ConnError(message)) => Some(Failure(message, at))
    case Answered(Streaming(_)) => Some(Success(at))
    case Answered(Collected(_, _, adapted)) => AdaptedMark(adapted, at)
    case Answered(Buffered(status, text, adapted)) =>
      if Retry.IsSuccess(status) then AdaptedMark(adapted, at) else Some(Failure(text, at))
  }

  function AdaptedMark(adapted: Adapted, at: Time): Option<Mark> {
    match adapted
    case Broken(_) => None
    case Failed(message) => Some(Failure(message, at))
    case Body => Some(Success(at))
  }

  /** Whether an attempt ends the run: everything except a connection error and a fallback status. */
  predicate Decides(reply: Reply) {
    match reply
    case CacheHit(_) => true
    case Answered(ConnError(_)) => false
    case Answered(Buffered(status, text, _)) => Retry.IsSuccess(status) || !FallbackError(status, text)
    case Answered(_) => true
  }

  function AccountId(account: Option<Account>): Option<string> {
    match account
    case Some(a) => Some(a.id)
    case None => None
  }

  function EntryOf(a: Attempt): Option<Entry> {
    EntryFor(a.provider, a.model, a.account, a.reply)
  }

  /** The line an attempt adds to `tried`; a body the adapters cannot read adds none. */
  function EntryFor(p: Provider, model: string, target: Option<Account>, reply: Reply): Option<Entry> {
    var account := AccountId(target);
    match reply
    case CacheHit(status) => Some(Entry(p.id, model, status, "[response-cache hit]", account))
    case Answered(ConnError(message)) => Some(Entry(p.id, model, 502, message, account))
    case Answered(Streaming(status)) => Some(Entry(p.id, model, status, "[streaming]", account))
    case Answered(Collected(status, transcript, adapted)) =>
      if adapted.Broken? then None else Some(Entry(p.id, model, status, transcript, account))
    case Answered(Buffered(status, text, adapted)) =>
      if Retry.IsSuccess(status) && adapted.Broken? then None else Some(Entry(p.id, model, status, text, account))
  }

  /** One provider visited for one candidate. */
  datatype Visit =
    | Invalid(candidate: nat, model: string)
    | Unresolved(candidate: nat, wanted: string, raw: string)
    | At(candidate: nat, model: string, raw: string, provider: Provider)

  function Begin(env: Environment, w: World, v: Visit, target: Option<Account>, position: nat): Attempt
    requires v.At?
  {
    var k := w.calls + 1;
    Attempt(v.candidate, v.model, v.provider, target, position,
            env.clock(w.ticks), env.clock(w.ticks + 1), env.clock(w.ticks + 2),
            if env.cached(k).Some? then CacheHit(env.cached(k).value) else Answered(env.answer(k)))
  }

  function Recorded(rows: map<string, Health>, id: string, mark: Option<Mark>): map<string, Health> {
    match mark
    case Some(m) => Marked(rows, id, m)
    case None => rows
  }

  function RecordedFor(rows: map<string, Health>, account: Option<Account>, mark: Option<Mark>): map<string, Health> {
    if account.Some? then Recorded(rows, account.value.id, mark) else rows
  }

  function AfterAttempt(w: World, a: Attempt): World {
    World(
      Recorded(w.providers, a.provider.id, MarkOf(a.reply, a.providerMarkAt)),
      RecordedFor(w.accounts, a.account, MarkOf(a.reply, a.accountMarkAt)),
      w.counters, w.ticks + 3, w.calls + 1)
  }

  // ----- a run -----

  datatype Event =
    | Skipped(candidate: nat, entry: Entry)
    | Aborted(visit: Visit)
    | Tried(attempt: Attempt)

  predicate Decisive(e: Event) {
    e.Aborted? || (e.Tried? && Decides(e.attempt.reply))
  }

  datatype Progress = Progress(events: seq<Event>, world: World, stopped: bool)

  /** One stretch of a run and, unless it ended the run, the next. */
  function Then(p: Progress, q: Progress): Progress {
    if p.stopped then p else Progress(p.events + q.events, q.world, q.stopped)
  }

  function RunTarget(env: Environment, w: World, v: Visit, target: Option<Account>, position: nat): (run: Progress)
    requires v.At?
    ensures run.stopped ==> run.events != []
  {
    var a := Begin(env, w, v, target, position);
    Progress([Tried(a)], AfterAttempt(w, a), Decides(a.reply))
  }

  function RunTargets(env: Environment, w: World, v: Visit, targets: seq<Option<Account>>, from: nat): (run: Progress)
    requires v.At? && from <= |targets|
    ensures run.stopped ==> run.events != []
    decreases |targets| - from
  {
    if from == |targets| then Progress([], w, false)
    else
      var first := RunTarget(env, w, v, targets[from], from);
      if first.stopped then first else Then(first, RunTargets(env, first.world, v, targets, from + 1))
  }

  function NotFound(env: Environment, v: Visit): Event
    requires v.Unresolved?
  {
    Skipped(v.candidate, Entry("unresolved:" + v.wanted, v.raw, 404,
                               "no provider found for model prefix and endpoint " + env.endpoint, None))
  }

  function RunVisit(env: Environment, w: World, v: Visit): (run: Progress)
    ensures run.stopped ==> run.events != []
  {
    match v
    case Invalid(_, _) => Progress([Aborted(v)], w, true)
    case Unresolved(_, _, _) => Progress([NotFound(env, v)], w, false)
    case At(_, _, raw, p) =>
      if !env.translates(p, raw) then Progress([Aborted(v)], w, true)
      else RunTargets(env, AfterListing(env, w, p), v, Targets(env, w, p), 0)
  }

  function RunVisits(env: Environment, w: World, visits: seq<Visit>): (run: Progress)
    ensures run.stopped ==> run.events != []
    decreases |visits|
  {
    if visits == [] then Progress([], w, false)
    else
      var first := RunVisit(env, w, visits[0]);
      if first.stopped then first else Then(first, RunVisits(env, first.world, visits[1..]))
  }

  /** The visits of one candidate, in the order of the sort. */
  function CandidateVisits(env: Environment, providers: seq<Provider>, candidate: nat, model: string): seq<Visit> {
    match SplitModel(model)
    case None => [Invalid(candidate, model)]
    case Some((prefix, raw)) =>
      var matching := SortBy(Matching(env, providers, prefix, raw), ProviderKey);
      if matching == [] then [Unresolved(candidate, if prefix == "" then raw else prefix, raw)]
      else AtEach(candidate, model, raw, matching)
  }

  function AtEach(candidate: nat, model: string, raw: string, providers: seq<Provider>): (visits: seq<Visit>)
    ensures |visits| == |providers|
    ensures forall i | 0 <= i < |visits| :: visits[i] == At(candidate, model, raw, providers[i])
  {
    if providers == [] then []
    else [At(candidate, model, raw, providers[0])] + AtEach(candidate, model, raw, providers[1..])
  }

  /** The visits of each candidate. */
  function Plan(env: Environment, providers: seq<Provider>, models: seq<string>): nat -> seq<Visit> {
    (i: nat) => if i < |models| then CandidateVisits(env, providers, i, models[i]) else []
  }

  function Flatten(plan: nat -> seq<Visit>, from: nat, n: nat): seq<Visit>
    requires from <= n
    decreases n - from
  {
    if from == n then [] else plan(from) + Flatten(plan, from + 1, n)
  }

  function Entries(events: seq<Event>): seq<Entry> {
    if events == [] then []
    else
      var front := Entries(events[..|events| - 1]);
      match events[|events| - 1]
      case Skipped(_, entry) => front + [entry]
      case Aborted(_) => front
      case Tried(a) => if EntryOf(a).Some? then front + [EntryOf(a).value] else front
  }

  lemma {:induction false} EntriesAppend(a: seq<Event>, b: seq<Event>)
    ensures Entries(a + b) == Entries(a) + Entries(b)
  {
    if b == [] {
      assert a + b == a;
    } else {
      EntriesAppend(a, b[..|b| - 1]);
      assert (a + b)[..|a + b| - 1] == a + b[..|b| - 1];
    }
  }

  lemma {:induction false} UsableFrom(env: Environment, p: Provider, accounts: seq<Account>, tick: nat, i: nat)
    requires i < |accounts|
    ensures Usable(env, p, accounts[i..], tick) ==
      (if env.prepared(tick, accounts[i].id) && env.serves(p, Some(accounts[i])) then [Some(accounts[i])] else [])
      + Usable(env, p, accounts[i + 1..], tick)
  {
    assert accounts[i..][1..] == accounts[i + 1..];
  }

  // ----- the routing service -----

  datatype Routed = NoProviders | Refused | Decided(reply: Reply) | Exhausted(last: Option<Entry>)

  function LastOf(tried: seq<Entry>): Option<Entry> {
    if tried == [] then None else Some(tried[|tried| - 1])
  }

  /** How a stopped run ended. */
  function EndOf(p: Progress): Option<Routed> {
    if !p.stopped || p.events == [] then None
    else
      match p.events[|p.events| - 1]
      case Tried(a) => Some(Decided(a.reply))
      case _ => Some(Refused)
  }

  /** What the caller of `route` gets: what ended the run, or the last entry of `tried`. */
  function ResultOf(p: Progress): Routed {
    match EndOf(p)
    case Some(end) => end
    case None => Exhausted(LastOf(Entries(p.events)))
  }

  /** The providers in the running, read once at the start. */
  function Starting(env: Environment, w: World): seq<Provider> {
    Available(env, env.providers, w.providers, env.clock(w.ticks))
  }

  function Tick(w: World): World {
    w.(ticks := w.ticks + 1)
  }

  /** The whole request, once some provider is available. */
  function Run(env: Environment, w: World, models: seq<string>): Progress {
    RunVisits(env, Tick(w), Flatten(Plan(env, Starting(env, w), models), 0, |models|))
  }

  function Line(entry: Option<Entry>): seq<Entry> {
    if entry.Some? then [entry.value] else []
  }

  lemma OneAttempt(env: Environment, w: World, v: Visit, target: Option<Account>, position: nat)
    requires v.At?
    ensures var run := RunTarget(env, w, v, target, position);
            var a := Begin(env, w, v, target, position);
            && Entries(run.events) == Line(EntryFor(v.provider, v.model, target, a.reply))
            && EndOf(run) == if Decides(a.reply) then Some(Decided(a.reply)) else None
  {
    var e := Tried(Begin(env, w, v, target, position));
    assert [e][..0] == [];
  }

  lemma TargetsStep(env: Environment, w: World, v: Visit, targets: seq<Option<Account>>, i: nat, done: seq<Event>)
    requires v.At? && i < |targets|
    ensures var here := Then(Progress(done, w, false), RunTargets(env, w, v, targets, i));
            var first := RunTarget(env, w, v, targets[i], i);
            here == if first.stopped then Progress(done + first.events, first.world, true)
                    else Then(Progress(done + first.events, first.world, false),
                              RunTargets(env, first.world, v, targets, i + 1))
  {
    var first := RunTarget(env, w, v, targets[i], i);
    if !first.stopped {
      Assoc(done, first.events, RunTargets(env, first.world, v, targets, i + 1).events);
    }
  }

  /** A run over the candidates `from` to `n`, whose visits `plan` names. */
  function RunPlan(env: Environment, w: World, plan: nat -> seq<Visit>, from: nat, n: nat): (run: Progress)
    requires from <= n
    ensures run.stopped ==> run.events != []
    decreases n - from
  {
    if from == n then Progress([], w, false)
    else
      var first := RunVisits(env, w, plan(from));
      if first.stopped then first else Then(first, RunPlan(env, first.world, plan, from + 1, n))
  }

  lemma PlanStep(env: Environment, w: World, plan: nat -> seq<Visit>, i: nat, n: nat, done: seq<Event>)
    requires i < n
    ensures var here := Then(Progress(done, w, false), RunPlan(env, w, plan, i, n));
            var first := RunVisits(env, w, plan(i));
            here == if first.stopped then Progress(done + first.events, first.world, true)
                    else Then(Progress(done + first.events, first.world, false),
                              RunPlan(env, first.world, plan, i + 1, n))
  {
    var first := RunVisits(env, w, plan(i));
    if !first.stopped {
      Assoc(done, first.events, RunPlan(env, first.world, plan, i + 1, n).events);
    }
  }

  lemma {:induction false} PlanIsVisits(env: Environment, w: World, plan: nat -> seq<Visit>, i: nat, n: nat)
    requires i <= n
    ensures RunPlan(env, w, plan, i, n) == RunVisits(env, w, Flatten(plan, i, n))
    decreases n - i
  {
    if i < n {
      RunAppend(env, w, plan(i), Flatten(plan, i + 1, n));
      PlanIsVisits(env, RunVisits(env, w, plan(i)).world, plan, i + 1, n);
    }
  }

  lemma PlanIsRun(env: Environment, w: World, available: seq<Provider>, models: seq<string>)
    returns (plan: nat -> seq<Visit>, run: Progress)
    requires available == Starting(env, w)
    ensures forall i: nat | i < |models| :: plan(i) == CandidateVisits(env, available, i, models[i])
    ensures RunPlan(env, Tick(w), plan, 0, |models|) == run == Run(env, w, models)
  {
    plan, run := Plan(env, available, models), Run(env, w, models);
    PlanIsVisits(env, Tick(w), plan, 0, |models|);
  }

  /** The two visits that reach no provider. */
  lemma OneVisit(env: Environment, w: World, v: Visit)
    requires !v.At?
    ensures var run := RunVisits(env, w, [v]);
            && run.world == w
            && Entries(run.events) == (if v.Invalid? then [] else [NotFound(env, v).entry])
            && EndOf(run) == if v.Invalid? then Some(Refused) else None
  {
    var run := RunVisit(env, w, v);
    assert [v][1..] == [];
    assert run.events[..0] == [];
    assert run.events + [] == run.events;
  }

  /** What a stretch adds to `tried`, and that it is the stretch that ends the run. */
  lemma LastEnds(done: seq<Event>, next: Progress)
    requires next.stopped ==> next.events != []
    ensures Entries(done + next.events) == Entries(done) + Entries(next.events)
    ensures EndOf(Progress(done + next.events, next.world, next.stopped)) == EndOf(next)
    ensures EndOf(next).Some? <==> next.stopped
  {
    EntriesAppend(done, next.events);
  }

  lemma VisitsStep(env: Environment, w: World, v: Visit, rest: seq<Visit>, done: seq<Event>)
    ensures var here := Then(Progress(done, w, false), RunVisits(env, w, [v] + rest));
            var first := RunVisit(env, w, v);
            here == if first.stopped then Progress(done + first.events, first.world, true)
                    else Then(Progress(done + first.events, first.world, false), RunVisits(env, first.world, rest))
  {
    var first := RunVisit(env, w, v);
    assert ([v] + rest)[1..] == rest;
    if !first.stopped {
      Assoc(done, first.events, RunVisits(env, first.world, rest).events);
    }
  }

  lemma {:induction false} RunAppend(env: Environment, w: World, a: seq<Visit>, b: seq<Visit>)
    ensures RunVisits(env, w, a + b) == Then(RunVisits(env, w, a), RunVisits(env, RunVisits(env, w, a).world, b))
    decreases |a|
  {
    if a == [] {
      assert a + b == b;
      assert [] + RunVisits(env, w, b).events == RunVisits(env, w, b).events;
    } else {
      var first := RunVisit(env, w, a[0]);
      assert (a + b)[1..] == a[1..] + b;
      if !first.stopped {
        RunAppend(env, first.world, a[1..], b);
        var middle := RunVisits(env, first.world, a[1..]);
        Assoc(first.events, middle.events, RunVisits(env, middle.world, b).events);
      }
    }
  }

  class Router {
    const env: Environment
    const providers: HealthTable
    const accounts: HealthTable
    const rotation: RotationState
    var ticks: nat
    var calls: nat

    ghost predicate Valid()
    {
      providers != accounts
    }

    ghost function State(): World
      reads this, providers, accounts, rotation
    {
      World(providers.rows, accounts.rows, rotation.counters, ticks, calls)
    }

    constructor (env: Environment, providers: HealthTable, accounts: HealthTable, rotation: RotationState)
      requires providers != accounts
      ensures Valid()
      ensures this.env == env && this.providers == providers && this.accounts == accounts
      ensures this.rotation == rotation && ticks == calls == 0
    {
      this.env, this.providers, this.accounts, this.rotation := env, providers, accounts, rotation;
      ticks, calls := 0, 0;
    }

    /**
     The loop of `execution_targets`: an account that cannot be prepared, or does not serve the endpoint, is left out.
     */
    method UsableTargets(p: Provider, ordered: seq<Account>, tick: nat) returns (targets: seq<Option<Account>>)
      ensures targets == Usable(env, p, ordered, tick)
    {
      targets := [];
      for i := 0 to |ordered|
        invariant Usable(env, p, ordered, tick) == targets + Usable(env, p, ordered[i..], tick)
      {
        UsableFrom(env, p, ordered, tick, i);
        if env.prepared(tick, ordered[i].id) {
          if env.serves(p, Some(ordered[i])) {
            targets := targets + [Some(ordered[i])];
          }
        }
      }
    }

    /** `execution_targets`. */
    method ExecutionTargets(p: Provider) returns (targets: seq<Option<Account>>)
      requires Valid()
      modifies this, rotation
      ensures targets == Targets(env, old(State()), p)
      ensures State() == AfterListing(env, old(State()), p)
    {
      var tick := ticks;
      ticks := ticks + 1;
      var listed := SortBy(SelectableAccounts(env.accounts, accounts.rows, p.id, env.clock(tick)), AccountKey);
      if listed == [] {
        if ToAsciiLower(p.authType) == "oauth" { return []; }
        if ToAsciiLower(p.provider) == "custom" { return []; }
        if HasAccounts(env.accounts, p.id) { return []; }
        return if env.serves(p, None) then [None] else [];
      }
      var ordered := rotation.OrderProviderAccounts(p.id, listed, p.roundRobin);
      targets := UsableTargets(p, ordered, tick);
    }

    /** Both rows are marked, each at its own reading of the clock. */
    method RecordFailure(p: Provider, account: Option<Account>, message: string, tick: nat)
      requires Valid()
      modifies providers, accounts
      ensures providers.rows == Recorded(old(providers.rows), p.id, Some(Failure(message, env.clock(tick + 1))))
      ensures accounts.rows == RecordedFor(old(accounts.rows), account, Some(Failure(message, env.clock(tick + 2))))
    {
      providers.MarkFailure(p.id, message, env.clock(tick + 1));
      if account.Some? {
        accounts.MarkFailure(account.value.id, message, env.clock(tick + 2));
      }
    }

    method RecordSuccess(p: Provider, account: Option<Account>, tick: nat)
      requires Valid()
      modifies providers, accounts
      ensures providers.rows == Recorded(old(providers.rows), p.id, Some(Success(env.clock(tick + 1))))
      ensures accounts.rows == RecordedFor(old(accounts.rows), account, Some(Success(env.clock(tick + 2))))
    {
      providers.MarkSuccess(p.id, env.clock(tick + 1));
      if account.Some? {
        accounts.MarkSuccess(account.value.id, env.clock(tick + 2));
      }
    }

    /** The body of the innermost loop of `route`: one target, from the cache lookup to the verdict. */
    method AttemptTarget(v: Visit, target: Option<Account>, position: nat)
      returns (entry: Option<Entry>, ended: Option<Routed>)
      requires Valid() && v.At?
      modifies this, providers, accounts
      ensures var run := RunTarget(env, old(State()), v, target, position);
              State() == run.world && Line(entry) == Entries(run.events) && ended == EndOf(run)
    {
      OneAttempt(env, State(), v, target, position);
      var tick := ticks;
      ticks, calls := ticks + 3, calls + 1;
      var cached := env.cached(calls);
      var decided: Option<Reply>;
      if cached.Some? {
        decided := Some(CacheHit(cached.value));
        entry := Some(Entry(v.provider.id, v.model, cached.value, "[response-cache hit]", AccountId(target)));
      } else {
        entry, decided := Judge(v.provider, v.model, target, env.answer(calls), tick);
      }
      ended := if decided.Some? then Some(Decided(decided.value)) else None;
    }

    /** Marks the rows, records the attempt and says whether the run ends here. */
    method Judge(p: Provider, model: string, target: Option<Account>, answer: Answer, tick: nat)
      returns (entry: Option<Entry>, decided: Option<Reply>)
      requires Valid()
      modifies providers, accounts
      ensures providers.rows == Recorded(old(providers.rows), p.id, MarkOf(Answered(answer), env.clock(tick + 1)))
      ensures accounts.rows == RecordedFor(old(accounts.rows), target, MarkOf(Answered(answer), env.clock(tick + 2)))
      ensures entry == EntryFor(p, model, target, Answered(answer))
      ensures decided == if Decides(Answered(answer)) then Some(Answered(answer)) else None
    {
      var account := AccountId(target);
      match answer {
        case ConnError(message) =>
          RecordFailure(p, target, message, tick);
          return Some(Entry(p.id, model, 502, message, account)), None;
        case Streaming(status) =>
          RecordSuccess(p, target, tick);
          return Some(Entry(p.id, model, status, "[streaming]", account)), Some(Answered(answer));
        case Collected(status, transcript, adapted) =>
          entry := Adapt(p, model, target, status, transcript, adapted, tick);
          return entry, Some(Answered(answer));
        case Buffered(status, text, adapted) =>
          if 200 <= status < 300 {
            entry := Adapt(p, model, target, status, text, adapted, tick);
            return entry, Some(Answered(answer));
          }
          RecordFailure(p, target, text, tick);
          entry := Some(Entry(p.id, model, status, text, account));
          if FallbackError(status, text) { return entry, None; }
          return entry, Some(Answered(answer));
      }
    }

    /** A successful body: left unmarked if the adapters break on it, a failure if it reports one. */
    method Adapt(p: Provider, model: string, target: Option<Account>, status: nat, text: string, adapted: Adapted,
                 tick: nat)
      returns (entry: Option<Entry>)
      requires Valid()
      modifies providers, accounts
      ensures providers.rows == Recorded(old(providers.rows), p.id, AdaptedMark(adapted, env.clock(tick + 1)))
      ensures accounts.rows == RecordedFor(old(accounts.rows), target, AdaptedMark(adapted, env.clock(tick + 2)))
      ensures entry == if adapted.Broken? then None else Some(Entry(p.id, model, status, text, AccountId(target)))
    {
      match adapted {
        case Broken(_) => return None;
        case Failed(message) => RecordFailure(p, target, message, tick);
        case Body => RecordSuccess(p, target, tick);
      }
      return Some(Entry(p.id, model, status, text, AccountId(target)));
    }

    /** The loop over the targets of one provider. */
    method TryTargets(v: Visit, targets: seq<Option<Account>>) returns (tried: seq<Entry>, ended: Option<Routed>)
      requires Valid() && v.At?
      modifies this, providers, accounts
      ensures var run := RunTargets(env, old(State()), v, targets, 0);
              State() == run.world && tried == Entries(run.events) && ended == EndOf(run)
    {
      tried := [];
      ghost var done: seq<Event>, whole := [], RunTargets(env, State(), v, targets, 0);
      assert [] + whole.events == whole.events;
      for i := 0 to |targets|
        invariant tried == Entries(done)
        invariant Then(Progress(done, State(), false), RunTargets(env, State(), v, targets, i)) == whole
      {
        TargetsStep(env, State(), v, targets, i, done);
        ghost var first := RunTarget(env, State(), v, targets[i], i);
        var entry, end := AttemptTarget(v, targets[i], i);
        LastEnds(done, first);
        done := done + first.events;
        tried := tried + Line(entry);
        if end.Some? { return tried, end; }
      }
      assert done + [] == done;
      ended := None;
    }

    /** One provider for one candidate; a request body that cannot be translated ends the whole run. */
    method TryProvider(v: Visit) returns (tried: seq<Entry>, ended: Option<Routed>)
      requires Valid() && v.At?
      modifies this, providers, accounts, rotation
      ensures var run := RunVisit(env, old(State()), v);
              State() == run.world && tried == Entries(run.events) && ended == EndOf(run)
    {
      if !env.translates(v.provider, v.raw) {
        assert [Aborted(v)][..0] == [];
        return [], Some(Refused);
      }
      var targets := ExecutionTargets(v.provider);
      tried, ended := TryTargets(v, targets);
    }

    /** The loop over the providers that match one candidate. */
    method TryProviders(candidate: nat, model: string, raw: string, matching: seq<Provider>)
      returns (tried: seq<Entry>, ended: Option<Routed>)
      requires Valid()
      modifies this, providers, accounts, rotation
      ensures var run := RunVisits(env, old(State()), AtEach(candidate, model, raw, matching));
              State() == run.world && tried == Entries(run.events) && ended == EndOf(run)
    {
      tried := [];
      ghost var visits := AtEach(candidate, model, raw, matching);
      ghost var done: seq<Event>, whole := [], RunVisits(env, State(), visits);
      assert [] + whole.events == whole.events;
      for j := 0 to |matching|
        invariant tried == Entries(done)
        invariant Then(Progress(done, State(), false), RunVisits(env, State(), visits[j..])) == whole
      {
        assert visits[j..] == [visits[j]] + visits[j + 1..];
        VisitsStep(env, State(), visits[j], visits[j + 1..], done);
        ghost var first := RunVisit(env, State(), visits[j]);
        var more, end := TryProvider(At(candidate, model, raw, matching[j]));
        LastEnds(done, first);
        done := done + first.events;
        tried := tried + more;
        if end.Some? { return tried, end; }
      }
      assert done + [] == done;
      ended := None;
    }

    /** One candidate: split, matched, sorted, and tried. */
    method TryCandidate(available: seq<Provider>, candidate: nat, model: string)
      returns (tried: seq<Entry>, ended: Option<Routed>)
      requires Valid()
      modifies this, providers, accounts, rotation
      ensures var run := RunVisits(env, old(State()), CandidateVisits(env, available, candidate, model));
              State() == run.world && tried == Entries(run.events) && ended == EndOf(run)
    {
      var split := SplitModel(model);
      if split.None? {
        OneVisit(env, State(), Invalid(candidate, model));
        return [], Some(Refused);
      }
      var (prefix, raw) := split.value;
      var matching := SortBy(Matching(env, available, prefix, raw), ProviderKey);
      if matching == [] {
        var wanted := if prefix == "" then raw else prefix;
        OneVisit(env, State(), Unresolved(candidate, wanted, raw));
        return [Entry("unresolved:" + wanted, raw, 404,
                      "no provider found for model prefix and endpoint " + env.endpoint, None)], None;
      }
      tried, ended := TryProviders(candidate, model, raw, matching);
    }

    /** The loop over the candidate models; `plan` names the visits of each of them. */
    method TryCandidates(available: seq<Provider>, models: seq<string>, ghost plan: nat -> seq<Visit>)
      returns (tried: seq<Entry>, ended: Option<Routed>)
      requires Valid()
      requires forall i: nat | i < |models| :: plan(i) == CandidateVisits(env, available, i, models[i])
      modifies this, providers, accounts, rotation
      ensures var run := RunPlan(env, old(State()), plan, 0, |models|);
              State() == run.world && tried == Entries(run.events) && ended == EndOf(run)
    {
      tried := [];
      ghost var done: seq<Event>, whole := [], RunPlan(env, State(), plan, 0, |models|);
      assert [] + whole.events == whole.events;
      for i := 0 to |models|
        invariant tried == Entries(done)
        invariant Then(Progress(done, State(), false), RunPlan(env, State(), plan, i, |models|)) == whole
      {
        PlanStep(env, State(), plan, i, |models|, done);
        ghost var first := RunVisits(env, State(), plan(i));
        var more, end := TryCandidate(available, i, models[i]);
        LastEnds(done, first);
        done := done + first.events;
        tried := tried + more;
        if end.Some? { return tried, end; }
      }
      assert done + [] == done;
      ended := None;
    }

    /** `route`, once the alias is resolved and the combo expanded into candidate models. */
    method Route(models: seq<string>) returns (tried: seq<Entry>, result: Routed)
      requires Valid()
      modifies this, providers, accounts, rotation
      ensures Starting(env, old(State())) == [] ==>
        State() == Tick(old(State())) && tried == [] && result == NoProviders
      ensures Starting(env, old(State())) != [] ==>
        var run := Run(env, old(State()), models);
        State() == run.world && tried == Entries(run.events) && result == ResultOf(run)
    {
      ghost var before := State();
      var available := Available(env, env.providers, providers.rows, env.clock(ticks));
      assert available == Starting(env, before);
      ticks := ticks + 1;
      if available == [] { return [], NoProviders; }
      ghost var plan, run := PlanIsRun(env, before, available, models);
      assert State() == Tick(before);
      var ended;
      tried, ended := TryCandidates(available, models, plan);
      result := if ended.Some? then ended.value else Exhausted(LastOf(tried));
    }
  }
}
