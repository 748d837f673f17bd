/**
 Failover is a search for the first decisive target: the nested loops, which change what later
 selections read, find what a full schedule of all targets has first.
 */
module FailoverSearch {
  import opened Options
  import opened Strings
  import opened Sorting
  import opened Routing
  import Retry
  import opened AccountHealth

  // ----- the full schedule: nothing is decisive -----

  datatype Schedule = Schedule(events: seq<Event>, world: World)

  function AllTargets(env: Environment, w: World, v: Visit, targets: seq<Option<Account>>, from: nat): Schedule
    requires v.At? && from <= |targets|
    decreases |targets| - from
  {
    if from == |targets| then Schedule([], w)
    else
      var a := Begin(env, w, v, targets[from], from);
      var rest := AllTargets(env, AfterAttempt(w, a), v, targets, from + 1);
      Schedule([Tried(a)] + rest.events, rest.world)
  }

  function AllOf(env: Environment, w: World, v: Visit): Schedule {
    match v
    case Invalid(_, _) => Schedule([Aborted(v)], w)
    case Unresolved(_, _, _) => Schedule([NotFound(env, v)], w)
    case At(_, _, raw, p) =>
      if !env.translates(p, raw) then Schedule([Aborted(v)], w)
      else AllTargets(env, AfterListing(env, w, p), v, Targets(env, w, p), 0)
  }

  function AllVisits(env: Environment, w: World, visits: seq<Visit>): Schedule
    decreases |visits|
  {
    if visits == [] then Schedule([], w)
    else
      var first := AllOf(env, w, visits[0]);
      var rest := AllVisits(env, first.world, visits[1..]);
      Schedule(first.events + rest.events, rest.world)
  }

  // ----- cutting it at the first decisive event -----

  function FirstDecisive(events: seq<Event>): (k: nat)
    ensures k <= |events|
    ensures forall i | 0 <= i < k :: !Decisive(events[i])
    ensures k < |events| ==> Decisive(events[k])
  {
    if events == [] || Decisive(events[0]) then 0 else 1 + FirstDecisive(events[1..])
  }

  function UpTo(events: seq<Event>): seq<Event> {
    var k := FirstDecisive(events);
    if k < |events| then events[..k + 1] else events
  }

  predicate Ends(events: seq<Event>) {
    FirstDecisive(events) < |events|
  }

  /** A run is the schedule up to its first decisive event, and the whole schedule if it has none. */
  predicate Cuts(run: Progress, all: Schedule) {
    && run.events == UpTo(all.events)
    && (run.stopped <==> Ends(all.events))
    && (!run.stopped ==> run.world == all.world)
  }

  lemma {:induction false} CutAppend(a: seq<Event>, b: seq<Event>)
    ensures FirstDecisive(a + b) == if Ends(a) then FirstDecisive(a) else |a| + FirstDecisive(b)
  {
    if a == [] {
      assert a + b == b;
    } else {
      assert (a + b)[1..] == a[1..] + b;
      if !Decisive(a[0]) { CutAppend(a[1..], b); }
    }
  }

  lemma CutThen(run: Progress, all: Schedule, run': Progress, all': Schedule)
    requires Cuts(run, all) && (!run.stopped ==> Cuts(run', all'))
    ensures Cuts(Then(run, run'), Schedule(all.events + all'.events, all'.world))
  {
    CutAppend(all.events, all'.events);
    var k, k', whole := FirstDecisive(all.events), FirstDecisive(all'.events), all.events + all'.events;
    if run.stopped {
      assert whole[..k + 1] == all.events[..k + 1];
    } else if run'.stopped {
      assert whole[..|all.events| + k' + 1] == all.events + all'.events[..k' + 1];
    }
  }

  lemma CutOne(e: Event, w: World)
    ensures Cuts(Progress([e], w, Decisive(e)), Schedule([e], w))
  {
    assert [e][1..] == [];
    if Decisive(e) { assert [e][..1] == [e]; }
  }

  lemma {:induction false} TargetsAreCut(env: Environment, w: World, v: Visit, targets: seq<Option<Account>>, from: nat)
    requires v.At? && from <= |targets|
    ensures Cuts(RunTargets(env, w, v, targets, from), AllTargets(env, w, v, targets, from))
    decreases |targets| - from
  {
    if from < |targets| {
      var first := RunTarget(env, w, v, targets[from], from);
      var e := Tried(Begin(env, w, v, targets[from], from));
      CutOne(e, first.world);
      TargetsAreCut(env, first.world, v, targets, from + 1);
      CutThen(first, Schedule([e], first.world), RunTargets(env, first.world, v, targets, from + 1),
              AllTargets(env, first.world, v, targets, from + 1));
    }
  }

  lemma VisitIsCut(env: Environment, w: World, v: Visit)
    ensures Cuts(RunVisit(env, w, v), AllOf(env, w, v))
  {
    match v
    case Invalid(_, _) => CutOne(Aborted(v), w);
    case Unresolved(_, _, _) => CutOne(NotFound(env, v), w);
    case At(_, _, raw, p) =>
      CutOne(Aborted(v), w);
      TargetsAreCut(env, AfterListing(env, w, p), v, Targets(env, w, p), 0);
  }

  lemma {:induction false} VisitsAreCut(env: Environment, w: World, visits: seq<Visit>)
    ensures Cuts(RunVisits(env, w, visits), AllVisits(env, w, visits))
    decreases |visits|
  {
    if visits != [] {
      var first, all := RunVisit(env, w, visits[0]), AllOf(env, w, visits[0]);
      VisitIsCut(env, w, visits[0]);
      if !first.stopped { VisitsAreCut(env, first.world, visits[1..]); }
      CutThen(first, all, RunVisits(env, first.world, visits[1..]), AllVisits(env, all.world, visits[1..]));
    }
  }

  /** The visits of a whole request. */
  function VisitsOf(env: Environment, w: World, models: seq<string>): seq<Visit> {
    Flatten(Plan(env, Starting(env, w), models), 0, |models|)
  }

  function ScheduleOf(env: Environment, w: World, models: seq<string>): seq<Event> {
    AllVisits(env, Tick(w), VisitsOf(env, w, models)).events
  }

  predicate FirstDecides(run: Progress, all: seq<Event>) {
    var k := FirstDecisive(all);
    && run.events == (if k < |all| then all[..k + 1] else all)
    && ResultOf(run) == if k == |all| then Exhausted(LastOf(Entries(all)))
                        else if all[k].Aborted? then Refused
                        else Decided(all[k].attempt.reply)
  }

  lemma CutDecides(run: Progress, all: Schedule)
    requires Cuts(run, all)
    ensures FirstDecides(run, all.events)
  {
  }

  /**
   Failover refines "first decisive target": the run is the schedule up to its first decisive event,
   whose outcome it returns; if nothing in the schedule is decisive, everything in it was tried.
   */
  lemma RouteIsFirstDecisive(env: Environment, w: World, models: seq<string>)
    ensures FirstDecides(Run(env, w, models), ScheduleOf(env, w, models))
  {
    VisitsAreCut(env, Tick(w), VisitsOf(env, w, models));
    CutDecides(Run(env, w, models), AllVisits(env, Tick(w), VisitsOf(env, w, models)));
  }

  // ----- the order of the schedule -----

  function CandidateOf(e: Event): nat {
    match e
    case Skipped(candidate, _) => candidate
    case Aborted(v) => v.candidate
    case Tried(a) => a.candidate
  }

  function ProviderOf(e: Event): Option<Provider> {
    match e
    case Skipped(_, _) => None
    case Aborted(v) => if v.At? then Some(v.provider) else None
    case Tried(a) => Some(a.provider)
  }

  /** Away from its rate limit before near it, and then by priority. */
  predicate NotAfter(p: Provider, q: Provider) {
    (!p.nearLimit && q.nearLimit) || (p.nearLimit == q.nearLimit && p.priority <= q.priority)
  }

  /** Earlier candidate first; then the half not near its limit; then the priority; then the account order. */
  predicate Precedes(e: Event, f: Event) {
    || CandidateOf(e) < CandidateOf(f)
    || (CandidateOf(e) == CandidateOf(f) && ProviderOf(e).Some? && ProviderOf(f).Some?
        && NotAfter(ProviderOf(e).value, ProviderOf(f).value)
        && (ProviderOf(e).value.id == ProviderOf(f).value.id ==>
              e.Tried? && f.Tried? && e.attempt.position < f.attempt.position))
  }

  ghost predicate InOrder(events: seq<Event>) {
    forall i, j | 0 <= i < j < |events| :: Precedes(events[i], events[j])
  }

  predicate VisitPrecedes(u: Visit, v: Visit) {
    u.candidate < v.candidate
    || (u.candidate == v.candidate && u.At? && v.At?
        && NotAfter(u.provider, v.provider) && u.provider.id != v.provider.id)
  }

  ghost predicate VisitsOrdered(visits: seq<Visit>) {
    forall i, j | 0 <= i < j < |visits| :: VisitPrecedes(visits[i], visits[j])
  }

  function ProviderId(p: Provider): string {
    p.id
  }

  lemma {:induction false} AvailableIsPart(env: Environment, providers: seq<Provider>, health: map<string, Health>,
                                           now: Time)
    ensures Ids(Available(env, providers, health, now), ProviderId) <= Ids(providers, ProviderId)
    ensures Distinct(providers, ProviderId) ==> Distinct(Available(env, providers, health, now), ProviderId)
  {
    if providers != [] {
      AvailableIsPart(env, providers[1..], health, now);
      var rest := Available(env, providers[1..], health, now);
      assert ([providers[0]] + rest)[1..] == rest;
    }
  }

  lemma {:induction false} WithPrefixIsPart(providers: seq<Provider>, prefix: string)
    ensures Ids(WithPrefix(providers, prefix), ProviderId) <= Ids(providers, ProviderId)
    ensures Distinct(providers, ProviderId) ==> Distinct(WithPrefix(providers, prefix), ProviderId)
  {
    if providers != [] {
      WithPrefixIsPart(providers[1..], prefix);
      var rest := WithPrefix(providers[1..], prefix);
      assert ([providers[0]] + rest)[1..] == rest;
    }
  }

  lemma {:induction false} GuessedIsPart(env: Environment, providers: seq<Provider>, model: string)
    ensures Ids(Guessed(env, providers, model), ProviderId) <= Ids(providers, ProviderId)
    ensures Distinct(providers, ProviderId) ==> Distinct(Guessed(env, providers, model), ProviderId)
  {
    if providers != [] {
      GuessedIsPart(env, providers[1..], model);
      var rest := Guessed(env, providers[1..], model);
      assert ([providers[0]] + rest)[1..] == rest;
    }
  }

  lemma MatchingIsDistinct(env: Environment, providers: seq<Provider>, prefix: string, raw: string)
    requires Distinct(providers, ProviderId)
    ensures var sorted := SortBy(Matching(env, providers, prefix, raw), ProviderKey);
            Distinct(sorted, ProviderId) && Sorted(sorted, ProviderKey)
  {
    WithPrefixIsPart(providers, prefix);
    GuessedIsPart(env, providers, raw);
    SortKeepsIds(Matching(env, providers, prefix, raw), ProviderKey, ProviderId);
    SortSorts(Matching(env, providers, prefix, raw), ProviderKey);
  }

  lemma KeysInOrder(p: Provider, q: Provider)
    requires Leq(ProviderKey(p), ProviderKey(q))
    ensures NotAfter(p, q)
  {
  }

  lemma EachInOrder(candidate: nat, model: string, raw: string, sorted: seq<Provider>)
    requires Distinct(sorted, ProviderId) && Sorted(sorted, ProviderKey)
    ensures var visits := AtEach(candidate, model, raw, sorted);
            VisitsOrdered(visits) && forall v | v in visits :: v.candidate == candidate
  {
    var visits := AtEach(candidate, model, raw, sorted);
    forall i, j | 0 <= i < j < |visits| ensures VisitPrecedes(visits[i], visits[j]) {
      DistinctAt(sorted, ProviderId, i, j);
      KeysInOrder(sorted[i], sorted[j]);
    }
  }

  lemma CandidateInOrder(env: Environment, providers: seq<Provider>, candidate: nat, model: string)
    requires Distinct(providers, ProviderId)
    ensures var visits := CandidateVisits(env, providers, candidate, model);
            VisitsOrdered(visits) && forall v | v in visits :: v.candidate == candidate
  {
    match SplitModel(model)
    case None =>
    case Some((prefix, raw)) =>
      MatchingIsDistinct(env, providers, prefix, raw);
      EachInOrder(candidate, model, raw, SortBy(Matching(env, providers, prefix, raw), ProviderKey));
  }

  ghost predicate PlansInOrder(plan: nat -> seq<Visit>, n: nat) {
    forall i: nat | i < n :: VisitsOrdered(plan(i)) && forall v | v in plan(i) :: v.candidate == i
  }

  lemma {:induction false} FlattenInOrder(plan: nat -> seq<Visit>, from: nat, n: nat)
    requires from <= n && PlansInOrder(plan, n)
    ensures VisitsOrdered(Flatten(plan, from, n))
    ensures forall v | v in Flatten(plan, from, n) :: v.candidate >= from
    decreases n - from
  {
    if from < n {
      FlattenInOrder(plan, from + 1, n);
      var a, b := plan(from), Flatten(plan, from + 1, n);
      assert VisitsOrdered(a) && forall v | v in a :: v.candidate == from;
      forall i, j | 0 <= i < j < |a + b| ensures VisitPrecedes((a + b)[i], (a + b)[j]) {
        if i < |a| <= j {
          assert a[i] in a && b[j - |a|] in b;
        }
      }
    }
  }

  lemma VisitsInOrder(env: Environment, w: World, models: seq<string>)
    requires Distinct(env.providers, ProviderId)
    ensures VisitsOrdered(VisitsOf(env, w, models))
  {
    var available := Starting(env, w);
    AvailableIsPart(env, env.providers, w.providers, env.clock(w.ticks));
    forall i: nat | i < |models|
      ensures VisitsOrdered(Plan(env, available, models)(i))
      ensures forall v | v in Plan(env, available, models)(i) :: v.candidate == i
    {
      CandidateInOrder(env, available, i, models[i]);
    }
    FlattenInOrder(Plan(env, available, models), 0, |models|);
  }

  predicate Belongs(e: Event, v: Visit) {
    CandidateOf(e) == v.candidate && ProviderOf(e) == (if v.At? then Some(v.provider) else None)
  }

  lemma {:induction false} TargetsInOrder(env: Environment, w: World, v: Visit, targets: seq<Option<Account>>,
                                          from: nat)
    requires v.At? && from <= |targets|
    ensures var events := AllTargets(env, w, v, targets, from).events;
            |events| == |targets| - from
            && forall i | 0 <= i < |events| ::
                 events[i].Tried? && Belongs(events[i], v)
                 && events[i].attempt.position == from + i && events[i].attempt.account == targets[from + i]
    decreases |targets| - from
  {
    if from < |targets| {
      TargetsInOrder(env, AfterAttempt(w, Begin(env, w, v, targets[from], from)), v, targets, from + 1);
    }
  }

  lemma VisitInOrder(env: Environment, w: World, v: Visit)
    ensures var events := AllOf(env, w, v).events;
            && (forall i | 0 <= i < |events| :: Belongs(events[i], v))
            && InOrder(events)
  {
    if v.At? && env.translates(v.provider, v.raw) {
      TargetsInOrder(env, AfterListing(env, w, v.provider), v, Targets(env, w, v.provider), 0);
    }
  }

  ghost predicate FromOne(e: Event, visits: seq<Visit>) {
    exists k | 0 <= k < |visits| :: Belongs(e, visits[k])
  }

  /** Every event belongs to one of the visits. */
  ghost predicate FromVisits(events: seq<Event>, visits: seq<Visit>) {
    forall i | 0 <= i < |events| :: FromOne(events[i], visits)
  }

  lemma FromParts(a: seq<Event>, b: seq<Event>, visits: seq<Visit>)
    requires visits != [] && forall i | 0 <= i < |a| :: Belongs(a[i], visits[0])
    requires FromVisits(b, visits[1..])
    ensures FromVisits(a + b, visits)
  {
    forall i | 0 <= i < |a + b| ensures FromOne((a + b)[i], visits) {
      if i < |a| {
        assert Belongs(a[i], visits[0]);
      } else {
        assert FromOne(b[i - |a|], visits[1..]);
        var k :| 0 <= k < |visits[1..]| && Belongs(b[i - |a|], visits[1..][k]);
        assert Belongs(b[i - |a|], visits[k + 1]);
      }
    }
  }

  lemma {:induction false} ScheduleFromVisits(env: Environment, w: World, visits: seq<Visit>)
    ensures FromVisits(AllVisits(env, w, visits).events, visits)
    decreases |visits|
  {
    if visits != [] {
      var first := AllOf(env, w, visits[0]);
      VisitInOrder(env, w, visits[0]);
      ScheduleFromVisits(env, first.world, visits[1..]);
      FromParts(first.events, AllVisits(env, first.world, visits[1..]).events, visits);
    }
  }

  /** Events of a visit precede those of the visits it precedes. */
  lemma PartsInOrder(a: seq<Event>, b: seq<Event>, visits: seq<Visit>)
    requires visits != [] && VisitsOrdered(visits) && InOrder(a) && InOrder(b)
    requires forall i | 0 <= i < |a| :: Belongs(a[i], visits[0])
    requires FromVisits(b, visits[1..])
    ensures InOrder(a + b)
  {
    forall i, j | 0 <= i < |a| && 0 <= j < |b| ensures Precedes(a[i], b[j]) {
      assert FromOne(b[j], visits[1..]);
      var k :| 0 <= k < |visits[1..]| && Belongs(b[j], visits[1..][k]);
      assert VisitPrecedes(visits[0], visits[k + 1]);
    }
    OrderAppend(a, b);
  }

  lemma {:induction false} VisitsMakeOrder(env: Environment, w: World, visits: seq<Visit>)
    requires VisitsOrdered(visits)
    ensures InOrder(AllVisits(env, w, visits).events)
    decreases |visits|
  {
    if visits != [] {
      var first := AllOf(env, w, visits[0]);
      VisitInOrder(env, w, visits[0]);
      VisitsMakeOrder(env, first.world, visits[1..]);
      ScheduleFromVisits(env, first.world, visits[1..]);
      PartsInOrder(first.events, AllVisits(env, first.world, visits[1..]).events, visits);
    }
  }

  lemma OrderAppend(a: seq<Event>, b: seq<Event>)
    requires InOrder(a) && InOrder(b)
    requires forall i, j | 0 <= i < |a| && 0 <= j < |b| :: Precedes(a[i], b[j])
    ensures InOrder(a + b)
  {
  }

  /** Targets are scheduled by candidate, near-limit flag, priority and account order. */
  lemma ScheduleInOrder(env: Environment, w: World, models: seq<string>)
    requires Distinct(env.providers, ProviderId)
    ensures InOrder(ScheduleOf(env, w, models))
  {
    VisitsInOrder(env, w, models);
    VisitsMakeOrder(env, Tick(w), VisitsOf(env, w, models));
  }

  /** By priority and then by age. */
  predicate AccountNotAfter(a: Account, b: Account) {
    a.priority < b.priority || (a.priority == b.priority && a.createdAt <= b.createdAt)
  }

  ghost predicate InAccountOrder(targets: seq<Option<Account>>) {
    forall i, j | 0 <= i < j < |targets| ::
      targets[i].Some? && targets[j].Some? && AccountNotAfter(targets[i].value, targets[j].value)
  }

  lemma {:induction false} UsableAreAccounts(env: Environment, p: Provider, accounts: seq<Account>, tick: nat)
    ensures forall t | t in Usable(env, p, accounts, tick) :: t.Some? && t.value in accounts
  {
    if accounts != [] { UsableAreAccounts(env, p, accounts[1..], tick); }
  }

  lemma {:induction false} UsableInOrder(env: Environment, p: Provider, accounts: seq<Account>, tick: nat)
    requires Sorted(accounts, AccountKey)
    ensures InAccountOrder(Usable(env, p, accounts, tick))
  {
    if accounts != [] {
      var rest := Usable(env, p, accounts[1..], tick);
      UsableInOrder(env, p, accounts[1..], tick);
      UsableAreAccounts(env, p, accounts[1..], tick);
      forall j | 0 <= j < |rest|
        ensures rest[j].Some? && AccountNotAfter(accounts[0], rest[j].value)
      {
        assert rest[j] in rest;
        var k :| 0 <= k < |accounts[1..]| && accounts[1..][k] == rest[j].value;
        assert accounts[k + 1] == rest[j].value;
      }
    }
  }

  /** Unless a provider rotates its accounts, its targets stand by priority and then by age. */
  lemma TargetsInAccountOrder(env: Environment, w: World, p: Provider)
    requires !p.roundRobin
    ensures InAccountOrder(Targets(env, w, p)) && AfterListing(env, w, p).counters == w.counters
  {
    SortSorts(SelectableAccounts(env.accounts, w.accounts, p.id, env.clock(w.ticks)), AccountKey);
    UsableInOrder(env, p, Listed(env, w, p), w.ticks);
  }

  // ----- nothing is left out -----

  function ProvidersOf(visits: seq<Visit>): seq<Provider> {
    if visits == [] then []
    else (if visits[0].At? then [visits[0].provider] else []) + ProvidersOf(visits[1..])
  }

  lemma {:induction false} ProvidersOfEach(candidate: nat, model: string, raw: string, providers: seq<Provider>)
    ensures ProvidersOf(AtEach(candidate, model, raw, providers)) == providers
  {
    if providers != [] {
      ProvidersOfEach(candidate, model, raw, providers[1..]);
      var rest := AtEach(candidate, model, raw, providers[1..]);
      assert ([At(candidate, model, raw, providers[0])] + rest)[1..] == rest;
    }
  }

  /** A candidate visits every provider that matches it, once; if none does it leaves one entry instead. */
  lemma EveryMatchIsVisited(env: Environment, providers: seq<Provider>, candidate: nat, model: string)
    requires SplitModel(model).Some?
    ensures var (prefix, raw) := SplitModel(model).value;
            var visits := CandidateVisits(env, providers, candidate, model);
            && multiset(ProvidersOf(visits)) == multiset(Matching(env, providers, prefix, raw))
            && (ProvidersOf(visits) == [] <==>
                visits == [Unresolved(candidate, if prefix == "" then raw else prefix, raw)])
  {
    var (prefix, raw) := SplitModel(model).value;
    var matching := Matching(env, providers, prefix, raw);
    SortPermutes(matching, ProviderKey);
    ProvidersOfEach(candidate, model, raw, SortBy(matching, ProviderKey));
    if SortBy(matching, ProviderKey) == [] {
      assert |multiset(matching)| == 0;
    }
  }

  /** An attempt on one target of a visit. */
  predicate AttemptOf(a: Attempt, v: Visit, target: Option<Account>, position: nat) {
    && v.At? && a.candidate == v.candidate && a.model == v.model && a.provider == v.provider
    && a.account == target && a.position == position
  }

  lemma {:induction false} UnstoppedTargets(env: Environment, w: World, v: Visit, targets: seq<Option<Account>>,
                                            from: nat, j: nat)
    requires v.At? && from <= j < |targets|
    requires !RunTargets(env, w, v, targets, from).stopped
    ensures var events := RunTargets(env, w, v, targets, from).events;
            && |events| == |targets| - from
            && events[j - from].Tried? && !Decisive(events[j - from])
            && AttemptOf(events[j - from].attempt, v, targets[j], j)
    decreases |targets| - from
  {
    var first := RunTarget(env, w, v, targets[from], from);
    if from < j {
      UnstoppedTargets(env, first.world, v, targets, from + 1, j);
    } else if from + 1 < |targets| {
      UnstoppedTargets(env, first.world, v, targets, from + 1, from + 1);
    }
  }

  /** The i-th visit of a run that was not stopped starts where the first i visits leave off. */
  lemma VisitWithin(env: Environment, w: World, visits: seq<Visit>, i: nat)
    returns (before: seq<Event>, after: seq<Event>)
    requires i < |visits| && !RunVisits(env, w, visits).stopped
    ensures var here := RunVisits(env, w, visits[..i]);
            var visit := RunVisit(env, here.world, visits[i]);
            && !visit.stopped && before == here.events
            && RunVisits(env, w, visits).events == before + visit.events + after
  {
    var rest := visits[i..];
    assert visits == visits[..i] + rest && rest[1..] == visits[i + 1..];
    RunAppend(env, w, visits[..i], rest);
    var here := RunVisits(env, w, visits[..i]);
    before := here.events;
    var visit := RunVisit(env, here.world, visits[i]);
    after := RunVisits(env, visit.world, rest[1..]).events;
    Assoc(before, visit.events, after);
  }

  /** The entry of a candidate that no provider matches. */
  function Nowhere(endpoint: string, wanted: string, raw: string): Entry {
    Entry("unresolved:" + wanted, raw, 404, "no provider found for model prefix and endpoint " + endpoint, None)
  }

  lemma NowhereIs(env: Environment, v: Visit)
    requires v.Unresolved?
    ensures NotFound(env, v) == Skipped(v.candidate, Nowhere(env.endpoint, v.wanted, v.raw))
  {
  }

  /**
   A run that is exhausted attempted, at every visit, every target that was prepared when the visit
   began, in order; and left an entry for every candidate without a provider.
   */
  lemma ExhaustedTriesEverything(env: Environment, w: World, visits: seq<Visit>, i: nat, j: nat)
    requires i < |visits| && !RunVisits(env, w, visits).stopped
    ensures var run, here := RunVisits(env, w, visits), RunVisits(env, w, visits[..i]);
            var v, at := visits[i], |here.events|;
            match v
            case Invalid(_, _) => false
            case Unresolved(candidate, wanted, raw) =>
              at < |run.events| && run.events[at] == Skipped(candidate, Nowhere(env.endpoint, wanted, raw))
            case At(_, _, raw, p) =>
              && env.translates(p, raw)
              && (var targets := Targets(env, here.world, p);
                  j < |targets| ==>
                    at + j < |run.events| && run.events[at + j].Tried? && !Decisive(run.events[at + j])
                    && AttemptOf(run.events[at + j].attempt, v, targets[j], j))
  {
    var before, after := VisitWithin(env, w, visits, i);
    var v, here := visits[i], RunVisits(env, w, visits[..i]);
    if v.Unresolved? { NowhereIs(env, v); }
    if v.At? && env.translates(v.provider, v.raw) {
      var targets := Targets(env, here.world, v.provider);
      if j < |targets| {
        UnstoppedTargets(env, AfterListing(env, here.world, v.provider), v, targets, 0, j);
      }
    }
  }

  // ----- `tried` is the trace -----

  /** What a line says of a reply: a status and a text. */
  function StatusAndText(reply: Reply): (nat, string) {
    match reply
    case CacheHit(status) => (status, "[response-cache hit]")
    case Answered(ConnError(message)) => (502, message)
    case Answered(Streaming(status)) => (status, "[streaming]")
    case Answered(Collected(status, transcript, _)) => (status, transcript)
    case Answered(Buffered(status, text, _)) => (status, text)
  }

  /** A reply whose successful body the adapters break on. */
  predicate Unreadable(reply: Reply) {
    match reply
    case Answered(Collected(_, _, adapted)) => adapted.Broken?
    case Answered(Buffered(status, _, adapted)) => 200 <= status <= 299 && adapted.Broken?
    case _ => false
  }

  /** The line of an event: for an attempt its provider, model, account and what came back. */
  function LineOf(e: Event): Option<Entry> {
    match e
    case Skipped(_, entry) => Some(entry)
    case Aborted(_) => None
    case Tried(a) =>
      if Unreadable(a.reply) then None
      else Some(Entry(a.provider.id, a.model, StatusAndText(a.reply).0, StatusAndText(a.reply).1,
                      if a.account.Some? then Some(a.account.value.id) else None))
  }

  /** Every event adds its line, except one that ends the run without a readable answer. */
  lemma {:induction false} TriedIsTrace(events: seq<Event>)
    requires forall i | 0 <= i < |events| - 1 :: !Decisive(events[i])
    ensures var tried := Entries(events);
            && |tried| == (if events != [] && LineOf(events[|events| - 1]).None? then |events| - 1 else |events|)
            && forall i | 0 <= i < |tried| :: Some(tried[i]) == LineOf(events[i])
  {
    if events != [] {
      var front := events[..|events| - 1];
      TriedIsTrace(front);
      if front != [] { assert front[|front| - 1] == events[|events| - 2]; }
    }
  }

  /** The lines of a request: one per event, but none for an event that ends the run without a readable answer. */
  lemma TriedIsTheRun(env: Environment, w: World, models: seq<string>)
    ensures var events := Run(env, w, models).events;
            var tried := Entries(events);
            && (forall i | 0 <= i < |events| - 1 :: !Decisive(events[i]))
            && |tried| == (if events != [] && LineOf(events[|events| - 1]).None? then |events| - 1 else |events|)
            && forall i | 0 <= i < |tried| :: Some(tried[i]) == LineOf(events[i])
  {
    RouteIsFirstDecisive(env, w, models);
    TriedIsTrace(Run(env, w, models).events);
  }

  /** The message a connection error or a rejected call is recorded with. */
  function MessageOf(answer: Answer): string {
    match answer
    case ConnError(message) => message
    case Streaming(_) => ""
    case Collected(_, transcript, _) => transcript
    case Buffered(_, text, _) => text
  }

  // ----- what ends a run -----

  /** A status that asks for another target: a rate limit, a server error, or one outside HTTP's range. */
  predicate AsksForAnother(status: nat, body: string) {
    || status == 429 || 500 <= status <= 599 || status < 100 || status > 999
    || Says(body, "rate limit") || Says(body, "quota")
  }

  /** No connection, or an error that asks for another target. */
  predicate Undecided(reply: Reply) {
    && reply.Answered?
    && (reply.answer.ConnError?
        || (reply.answer.Buffered? && !(200 <= reply.answer.status <= 299)
            && AsksForAnother(reply.answer.status, reply.answer.text)))
  }

  lemma UndecidedExactly(reply: Reply)
    ensures Undecided(reply) <==> !Decides(reply)
  {
    if reply.Answered? && reply.answer.Buffered? {
      SaysExactly(reply.answer.text, "rate limit");
      SaysExactly(reply.answer.text, "quota");
    }
  }

  /** A run is stopped by its last event exactly if that is no undecided attempt; all before are undecided or skips. */
  lemma RunStopsExactly(env: Environment, w: World, models: seq<string>)
    ensures var run := Run(env, w, models);
            var n := |run.events|;
            && (run.stopped <==>
                n > 0 && (run.events[n - 1].Aborted?
                          || (run.events[n - 1].Tried? && !Undecided(run.events[n - 1].attempt.reply))))
            && forall i | 0 <= i < n - 1 ::
                 run.events[i].Skipped? || (run.events[i].Tried? && Undecided(run.events[i].attempt.reply))
  {
    var run, all := Run(env, w, models), ScheduleOf(env, w, models);
    VisitsAreCut(env, Tick(w), VisitsOf(env, w, models));
    forall i | 0 <= i < |run.events| && run.events[i].Tried?
      ensures Undecided(run.events[i].attempt.reply) <==> !Decisive(run.events[i])
    {
      UndecidedExactly(run.events[i].attempt.reply);
    }
  }

  /** The mark an attempt leaves, by what came back. */
  lemma MarksAreVerdicts(reply: Reply, at: Time)
    ensures MarkOf(reply, at).None? <==> reply.CacheHit? || Unreadable(reply)
    ensures MarkOf(reply, at) == Some(Success(at)) <==>
            reply.Answered? && (match reply.answer
                                case Streaming(_) => true
                                case Collected(_, _, adapted) => adapted.Body?
                                case Buffered(status, _, adapted) => 200 <= status <= 299 && adapted.Body?
                                case ConnError(_) => false)
    ensures MarkOf(reply, at).Some? ==> MarkOf(reply, at).value.at == at
    ensures MarkOf(reply, at).Some? && MarkOf(reply, at).value.Failure? ==>
            MarkOf(reply, at).value.message ==
              match reply.answer
              case Collected(_, _, adapted) => adapted.message
              case Buffered(status, text, adapted) => if 200 <= status <= 299 then adapted.message else text
              case _ => StatusAndText(reply).1
  {
  }

  // ----- what each attempt hears -----

  function Attempts(events: seq<Event>): nat {
    if events == [] then 0
    else Attempts(events[..|events| - 1]) + if events[|events| - 1].Tried? then 1 else 0
  }

  /** The cache is asked first, and the upstream only if it has nothing. */
  function Heard(env: Environment, k: nat): Reply {
    match env.cached(k)
    case Some(status) => CacheHit(status)
    case None => Answered(env.answer(k))
  }

  /** An attempt takes three readings of the clock in a row: at its start and for either mark. */
  ghost predicate Timed(env: Environment, e: Event) {
    e.Tried? ==> exists t: nat ::
      && e.attempt.startedAt == env.clock(t)
      && e.attempt.providerMarkAt == env.clock(t + 1) && e.attempt.accountMarkAt == env.clock(t + 2)
  }

  predicate Hears(env: Environment, e: Event, k: nat) {
    e.Tried? ==> e.attempt.reply == Heard(env, k)
  }

  ghost predicate HearsAt(env: Environment, calls: nat, events: seq<Event>, i: nat)
    requires i < |events|
  {
    Hears(env, events[i], calls + Attempts(events[..i]) + 1) && Timed(env, events[i])
  }

  /** The attempts of a stretch hear the answers in turn, from the next one on. */
  ghost predicate AllHear(env: Environment, calls: nat, events: seq<Event>) {
    forall i | 0 <= i < |events| :: HearsAt(env, calls, events, i)
  }

  lemma {:induction false} AttemptsAppend(a: seq<Event>, b: seq<Event>)
    ensures Attempts(a + b) == Attempts(a) + Attempts(b)
  {
    if b == [] {
      assert a + b == a;
    } else {
      AttemptsAppend(a, b[..|b| - 1]);
      assert (a + b)[..|a + b| - 1] == a + b[..|b| - 1];
    }
  }

  lemma HearEarlier(env: Environment, calls: nat, a: seq<Event>, b: seq<Event>, i: nat)
    requires i < |a| && HearsAt(env, calls, a, i)
    ensures HearsAt(env, calls, a + b, i)
  {
    assert (a + b)[..i] == a[..i] && (a + b)[i] == a[i];
  }

  lemma HearLater(env: Environment, calls: nat, a: seq<Event>, b: seq<Event>, i: nat)
    requires |a| <= i < |a + b| && HearsAt(env, calls + Attempts(a), b, i - |a|)
    ensures HearsAt(env, calls, a + b, i)
  {
    var before := b[..i - |a|];
    assert (a + b)[..i] == a + before && (a + b)[i] == b[i - |a|];
    AttemptsAppend(a, before);
  }

  lemma HearAppend(env: Environment, calls: nat, a: seq<Event>, b: seq<Event>)
    requires AllHear(env, calls, a) && AllHear(env, calls + Attempts(a), b)
    ensures AllHear(env, calls, a + b)
  {
    forall i | 0 <= i < |a + b| ensures HearsAt(env, calls, a + b, i) {
      if i < |a| { HearEarlier(env, calls, a, b, i); } else { HearLater(env, calls, a, b, i); }
    }
  }

  /** A stretch that started after so many attempts. */
  ghost predicate InTurn(env: Environment, calls: nat, run: Progress) {
    AllHear(env, calls, run.events) && run.world.calls == calls + Attempts(run.events)
  }

  lemma ThenInTurn(env: Environment, calls: nat, p: Progress, q: Progress)
    requires InTurn(env, calls, p) && InTurn(env, p.world.calls, q)
    ensures InTurn(env, calls, Then(p, q))
  {
    AttemptsAppend(p.events, q.events);
    HearAppend(env, calls, p.events, q.events);
  }

  lemma TargetInTurn(env: Environment, w: World, v: Visit, target: Option<Account>, position: nat)
    requires v.At?
    ensures InTurn(env, w.calls, RunTarget(env, w, v, target, position))
  {
    var e := Tried(Begin(env, w, v, target, position));
    assert [e][..0] == [];
    assert Attempts([e]) == 1 && Attempts([]) == 0;
    assert e.attempt.startedAt == env.clock(w.ticks) && e.attempt.providerMarkAt == env.clock(w.ticks + 1);
    assert Timed(env, e);
  }

  lemma {:induction false} TargetsInTurn(env: Environment, w: World, v: Visit, targets: seq<Option<Account>>, from: nat)
    requires v.At? && from <= |targets|
    ensures InTurn(env, w.calls, RunTargets(env, w, v, targets, from))
    decreases |targets| - from
  {
    if from < |targets| {
      var first := RunTarget(env, w, v, targets[from], from);
      TargetInTurn(env, w, v, targets[from], from);
      if !first.stopped {
        TargetsInTurn(env, first.world, v, targets, from + 1);
        ThenInTurn(env, w.calls, first, RunTargets(env, first.world, v, targets, from + 1));
      }
    }
  }

  lemma NoAttempt(env: Environment, calls: nat, e: Event)
    requires !e.Tried?
    ensures AllHear(env, calls, [e]) && Attempts([e]) == 0
  {
    assert [e][..0] == [];
  }

  lemma VisitInTurn(env: Environment, w: World, v: Visit)
    ensures InTurn(env, w.calls, RunVisit(env, w, v))
  {
    if v.At? && env.translates(v.provider, v.raw) {
      TargetsInTurn(env, AfterListing(env, w, v.provider), v, Targets(env, w, v.provider), 0);
    } else {
      NoAttempt(env, w.calls, RunVisit(env, w, v).events[0]);
    }
  }

  lemma {:induction false} VisitsInTurn(env: Environment, w: World, visits: seq<Visit>)
    ensures InTurn(env, w.calls, RunVisits(env, w, visits))
    decreases |visits|
  {
    if visits != [] {
      var first := RunVisit(env, w, visits[0]);
      VisitInTurn(env, w, visits[0]);
      if !first.stopped {
        VisitsInTurn(env, first.world, visits[1..]);
        ThenInTurn(env, w.calls, first, RunVisits(env, first.world, visits[1..]));
      }
    }
  }

  /** The n-th attempt of a run hears the n-th pair of answers, the cache's if it has one. */
  lemma AttemptsHearInTurn(env: Environment, w: World, models: seq<string>)
    ensures var run := Run(env, w, models);
            AllHear(env, w.calls, run.events) && run.world.calls == w.calls + Attempts(run.events)
  {
    VisitsInTurn(env, Tick(w), Flatten(Plan(env, Starting(env, w), models), 0, |models|));
  }

  /** Every attempt before the last event of a run was a connection error or a fallback status, and marked so. */
  lemma EarlierAttemptsFailed(env: Environment, w: World, models: seq<string>, i: nat)
    requires var events := Run(env, w, models).events; i < |events| - 1 && events[i].Tried?
    ensures var a := Run(env, w, models).events[i].attempt;
            && a.reply.Answered?
            && (a.reply.answer.ConnError?
                || (a.reply.answer.Buffered? && !Retry.IsSuccess(a.reply.answer.status)
                    && FallbackError(a.reply.answer.status, a.reply.answer.text)))
            && MarkOf(a.reply, a.accountMarkAt) == Some(Failure(MessageOf(a.reply.answer), a.accountMarkAt))
            && MarkOf(a.reply, a.providerMarkAt) == Some(Failure(MessageOf(a.reply.answer), a.providerMarkAt))
  {
    TriedIsTheRun(env, w, models);
    assert !Decisive(Run(env, w, models).events[i]);
  }
}
