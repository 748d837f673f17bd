/**
 Connections without accounts have no cooldown inside a request: their row is read once, at its
 start, so they are attempted once for every candidate that matches them.
 */
module AccountlessRetries {
  import opened Options
  import opened Strings
  import opened Sorting
  import opened AccountHealth
  import opened RoundRobin
  import opened Routing
  import opened FailoverSearch

  /** A connection that is its own only target. */
  predicate Accountless(env: Environment, p: Provider) {
    !HasAccounts(env.accounts, p.id) && Bare(env, p) == [None]
  }

  lemma {:induction false} NothingSelectable(accounts: seq<Account>, health: map<string, Health>, connection: string,
                                             now: Time)
    requires !HasAccounts(accounts, connection)
    ensures SelectableAccounts(accounts, health, connection, now) == []
  {
    if accounts != [] {
      assert accounts[0].connection != connection;
      assert forall i | 0 <= i < |accounts[1..]| :: accounts[1..][i] == accounts[i + 1];
      NothingSelectable(accounts[1..], health, connection, now);
    }
  }

  /** Whatever its row says, an accountless connection is listed with itself as the one target. */
  lemma NothingListed(env: Environment, w: World, p: Provider)
    requires !HasAccounts(env.accounts, p.id)
    ensures Targets(env, w, p) == Bare(env, p)
  {
    NothingSelectable(env.accounts, w.accounts, p.id, env.clock(w.ticks));
  }

  lemma AccountlessVisit(env: Environment, w: World, v: Visit)
    requires v.At? && env.translates(v.provider, v.raw) && Accountless(env, v.provider)
    ensures RunVisit(env, w, v) == RunTarget(env, AfterListing(env, w, v.provider), v, None, 0)
  {
    NothingListed(env, w, v.provider);
    var first := RunTarget(env, AfterListing(env, w, v.provider), v, None, 0);
    var targets: seq<Option<Account>> := [None];
    assert RunTargets(env, first.world, v, targets, 1) == Progress([], first.world, false);
    assert first.events + [] == first.events;
  }

  // ----- attempts and visits -----

  /** How often a provider was attempted. */
  function AttemptsOn(events: seq<Event>, p: Provider): nat {
    if events == [] then 0
    else (if events[0].Tried? && events[0].attempt.provider == p then 1 else 0) + AttemptsOn(events[1..], p)
  }

  function VisitsTo(visits: seq<Visit>, p: Provider): nat {
    multiset(ProvidersOf(visits))[p]
  }

  lemma {:induction false} AttemptsAppend(a: seq<Event>, b: seq<Event>, p: Provider)
    ensures AttemptsOn(a + b, p) == AttemptsOn(a, p) + AttemptsOn(b, p)
  {
    if a == [] {
      assert a + b == b;
    } else {
      assert (a + b)[1..] == a[1..] + b;
      AttemptsAppend(a[1..], b, p);
    }
  }

  lemma {:induction false} OthersAttempted(env: Environment, w: World, v: Visit, targets: seq<Option<Account>>,
                                           from: nat, p: Provider)
    requires v.At? && from <= |targets| && v.provider != p
    ensures AttemptsOn(RunTargets(env, w, v, targets, from).events, p) == 0
    decreases |targets| - from
  {
    if from < |targets| {
      var first := RunTarget(env, w, v, targets[from], from);
      assert first.events[1..] == [];
      if !first.stopped {
        OthersAttempted(env, first.world, v, targets, from + 1, p);
        AttemptsAppend(first.events, RunTargets(env, first.world, v, targets, from + 1).events, p);
      }
    }
  }

  lemma VisitAttempts(env: Environment, w: World, v: Visit, p: Provider)
    requires Accountless(env, p) && !RunVisit(env, w, v).stopped
    ensures AttemptsOn(RunVisit(env, w, v).events, p) == if v.At? && v.provider == p then 1 else 0
  {
    var run := RunVisit(env, w, v);
    if v.At? && v.provider == p {
      AccountlessVisit(env, w, v);
      assert run.events[1..] == [];
    } else if v.At? {
      OthersAttempted(env, AfterListing(env, w, v.provider), v, Targets(env, w, v.provider), 0, p);
    } else {
      assert run.events[1..] == [];
    }
  }

  lemma VisitsToCons(v: Visit, rest: seq<Visit>, p: Provider)
    ensures VisitsTo([v] + rest, p) == (if v.At? && v.provider == p then 1 else 0) + VisitsTo(rest, p)
  {
    assert ([v] + rest)[1..] == rest;
  }

  lemma {:induction false} VisitsToAppend(a: seq<Visit>, b: seq<Visit>, p: Provider)
    ensures VisitsTo(a + b, p) == VisitsTo(a, p) + VisitsTo(b, p)
  {
    if a == [] {
      assert a + b == b;
    } else {
      assert a + b == [a[0]] + (a[1..] + b) && a == [a[0]] + a[1..];
      VisitsToCons(a[0], a[1..] + b, p);
      VisitsToCons(a[0], a[1..], p);
      VisitsToAppend(a[1..], b, p);
    }
  }

  lemma FirstVisitUnstopped(env: Environment, w: World, visits: seq<Visit>)
    requires visits != [] && !RunVisits(env, w, visits).stopped
    ensures var first := RunVisit(env, w, visits[0]);
            var rest := RunVisits(env, first.world, visits[1..]);
            !first.stopped && !rest.stopped && RunVisits(env, w, visits).events == first.events + rest.events
  {
  }

  /** An accountless connection is attempted at each visit, whatever its failures before. */
  lemma {:induction false} AttemptedAtEachVisit(env: Environment, w: World, visits: seq<Visit>, p: Provider)
    requires Accountless(env, p) && !RunVisits(env, w, visits).stopped
    ensures AttemptsOn(RunVisits(env, w, visits).events, p) == VisitsTo(visits, p)
    decreases |visits|
  {
    if visits != [] {
      FirstVisitUnstopped(env, w, visits);
      var first := RunVisit(env, w, visits[0]);
      var rest := RunVisits(env, first.world, visits[1..]);
      AttemptedAtEachVisit(env, first.world, visits[1..], p);
      OneVisitMore(env, w, visits[0], visits[1..], rest.events, p);
      assert visits == [visits[0]] + visits[1..];
    }
  }

  lemma OneVisitMore(env: Environment, w: World, v: Visit, visits: seq<Visit>, events: seq<Event>, p: Provider)
    requires Accountless(env, p) && !RunVisit(env, w, v).stopped && AttemptsOn(events, p) == VisitsTo(visits, p)
    ensures AttemptsOn(RunVisit(env, w, v).events + events, p) == VisitsTo([v] + visits, p)
  {
    VisitsToCons(v, visits, p);
    VisitAttempts(env, w, v, p);
    AttemptsAppend(RunVisit(env, w, v).events, events, p);
  }

  // ----- visits and candidates -----

  predicate MatchedBy(env: Environment, available: seq<Provider>, model: string, p: Provider) {
    SplitModel(model).Some?
    && p in Matching(env, available, SplitModel(model).value.0, SplitModel(model).value.1)
  }

  /** Which candidates match the provider. */
  function Matches(env: Environment, available: seq<Provider>, models: seq<string>, p: Provider): nat -> bool {
    (i: nat) => i < |models| && MatchedBy(env, available, models[i], p)
  }

  function Count(holds: nat -> bool, from: nat, n: nat): nat
    requires from <= n
    decreases n - from
  {
    if from == n then 0 else (if holds(from) then 1 else 0) + Count(holds, from + 1, n)
  }

  ghost predicate AtMostOnce(holds: nat -> bool, from: nat, n: nat) {
    forall i: nat, j: nat | from <= i < j < n :: !(holds(i) && holds(j))
  }

  lemma {:induction false} CountedOnce(holds: nat -> bool, from: nat, n: nat)
    requires from <= n
    ensures Count(holds, from, n) == 0 <==> forall i: nat | from <= i < n :: !holds(i)
    ensures Count(holds, from, n) <= 1 <==> AtMostOnce(holds, from, n)
    decreases n - from
  {
    if from < n {
      CountedOnce(holds, from + 1, n);
      if holds(from) && Count(holds, from + 1, n) > 0 {
        var j: nat :| from + 1 <= j < n && holds(j);
        assert !AtMostOnce(holds, from, n);
      }
    }
  }

  lemma {:induction false} ListedOnce(providers: seq<Provider>, p: Provider)
    requires Distinct(providers, ProviderId)
    ensures multiset(providers)[p] == if p in providers then 1 else 0
  {
    if providers != [] {
      assert providers == [providers[0]] + providers[1..];
      ListedOnce(providers[1..], p);
      if providers[0] == p && p in providers[1..] {
        var k :| 0 <= k < |providers[1..]| && providers[1..][k] == p;
        IdsContain(providers[1..], ProviderId, k);
      }
    }
  }

  lemma CandidateVisitsTo(env: Environment, available: seq<Provider>, i: nat, model: string, p: Provider)
    requires Distinct(available, ProviderId)
    ensures VisitsTo(CandidateVisits(env, available, i, model), p)
         == if MatchedBy(env, available, model, p) then 1 else 0
  {
    if SplitModel(model).Some? {
      var (prefix, raw) := SplitModel(model).value;
      var sorted := SortBy(Matching(env, available, prefix, raw), ProviderKey);
      MatchingIsDistinct(env, available, prefix, raw);
      EveryMatchIsVisited(env, available, i, model);
      SortPermutes(Matching(env, available, prefix, raw), ProviderKey);
      ListedOnce(sorted, p);
      assert p in multiset(sorted) <==> p in multiset(Matching(env, available, prefix, raw));
      assert VisitsTo(CandidateVisits(env, available, i, model), p) == multiset(sorted)[p];
    } else {
      VisitsToCons(Invalid(i, model), [], p);
      assert [Invalid(i, model)] + [] == [Invalid(i, model)];
    }
  }

  lemma {:induction false} PlanVisitsTo(env: Environment, available: seq<Provider>, models: seq<string>, p: Provider,
                                        from: nat)
    requires Distinct(available, ProviderId) && from <= |models|
    ensures VisitsTo(Flatten(Plan(env, available, models), from, |models|), p)
         == Count(Matches(env, available, models, p), from, |models|)
    decreases |models| - from
  {
    if from < |models| {
      var plan := Plan(env, available, models);
      CandidateVisitsTo(env, available, from, models[from], p);
      PlanVisitsTo(env, available, models, p, from + 1);
      VisitsToAppend(plan(from), Flatten(plan, from + 1, |models|), p);
    }
  }

  /**
   A request that is not stopped attempts an accountless connection once for every candidate that
   matches it, whatever it answers: at most once exactly when at most one candidate does.
   */
  lemma AccountlessIsTriedPerCandidate(env: Environment, w: World, models: seq<string>, p: Provider)
    requires Distinct(env.providers, ProviderId) && Accountless(env, p) && !Run(env, w, models).stopped
    ensures var attempts := AttemptsOn(Run(env, w, models).events, p);
            var matches := Matches(env, Starting(env, w), models, p);
            && attempts == Count(matches, 0, |models|)
            && (attempts <= 1 <==> AtMostOnce(matches, 0, |models|))
  {
    AvailableIsPart(env, env.providers, w.providers, env.clock(w.ticks));
    AttemptedAtEachVisit(env, Tick(w), VisitsOf(env, w, models), p);
    PlanVisitsTo(env, Starting(env, w), models, p, 0);
    CountedOnce(Matches(env, Starting(env, w), models, p), 0, |models|);
  }

  // ----- such requests exist -----

  /** One connection, no accounts, every call refused and the clock standing still. */
  function Refusing(p: Provider, at: Time): Environment {
    Environment("chat", [p], [], n => at, n => None, n => ConnError("refused"), (n, id) => true, (q, a) => true,
                q => true, (q, raw) => true, model => None, q => false)
  }

  ghost predicate AllAt(visits: seq<Visit>, p: Provider) {
    forall i | 0 <= i < |visits| :: visits[i].At? && visits[i].provider == p
  }

  predicate RefusedAt(e: Event, p: Provider, at: Time) {
    e.Tried? && e.attempt.provider == p && e.attempt.startedAt == e.attempt.providerMarkAt == at
    && MarkOf(e.attempt.reply, at) == Some(Failure("refused", at))
  }

  /** The connection's row keeps it out of any request that starts now. */
  predicate ShutOut(w: World, p: Provider, at: Time) {
    p.id in w.providers && !ProviderAvailable(w.providers[p.id], at)
  }

  lemma RefusedVisit(w: World, v: Visit, p: Provider, at: Time)
    requires Accountless(Refusing(p, at), p) && v.At? && v.provider == p
    ensures var run := RunVisit(Refusing(p, at), w, v);
            && !run.stopped && |run.events| == 1 && RefusedAt(run.events[0], p, at)
            && (p.id in w.providers ==> ShutOut(run.world, p, at))
  {
    AccountlessVisit(Refusing(p, at), w, v);
  }

  lemma {:induction false} RefusedVisits(w: World, visits: seq<Visit>, p: Provider, at: Time)
    requires Accountless(Refusing(p, at), p) && AllAt(visits, p)
    ensures var run := RunVisits(Refusing(p, at), w, visits);
            && !run.stopped && |run.events| == |visits|
            && (forall i | 0 <= i < |visits| :: RefusedAt(run.events[i], p, at))
            && (p.id in w.providers && visits != [] ==> ShutOut(run.world, p, at))
    decreases |visits|
  {
    if visits != [] {
      var first := RunVisit(Refusing(p, at), w, visits[0]);
      RefusedVisit(w, visits[0], p, at);
      RefusedVisits(first.world, visits[1..], p, at);
    }
  }

  lemma OneAvailable(p: Provider, at: Time, model: string, i: nat)
    requires SplitModel(model) == Some(("", model)) && p.defaultModel.None?
    ensures CandidateVisits(Refusing(p, at), [p], i, model) == [At(i, model, model, p)]
  {
    var env := Refusing(p, at);
    assert [p][1..] == [];
    assert Guessed(env, [], model) == [];
    assert Matching(env, [p], "", model) == [p];
    assert SortBy([p], ProviderKey) == [p];
    assert AtEach(i, model, model, [p]) == [At(i, model, model, p)] + AtEach(i, model, model, []);
  }

  lemma TwoVisits(env: Environment, w: World, a: string, b: string, u: Visit, v: Visit)
    requires CandidateVisits(env, Starting(env, w), 0, a) == [u]
    requires CandidateVisits(env, Starting(env, w), 1, b) == [v]
    ensures VisitsOf(env, w, [a, b]) == [u, v]
  {
    var plan := Plan(env, Starting(env, w), [a, b]);
    assert plan(0) == [u] && plan(1) == [v];
    assert Flatten(plan, 2, 2) == [] && Flatten(plan, 1, 2) == [v] + [];
    assert [u] + ([v] + []) == [u, v];
  }

  lemma OneStarting(p: Provider, w: World, at: Time)
    requires p.id in w.providers && ProviderAvailable(w.providers[p.id], at)
    ensures Starting(Refusing(p, at), w) == [p]
  {
    assert [p][1..] == [];
    assert Available(Refusing(p, at), [], w.providers, at) == [];
  }

  lemma BareName(model: string)
    requires '/' !in model
    ensures SplitModel(model) == Some(("", model))
  {
  }

  lemma AloneIsAccountless(p: Provider, at: Time)
    requires ToAsciiLower(p.authType) != "oauth" && ToAsciiLower(p.provider) != "custom"
    ensures Accountless(Refusing(p, at), p)
  {
  }

  lemma TwoRefused(w: World, u: Visit, v: Visit, p: Provider, at: Time)
    requires Accountless(Refusing(p, at), p) && AllAt([u, v], p) && p.id in w.providers
    ensures var run := RunVisits(Refusing(p, at), w, [u, v]);
            && !run.stopped && |run.events| == 2
            && RefusedAt(run.events[0], p, at) && RefusedAt(run.events[1], p, at) && ShutOut(run.world, p, at)
  {
    RefusedVisits(w, [u, v], p, at);
  }

  /**
   Any available connection without accounts that needs none, refused twice in one request for two
   bare models: the second call is made at the very time the first failure was recorded, although a
   request starting then would leave the connection out.
   */
  lemma AccountlessIsRetriedAtOnce(p: Provider, w: World, at: Time, a: string, b: string)
    requires ToAsciiLower(p.authType) != "oauth" && ToAsciiLower(p.provider) != "custom" && p.defaultModel.None?
    requires p.id in w.providers && ProviderAvailable(w.providers[p.id], at)
    requires '/' !in a && '/' !in b
    ensures var run := Run(Refusing(p, at), w, [a, b]);
            && !run.stopped && |run.events| == 2
            && RefusedAt(run.events[0], p, at) && RefusedAt(run.events[1], p, at) && ShutOut(run.world, p, at)
  {
    BareName(a);
    BareName(b);
    OneStarting(p, w, at);
    OneAvailable(p, at, a, 0);
    OneAvailable(p, at, b, 1);
    var u, v := At(0, a, a, p), At(1, b, b, p);
    TwoVisits(Refusing(p, at), w, a, b, u, v);
    AloneIsAccountless(p, at);
    TwoRefused(Tick(w), u, v, p, at);
  }
}
