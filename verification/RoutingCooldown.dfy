/**
 No account is hammered. Account lists are read anew for every candidate and provider, but a failure
 keeps its account out of every list for as long as its cooldown lasts.
 */
module AccountCooldown {
  import opened Options
  import Strings
  import opened Sorting
  import opened AccountHealth
  import opened RoundRobin
  import opened Routing

  ghost predicate MonotoneClock(env: Environment) {
    forall i: nat, j: nat | i <= j :: env.clock(i) <= env.clock(j)
  }

  function IdOf(a: Account): string {
    a.id
  }

  function TargetId(t: Option<Account>): string {
    if t.Some? then t.value.id else ""
  }

  /** Every account of the table has its health columns, and ids are the primary key. */
  ghost predicate Rows(env: Environment, w: World) {
    Distinct(env.accounts, IdOf) && Ids(env.accounts, IdOf) <= w.accounts.Keys
  }

  // ----- what a list of targets holds -----

  lemma {:induction false} SelectableIds(accounts: seq<Account>, health: map<string, Health>, connection: string,
                                         now: Time)
    ensures var some := SelectableAccounts(accounts, health, connection, now);
            && Ids(some, IdOf) <= Ids(accounts, IdOf)
            && (Distinct(accounts, IdOf) ==> Distinct(some, IdOf))
            && forall s | s in Ids(some, IdOf) :: s in health && Selectable(health[s], now)
  {
    if accounts != [] {
      SelectableIds(accounts[1..], health, connection, now);
      var rest := SelectableAccounts(accounts[1..], health, connection, now);
      assert ([accounts[0]] + rest)[1..] == rest;
    }
  }

  /** Where an element of a rotation stood. */
  function Before(n: nat, idx: nat, i: nat): (k: nat)
    requires idx < n && i < n
    ensures k < n
  {
    if idx + i < n then idx + i else idx + i - n
  }

  lemma RotateFrom(items: seq<Account>, idx: nat, i: nat)
    requires idx < |items| && i < |items|
    ensures Rotate(items, idx)[i] == items[Before(|items|, idx, i)]
  {
  }

  lemma RotateKeepsIds(items: seq<Account>, idx: nat)
    requires idx < |items| && Distinct(items, IdOf)
    ensures Distinct(Rotate(items, idx), IdOf)
    ensures Ids(Rotate(items, idx), IdOf) <= Ids(items, IdOf)
  {
    var rotated := Rotate(items, idx);
    forall i, j | 0 <= i < j < |rotated| ensures IdOf(rotated[i]) != IdOf(rotated[j]) {
      RotateFrom(items, idx, i);
      RotateFrom(items, idx, j);
      var m, n := Before(|items|, idx, i), Before(|items|, idx, j);
      DistinctAt(items, IdOf, if m < n then m else n, if m < n then n else m);
    }
    DistinctIfApart(rotated, IdOf);
    forall s | s in Ids(rotated, IdOf) ensures s in Ids(items, IdOf) {
      var k := WhereId(rotated, IdOf, s);
      RotateFrom(items, idx, k);
      IdsContain(items, IdOf, Before(|items|, idx, k));
    }
  }

  lemma {:induction false} UsableIds(env: Environment, p: Provider, accounts: seq<Account>, tick: nat)
    ensures var some := Usable(env, p, accounts, tick);
            && Ids(some, TargetId) <= Ids(accounts, IdOf)
            && (Distinct(accounts, IdOf) ==> Distinct(some, TargetId))
  {
    if accounts != [] {
      UsableIds(env, p, accounts[1..], tick);
      var rest := Usable(env, p, accounts[1..], tick);
      assert ([Some(accounts[0])] + rest)[1..] == rest;
    }
  }

  /** The accounts of a list are different, and every one was selectable when the list was read. */
  lemma TargetsAreSelectable(env: Environment, w: World, p: Provider)
    requires Rows(env, w)
    ensures var targets := Targets(env, w, p);
            && Distinct(targets, TargetId)
            && forall i | 0 <= i < |targets| && targets[i].Some? ::
                 targets[i].value.id in w.accounts
                 && Selectable(w.accounts[targets[i].value.id], env.clock(w.ticks))
  {
    var targets, now := Targets(env, w, p), env.clock(w.ticks);
    var some, listed := SelectableAccounts(env.accounts, w.accounts, p.id, now), Listed(env, w, p);
    if listed == [] {
      OneOrNone(env, p);
    } else {
      SelectableIds(env.accounts, w.accounts, p.id, now);
      SortKeepsIds(some, AccountKey, IdOf);
      if Rotates(p, listed) {
        RotateKeepsIds(listed, CounterOf(w.counters, ConnectionKey(p.id)) % |listed|);
      }
      UsableIds(env, p, Ordered(w, p, listed), w.ticks);
      forall i | 0 <= i < |targets| ensures TargetId(targets[i]) in Ids(some, IdOf) {
        IdsContain(targets, TargetId, i);
      }
    }
  }

  lemma OneOrNone(env: Environment, p: Provider)
    ensures Distinct(Bare(env, p), TargetId)
    ensures forall t | t in Bare(env, p) :: t.None?
  {
    var none: Option<Account> := None;
    assert [none][1..] == [];
  }

  // ----- what a failure leaves in its row -----

  function AccountMark(a: Attempt): Option<Mark> {
    MarkOf(a.reply, a.accountMarkAt)
  }

  /** The row still shows the failure `m`, or a later one. */
  predicate Shows(h: Health, m: Mark) {
    && m.Failure?
    && h.circuitOpenUntil.Some? && m.at + 15 * SECOND <= h.circuitOpenUntil.value
    && (RateLimited(m) ==> h.rateLimitedUntil.Some? && m.at + 30 * SECOND <= h.rateLimitedUntil.value)
  }

  lemma ShownKeepsOut(h: Health, m: Mark, now: Time)
    requires Shows(h, m) && Selectable(h, now)
    ensures m.at + Cooldown(m) <= now
  {
  }

  lemma FailureIsShown(h: Health, older: Mark, m: Mark)
    requires m.Failure?
    ensures Shows(ApplyMark(h, m), m)
    ensures Shows(h, older) && older.at <= m.at ==> Shows(ApplyMark(h, m), older)
  {
  }

  /** An attempt that does not decide is a failure. */
  lemma UndecidedIsFailure(reply: Reply, at: Time)
    requires !Decides(reply)
    ensures MarkOf(reply, at).Some? && MarkOf(reply, at).value.Failure? && MarkOf(reply, at).value.at == at
  {
  }

  // ----- along a run -----

  predicate OnAccount(e: Event, id: string) {
    e.Tried? && e.attempt.account.Some? && e.attempt.account.value.id == id
  }

  /** The failure of an earlier attempt on an account is over when the attempt `f` on it starts. */
  predicate OverBefore(e: Event, at: Time)
    requires e.Tried?
  {
    var m := AccountMark(e.attempt);
    m.Some? && m.value.Failure? && m.value.at + Cooldown(m.value) <= at
  }

  ghost predicate Spaced(events: seq<Event>) {
    forall i, j, id | 0 <= i < j < |events| && OnAccount(events[i], id) && OnAccount(events[j], id) ::
      OverBefore(events[i], events[j].attempt.startedAt)
  }

  /** Every earlier attempt on an account still shows in its row. */
  predicate ShownIn(env: Environment, w: World, e: Event, id: string)
    requires e.Tried?
  {
    var m := AccountMark(e.attempt);
    m.Some? && id in w.accounts && Shows(w.accounts[id], m.value) && m.value.at <= env.clock(w.ticks)
  }

  ghost predicate AllShown(env: Environment, w: World, events: seq<Event>) {
    forall i, id | 0 <= i < |events| && OnAccount(events[i], id) :: ShownIn(env, w, events[i], id)
  }

  /** No target from `from` on was attempted with a cooldown that lasts beyond `at`. */
  ghost predicate Rested(events: seq<Event>, targets: seq<Option<Account>>, from: nat, at: Time) {
    forall i, j | 0 <= i < |events| && from <= j < |targets| && targets[j].Some?
                  && OnAccount(events[i], targets[j].value.id) ::
      OverBefore(events[i], at)
  }

  lemma ListIsRested(env: Environment, w: World, p: Provider, events: seq<Event>)
    requires Rows(env, w) && AllShown(env, w, events)
    ensures Rested(events, Targets(env, w, p), 0, env.clock(w.ticks))
  {
    var targets, now := Targets(env, w, p), env.clock(w.ticks);
    TargetsAreSelectable(env, w, p);
    forall i, j | 0 <= i < |events| && 0 <= j < |targets| && targets[j].Some?
                  && OnAccount(events[i], targets[j].value.id)
      ensures OverBefore(events[i], now)
    {
      var id := targets[j].value.id;
      assert ShownIn(env, w, events[i], id);
      ShownKeepsOut(w.accounts[id], AccountMark(events[i].attempt).value, now);
    }
  }

  lemma StillShown(env: Environment, w: World, v: Visit, target: Option<Account>, position: nat, e: Event, id: string)
    requires v.At? && MonotoneClock(env) && OnAccount(e, id) && ShownIn(env, w, e, id)
    requires !RunTarget(env, w, v, target, position).stopped
    ensures ShownIn(env, RunTarget(env, w, v, target, position).world, e, id)
  {
    var a := Begin(env, w, v, target, position);
    UndecidedIsFailure(a.reply, a.accountMarkAt);
    assert env.clock(w.ticks) <= env.clock(w.ticks + 2) && env.clock(w.ticks) <= env.clock(w.ticks + 3);
    FailureIsShown(w.accounts[id], AccountMark(e.attempt).value, AccountMark(a).value);
  }

  lemma NowShown(env: Environment, w: World, v: Visit, target: Option<Account>, position: nat)
    requires v.At? && MonotoneClock(env) && target.Some? && target.value.id in w.accounts
    requires !RunTarget(env, w, v, target, position).stopped
    ensures var run := RunTarget(env, w, v, target, position);
            ShownIn(env, run.world, run.events[0], target.value.id)
  {
    var a := Begin(env, w, v, target, position);
    UndecidedIsFailure(a.reply, a.accountMarkAt);
    assert env.clock(w.ticks + 2) <= env.clock(w.ticks + 3);
    FailureIsShown(w.accounts[target.value.id], AccountMark(a).value, AccountMark(a).value);
  }

  /** One more attempt keeps the run spaced, and the rows up to date. */
  lemma AttemptSpaced(env: Environment, w: World, v: Visit, targets: seq<Option<Account>>, from: nat,
                      done: seq<Event>, at: Time)
    requires v.At? && from < |targets| && MonotoneClock(env) && at <= env.clock(w.ticks)
    requires Spaced(done) && Rested(done, targets, from, at)
    ensures Spaced(done + RunTarget(env, w, v, targets[from], from).events)
  {
    var e := Tried(Begin(env, w, v, targets[from], from));
    var events := done + [e];
    forall i, j, id | 0 <= i < j < |events| && OnAccount(events[i], id) && OnAccount(events[j], id)
      ensures OverBefore(events[i], events[j].attempt.startedAt)
    {
      if j < |done| {
        assert OnAccount(done[i], id) && OnAccount(done[j], id);
      } else {
        assert OnAccount(done[i], targets[from].value.id);
      }
    }
  }

  lemma AttemptShown(env: Environment, w: World, v: Visit, target: Option<Account>, position: nat, done: seq<Event>)
    requires v.At? && MonotoneClock(env) && AllShown(env, w, done)
    requires target.Some? ==> target.value.id in w.accounts
    requires !RunTarget(env, w, v, target, position).stopped
    ensures var run := RunTarget(env, w, v, target, position);
            AllShown(env, run.world, done + run.events)
  {
    var run := RunTarget(env, w, v, target, position);
    var events := done + run.events;
    forall i, id | 0 <= i < |events| && OnAccount(events[i], id) ensures ShownIn(env, run.world, events[i], id) {
      if i < |done| {
        assert ShownIn(env, w, done[i], id);
        StillShown(env, w, v, target, position, done[i], id);
      } else {
        NowShown(env, w, v, target, position);
      }
    }
  }

  /** The targets after this one are on other accounts. */
  lemma RestedAfter(env: Environment, w: World, v: Visit, targets: seq<Option<Account>>, from: nat, done: seq<Event>,
                    at: Time)
    requires v.At? && from < |targets| && Rested(done, targets, from, at) && Distinct(targets, TargetId)
    ensures Rested(done + RunTarget(env, w, v, targets[from], from).events, targets, from + 1, at)
  {
    var events := done + RunTarget(env, w, v, targets[from], from).events;
    forall i, j | 0 <= i < |events| && from + 1 <= j < |targets| && targets[j].Some?
                  && OnAccount(events[i], targets[j].value.id)
      ensures OverBefore(events[i], at)
    {
      DistinctAt(targets, TargetId, from, j);
      assert i < |done| && OnAccount(done[i], targets[j].value.id);
    }
  }

  ghost predicate Known(w: World, targets: seq<Option<Account>>) {
    forall i | 0 <= i < |targets| && targets[i].Some? :: targets[i].value.id in w.accounts
  }

  lemma {:induction false} TargetsSpaced(env: Environment, w: World, v: Visit, targets: seq<Option<Account>>, from: nat,
                                         done: seq<Event>, at: Time)
    requires v.At? && from <= |targets| && MonotoneClock(env) && at <= env.clock(w.ticks)
    requires Distinct(targets, TargetId) && Known(w, targets)
    requires Spaced(done) && AllShown(env, w, done) && Rested(done, targets, from, at)
    ensures var run := RunTargets(env, w, v, targets, from);
            && Spaced(done + run.events)
            && run.world.accounts.Keys == w.accounts.Keys
            && (!run.stopped ==> AllShown(env, run.world, done + run.events))
    decreases |targets| - from
  {
    if from == |targets| {
      assert done + [] == done;
    } else {
      var first := RunTarget(env, w, v, targets[from], from);
      AttemptSpaced(env, w, v, targets, from, done, at);
      if !first.stopped {
        AttemptShown(env, w, v, targets[from], from, done);
        RestedAfter(env, w, v, targets, from, done, at);
        assert env.clock(w.ticks) <= env.clock(first.world.ticks);
        TargetsSpaced(env, first.world, v, targets, from + 1, done + first.events, at);
        Strings.Assoc(done, first.events, RunTargets(env, first.world, v, targets, from + 1).events);
      }
    }
  }

  lemma ListingShows(env: Environment, w: World, p: Provider, done: seq<Event>)
    requires MonotoneClock(env) && AllShown(env, w, done)
    ensures AllShown(env, AfterListing(env, w, p), done)
  {
    assert env.clock(w.ticks) <= env.clock(w.ticks + 1);
    forall i, id | 0 <= i < |done| && OnAccount(done[i], id)
      ensures ShownIn(env, AfterListing(env, w, p), done[i], id)
    {
      assert ShownIn(env, w, done[i], id);
    }
  }

  lemma OffAccounts(done: seq<Event>, e: Event)
    requires !e.Tried?
    ensures Spaced(done) ==> Spaced(done + [e])
    ensures forall env, w | AllShown(env, w, done) :: AllShown(env, w, done + [e])
  {
  }

  lemma VisitSpaced(env: Environment, w: World, v: Visit, done: seq<Event>)
    requires MonotoneClock(env) && Rows(env, w) && Spaced(done) && AllShown(env, w, done)
    ensures var run := RunVisit(env, w, v);
            && Spaced(done + run.events) && Rows(env, run.world)
            && (!run.stopped ==> AllShown(env, run.world, done + run.events))
  {
    match v
    case Invalid(_, _) => OffAccounts(done, Aborted(v));
    case Unresolved(_, _, _) => OffAccounts(done, NotFound(env, v));
    case At(_, _, raw, p) =>
      if !env.translates(p, raw) {
        OffAccounts(done, Aborted(v));
      } else {
        TargetsAreSelectable(env, w, p);
        ListIsRested(env, w, p, done);
        ListingShows(env, w, p, done);
        assert env.clock(w.ticks) <= env.clock(w.ticks + 1);
        TargetsSpaced(env, AfterListing(env, w, p), v, Targets(env, w, p), 0, done, env.clock(w.ticks));
      }
  }

  lemma {:induction false} VisitsSpaced(env: Environment, w: World, visits: seq<Visit>, done: seq<Event>)
    requires MonotoneClock(env) && Rows(env, w) && Spaced(done) && AllShown(env, w, done)
    ensures Spaced(done + RunVisits(env, w, visits).events)
    decreases |visits|
  {
    if visits == [] {
      assert done + [] == done;
    } else {
      var first := RunVisit(env, w, visits[0]);
      VisitSpaced(env, w, visits[0], done);
      if !first.stopped {
        VisitsSpaced(env, first.world, visits[1..], done + first.events);
        Strings.Assoc(done, first.events, RunVisits(env, first.world, visits[1..]).events);
      }
    }
  }

  /**
   No account is hammered: with a monotone clock, a later attempt on an account starts only when the
   cooldown of every earlier one is over, 30 seconds after it was recorded for a rate limit and 15
   seconds for any other failure.
   */
  lemma NoAccountIsHammered(env: Environment, w: World, models: seq<string>)
    requires MonotoneClock(env) && Rows(env, w)
    ensures Spaced(Run(env, w, models).events)
  {
    var visits := Flatten(Plan(env, Starting(env, w), models), 0, |models|);
    VisitsSpaced(env, Tick(w), visits, []);
    var events := RunVisits(env, Tick(w), visits).events;
    assert [] + events == events;
  }
}

/** The health columns after a run are what its trace says. */
module RoutingHealth {
  import opened Options
  import opened AccountHealth
  import opened Routing
  import Strings

  function MarksIn(mark: Option<Mark>): seq<Mark> {
    if mark.Some? then [mark.value] else []
  }

  /** The marks a trace leaves on one account. */
  function AccountMarks(events: seq<Event>, id: string): seq<Mark> {
    if events == [] then []
    else
      var front, e := AccountMarks(events[..|events| - 1], id), events[|events| - 1];
      if e.Tried? && AccountId(e.attempt.account) == Some(id) then
        front + MarksIn(MarkOf(e.attempt.reply, e.attempt.accountMarkAt))
      else front
  }

  function ProviderMarks(events: seq<Event>, id: string): seq<Mark> {
    if events == [] then []
    else
      var front, e := ProviderMarks(events[..|events| - 1], id), events[|events| - 1];
      if e.Tried? && e.attempt.provider.id == id then
        front + MarksIn(MarkOf(e.attempt.reply, e.attempt.providerMarkAt))
      else front
  }

  ghost predicate Replays(from: World, to: World, events: seq<Event>) {
    && to.accounts.Keys == from.accounts.Keys && to.providers.Keys == from.providers.Keys
    && (forall id | id in from.accounts :: to.accounts[id] == After(from.accounts[id], AccountMarks(events, id)))
    && (forall id | id in from.providers :: to.providers[id] == After(from.providers[id], ProviderMarks(events, id)))
  }

  lemma AfterMark(h: Health, marks: seq<Mark>, mark: Option<Mark>)
    ensures After(h, marks + MarksIn(mark))
            == if mark.Some? then ApplyMark(After(h, marks), mark.value) else After(h, marks)
  {
    if mark.Some? {
      assert (marks + [mark.value])[..|marks|] == marks;
    } else {
      assert marks + [] == marks;
    }
  }

  lemma AccountReplays(h: Health, done: seq<Event>, e: Event, id: string)
    requires e.Tried?
    ensures After(h, AccountMarks(done + [e], id)) ==
      (var m := MarkOf(e.attempt.reply, e.attempt.accountMarkAt);
       var was := After(h, AccountMarks(done, id));
       if AccountId(e.attempt.account) == Some(id) && m.Some? then ApplyMark(was, m.value) else was)
  {
    assert (done + [e])[..|done|] == done;
    AfterMark(h, AccountMarks(done, id), MarkOf(e.attempt.reply, e.attempt.accountMarkAt));
  }

  lemma ProviderReplays(h: Health, done: seq<Event>, e: Event, id: string)
    requires e.Tried?
    ensures After(h, ProviderMarks(done + [e], id)) ==
      (var m := MarkOf(e.attempt.reply, e.attempt.providerMarkAt);
       var was := After(h, ProviderMarks(done, id));
       if e.attempt.provider.id == id && m.Some? then ApplyMark(was, m.value) else was)
  {
    assert (done + [e])[..|done|] == done;
    AfterMark(h, ProviderMarks(done, id), MarkOf(e.attempt.reply, e.attempt.providerMarkAt));
  }

  lemma TargetReplays(env: Environment, w0: World, w: World, v: Visit, target: Option<Account>, position: nat,
                      done: seq<Event>)
    requires v.At? && Replays(w0, w, done)
    ensures var run := RunTarget(env, w, v, target, position); Replays(w0, run.world, done + run.events)
  {
    var a := Begin(env, w, v, target, position);
    var to := AfterAttempt(w, a);
    forall id | id in w0.accounts
      ensures to.accounts[id] == After(w0.accounts[id], AccountMarks(done + [Tried(a)], id))
    {
      AccountReplays(w0.accounts[id], done, Tried(a), id);
    }
    forall id | id in w0.providers
      ensures to.providers[id] == After(w0.providers[id], ProviderMarks(done + [Tried(a)], id))
    {
      ProviderReplays(w0.providers[id], done, Tried(a), id);
    }
  }

  lemma {:induction false} TargetsReplay(env: Environment, w0: World, w: World, v: Visit, targets: seq<Option<Account>>,
                                         from: nat, done: seq<Event>)
    requires v.At? && from <= |targets| && Replays(w0, w, done)
    ensures var run := RunTargets(env, w, v, targets, from); Replays(w0, run.world, done + run.events)
    decreases |targets| - from
  {
    if from == |targets| {
      assert done + [] == done;
    } else {
      var first := RunTarget(env, w, v, targets[from], from);
      TargetReplays(env, w0, w, v, targets[from], from, done);
      if !first.stopped {
        TargetsReplay(env, w0, first.world, v, targets, from + 1, done + first.events);
        Strings.Assoc(done, first.events, RunTargets(env, first.world, v, targets, from + 1).events);
      }
    }
  }

  lemma UnmarkedReplays(w0: World, w: World, done: seq<Event>, e: Event)
    requires Replays(w0, w, done) && !e.Tried?
    ensures Replays(w0, w, done + [e])
  {
    assert (done + [e])[..|done|] == done;
  }

  lemma VisitReplays(env: Environment, w0: World, w: World, v: Visit, done: seq<Event>)
    requires Replays(w0, w, done)
    ensures var run := RunVisit(env, w, v); Replays(w0, run.world, done + run.events)
  {
    match v
    case Invalid(_, _) => UnmarkedReplays(w0, w, done, Aborted(v));
    case Unresolved(_, _, _) => UnmarkedReplays(w0, w, done, NotFound(env, v));
    case At(_, _, raw, p) =>
      if !env.translates(p, raw) {
        UnmarkedReplays(w0, w, done, Aborted(v));
      } else {
        TargetsReplay(env, w0, AfterListing(env, w, p), v, Targets(env, w, p), 0, done);
      }
  }

  lemma {:induction false} VisitsReplay(env: Environment, w0: World, w: World, visits: seq<Visit>, done: seq<Event>)
    requires Replays(w0, w, done)
    ensures var run := RunVisits(env, w, visits); Replays(w0, run.world, done + run.events)
    decreases |visits|
  {
    if visits == [] {
      assert done + [] == done;
    } else {
      var first := RunVisit(env, w, visits[0]);
      VisitReplays(env, w0, w, visits[0], done);
      if !first.stopped {
        VisitsReplay(env, w0, first.world, visits[1..], done + first.events);
        Strings.Assoc(done, first.events, RunVisits(env, first.world, visits[1..]).events);
      }
    }
  }

  /**
   After a run every account and provider row is its old row with exactly the marks of the trace:
   one failure for each failed attempt, one success for a decisive success, none for a cache hit or a
   body the adapters break on.
   */
  lemma HealthFollowsTrace(env: Environment, w: World, models: seq<string>)
    ensures Replays(w, Run(env, w, models).world, Run(env, w, models).events)
  {
    var visits := Flatten(Plan(env, Starting(env, w), models), 0, |models|);
    VisitsReplay(env, w, Tick(w), visits, []);
    var events := RunVisits(env, Tick(w), visits).events;
    assert [] + events == events;
  }
}
