/** Which providers a candidate is sent to and which accounts are tried there, by their columns. */
module RoutingCandidates {
  import opened Options
  import opened Strings
  import opened Sorting
  import opened AccountHealth
  import opened RoundRobin
  import opened Routing
  import opened FailoverSearch

  // ----- the providers in the running -----

  /** A deadline that is over, and not just now. */
  predicate Over(until: Option<Time>, now: Time) {
    until.None? || until.value < now
  }

  /** An enabled row past both its cooldowns, of a provider that serves the endpoint. */
  predicate InTheRunning(env: Environment, w: World, p: Provider) {
    var now := env.clock(w.ticks);
    && p in env.providers && p.id in w.providers && env.routes(p)
    && w.providers[p.id].enabled
    && Over(w.providers[p.id].rateLimitedUntil, now) && Over(w.providers[p.id].circuitOpenUntil, now)
  }

  lemma {:induction false} AvailableMembers(env: Environment, providers: seq<Provider>, health: map<string, Health>,
                                            now: Time, p: Provider)
    ensures p in Available(env, providers, health, now) <==>
            p in providers && p.id in health && env.routes(p) && health[p.id].enabled
            && Over(health[p.id].rateLimitedUntil, now) && Over(health[p.id].circuitOpenUntil, now)
  {
    if providers != [] { AvailableMembers(env, providers[1..], health, now, p); }
  }

  lemma StartingMembers(env: Environment, w: World, p: Provider)
    ensures p in Starting(env, w) <==> InTheRunning(env, w, p)
  {
    AvailableMembers(env, env.providers, w.providers, env.clock(w.ticks), p);
  }

  // ----- reading a candidate -----

  lemma {:induction false} SlashAt(before: string, after: string)
    requires '/' !in before
    ensures FirstSlash(before + "/" + after) == |before|
  {
    var s := before + "/" + after;
    assert s[|before|] == '/';
    assert forall i | 0 <= i < |before| :: s[i] == before[i];
  }

  /** A candidate splits at its first slash: the prefix, then the model. */
  lemma SplitAtSlash(prefix: string, raw: string)
    requires '/' !in prefix
    ensures SplitModel(prefix + "/" + raw) == if prefix == "" || raw == "" then None else Some((prefix, raw))
  {
    var value := prefix + "/" + raw;
    SlashAt(prefix, raw);
    assert value[..|prefix|] == prefix && value[|prefix| + 1..] == raw;
  }

  lemma BareIsWhole(model: string)
    requires '/' !in model
    ensures SplitModel(model) == Some(("", model))
  {
  }

  /** A candidate is refused exactly when its first slash has nothing before or nothing after it. */
  lemma RefusedExactly(value: string)
    ensures SplitModel(value).None? <==>
            exists k | 0 <= k < |value| ::
              value[k] == '/' && '/' !in value[..k] && (k == 0 || k == |value| - 1)
  {
    var k := FirstSlash(value);
    if k < |value| {
      assert value[k] == '/' && '/' !in value[..k];
    }
    forall j | 0 <= j < |value| && value[j] == '/' && '/' !in value[..j] ensures j == k {
      assert forall m | 0 <= m < j :: value[..j][m] == value[m];
    }
  }

  // ----- the providers of a candidate -----

  /** The provider is visited for this candidate, and asked for this model. */
  predicate Visited(visits: seq<Visit>, p: Provider, raw: string) {
    exists k | 0 <= k < |visits| :: visits[k].At? && visits[k].provider == p && visits[k].raw == raw
  }

  predicate AllAsk(visits: seq<Visit>, i: nat, model: string, raw: string) {
    forall k | 0 <= k < |visits| && visits[k].At? ::
      visits[k].candidate == i && visits[k].model == model && visits[k].raw == raw
  }

  lemma VisitsOfMatching(env: Environment, available: seq<Provider>, i: nat, model: string, prefix: string, raw: string,
                         p: Provider)
    requires SplitModel(model) == Some((prefix, raw))
    ensures var visits := CandidateVisits(env, available, i, model);
            && (Visited(visits, p, raw) <==> p in Matching(env, available, prefix, raw))
            && AllAsk(visits, i, model, raw)
            && (Matching(env, available, prefix, raw) == [] ==>
                  visits == [Unresolved(i, if prefix == "" then raw else prefix, raw)])
            && (Matching(env, available, prefix, raw) != [] ==> forall k | 0 <= k < |visits| :: visits[k].At?)
  {
    var matching := Matching(env, available, prefix, raw);
    var sorted := SortBy(matching, ProviderKey);
    SortPermutes(matching, ProviderKey);
    assert |sorted| == |multiset(sorted)| == |multiset(matching)| == |matching|;
    assert p in sorted <==> p in multiset(matching);
    var visits := CandidateVisits(env, available, i, model);
    if sorted != [] {
      assert |visits| == |sorted|;
      if p in sorted {
        var k :| 0 <= k < |sorted| && sorted[k] == p;
        assert visits[k].At? && visits[k].provider == p;
      }
    }
  }

  lemma {:induction false} WithPrefixMembers(providers: seq<Provider>, prefix: string, p: Provider)
    ensures p in WithPrefix(providers, prefix) <==> p in providers && (p.modelPrefix == prefix || p.provider == prefix)
  {
    if providers != [] { WithPrefixMembers(providers[1..], prefix, p); }
  }

  /**
   The candidate prefix/raw is sent to a provider exactly when that is in the running and bears the
   prefix as its model prefix or its name; each is asked for raw, and without any there is one entry.
   */
  lemma PrefixedVisits(env: Environment, w: World, i: nat, prefix: string, raw: string, p: Provider)
    requires prefix != "" && '/' !in prefix && raw != ""
    ensures var model := prefix + "/" + raw;
            var visits := CandidateVisits(env, Starting(env, w), i, model);
            && (Visited(visits, p, raw) <==>
                InTheRunning(env, w, p) && (p.modelPrefix == prefix || p.provider == prefix))
            && AllAsk(visits, i, model, raw)
            && ((forall q :: !Visited(visits, q, raw)) ==> visits == [Unresolved(i, prefix, raw)])
  {
    var available, model := Starting(env, w), prefix + "/" + raw;
    SplitAtSlash(prefix, raw);
    VisitsOfMatching(env, available, i, model, prefix, raw, p);
    WithPrefixMembers(available, prefix, p);
    StartingMembers(env, w, p);
    NobodyVisited(env, available, i, model, prefix, raw);
  }

  lemma NobodyVisited(env: Environment, available: seq<Provider>, i: nat, model: string, prefix: string, raw: string)
    requires SplitModel(model) == Some((prefix, raw))
    ensures var visits := CandidateVisits(env, available, i, model);
            (forall q :: !Visited(visits, q, raw)) ==>
              visits == [Unresolved(i, if prefix == "" then raw else prefix, raw)]
  {
    var matching := Matching(env, available, prefix, raw);
    if matching == [] {
      VisitsOfMatching(env, available, i, model, prefix, raw, Nobody());
    } else {
      VisitsOfMatching(env, available, i, model, prefix, raw, matching[0]);
      assert matching[0] in matching;
    }
  }

  function Nobody(): Provider {
    Provider("", "", "", "", None, 0, false, false)
  }

  /** The guesses for a bare model: the provider its name suggests, or a default model of that name. */
  predicate Suggested(env: Environment, p: Provider, model: string) {
    var inferred, asDefault := env.inferred(model), "/" + model;
    || (inferred.Some? && p.provider == inferred.value)
    || (inferred.Some? && p.modelPrefix == inferred.value)
    || (inferred == Some("anthropic") && env.anthropicCompatible(p))
    || p.defaultModel == Some(model)
    || (p.defaultModel.Some? && |p.defaultModel.value| >= |asDefault|
        && p.defaultModel.value[|p.defaultModel.value| - |asDefault|..] == asDefault)
  }

  lemma {:induction false} GuessedMembers(env: Environment, providers: seq<Provider>, model: string, p: Provider)
    ensures p in Guessed(env, providers, model) <==> p in providers && Suggested(env, p, model)
  {
    if providers != [] { GuessedMembers(env, providers[1..], model, p); }
  }

  lemma GuessedNone(env: Environment, providers: seq<Provider>, model: string)
    ensures Guessed(env, providers, model) == [] <==> forall q | q in providers :: !Suggested(env, q, model)
  {
    var guessed := Guessed(env, providers, model);
    forall q ensures q in guessed <==> q in providers && Suggested(env, q, model) {
      GuessedMembers(env, providers, model, q);
    }
    if guessed != [] { assert guessed[0] in guessed; }
  }

  /**
   A bare model is sent to the providers in the running that it suggests; if its name suggests no
   provider at all and none has it as its default, to every provider in the running.
   */
  lemma BareVisits(env: Environment, w: World, i: nat, model: string, p: Provider)
    requires '/' !in model
    ensures var visits := CandidateVisits(env, Starting(env, w), i, model);
            && (Visited(visits, p, model) <==>
                InTheRunning(env, w, p)
                && (Suggested(env, p, model)
                    || (env.inferred(model).None?
                        && forall q :: InTheRunning(env, w, q) ==> !Suggested(env, q, model))))
            && AllAsk(visits, i, model, model)
            && ((forall q :: !Visited(visits, q, model)) ==> visits == [Unresolved(i, model, model)])
  {
    var available := Starting(env, w);
    BareIsWhole(model);
    VisitsOfMatching(env, available, i, model, "", model, p);
    GuessedMembers(env, available, model, p);
    GuessedNone(env, available, model);
    forall q ensures q in available <==> InTheRunning(env, w, q) {
      StartingMembers(env, w, q);
    }
    NobodyVisited(env, available, i, model, "", model);
  }

  // ----- the targets at a provider -----

  /** A deadline that is over, or just now. */
  predicate Reached(until: Option<Time>, now: Time) {
    until.None? || until.value <= now
  }

  /** An enabled account of the connection, past both its cooldowns. */
  predicate Rested(env: Environment, w: World, p: Provider, a: Account) {
    var now := env.clock(w.ticks);
    && a in env.accounts && a.connection == p.id && a.id in w.accounts && w.accounts[a.id].enabled
    && Reached(w.accounts[a.id].rateLimitedUntil, now) && Reached(w.accounts[a.id].circuitOpenUntil, now)
  }

  lemma {:induction false} SelectableMembers(accounts: seq<Account>, health: map<string, Health>, connection: string,
                                             now: Time, a: Account)
    ensures a in SelectableAccounts(accounts, health, connection, now) <==>
            a in accounts && a.connection == connection && a.id in health && health[a.id].enabled
            && Reached(health[a.id].rateLimitedUntil, now) && Reached(health[a.id].circuitOpenUntil, now)
  {
    if accounts != [] { SelectableMembers(accounts[1..], health, connection, now, a); }
  }

  lemma ListedMembers(env: Environment, w: World, p: Provider, a: Account)
    ensures a in Listed(env, w, p) <==> Rested(env, w, p, a)
  {
    var now := env.clock(w.ticks);
    var some := SelectableAccounts(env.accounts, w.accounts, p.id, now);
    SelectableMembers(env.accounts, w.accounts, p.id, now, a);
    SortPermutes(some, AccountKey);
    assert a in multiset(Listed(env, w, p)) <==> a in multiset(some);
  }

  lemma OrderedMembers(w: World, p: Provider, listed: seq<Account>, a: Account)
    ensures a in Ordered(w, p, listed) <==> a in listed
  {
    if Rotates(p, listed) {
      var idx := CounterOf(w.counters, ConnectionKey(p.id)) % |listed|;
      RotateIsPermutation(listed, idx);
      assert a in multiset(Rotate(listed, idx)) <==> a in multiset(listed);
    }
  }

  lemma {:induction false} UsableMembers(env: Environment, p: Provider, accounts: seq<Account>, tick: nat,
                                         t: Option<Account>)
    ensures t in Usable(env, p, accounts, tick) <==>
            t.Some? && t.value in accounts && env.prepared(tick, t.value.id) && env.serves(p, t)
  {
    if accounts != [] { UsableMembers(env, p, accounts[1..], tick, t); }
  }

  lemma BareMembers(env: Environment, p: Provider, t: Option<Account>)
    ensures t in Bare(env, p) <==>
            && t.None? && env.serves(p, None)
            && (forall a | a in env.accounts :: a.connection != p.id)
            && ToAsciiLower(p.authType) != "oauth" && ToAsciiLower(p.provider) != "custom"
  {
    if HasAccounts(env.accounts, p.id) {
      var i :| 0 <= i < |env.accounts| && env.accounts[i].connection == p.id;
      assert env.accounts[i] in env.accounts;
    }
  }

  /**
   The targets at a provider: exactly its rested accounts whose secret could be prepared and that
   serve the endpoint; and the bare connection exactly when it has no account at all and needs none.
   */
  lemma TargetsExactly(env: Environment, w: World, p: Provider, t: Option<Account>)
    ensures t in Targets(env, w, p) <==>
            match t
            case Some(a) => Rested(env, w, p, a) && env.prepared(w.ticks, a.id) && env.serves(p, t)
            case None =>
              && env.serves(p, None) && (forall a | a in env.accounts :: a.connection != p.id)
              && ToAsciiLower(p.authType) != "oauth" && ToAsciiLower(p.provider) != "custom"
  {
    var listed := Listed(env, w, p);
    if listed == [] {
      BareMembers(env, p, t);
      if t.Some? { ListedMembers(env, w, p, t.value); }
    } else {
      ListedMembers(env, w, p, listed[0]);
      assert listed[0] in env.accounts && listed[0].connection == p.id;
      UsableMembers(env, p, Ordered(w, p, listed), w.ticks, t);
      if t.Some? {
        OrderedMembers(w, p, listed, t.value);
        ListedMembers(env, w, p, t.value);
      }
    }
  }

  lemma {:induction false} UsableAll(env: Environment, p: Provider, accounts: seq<Account>, tick: nat)
    requires forall a | a in accounts :: env.prepared(tick, a.id) && env.serves(p, Some(a))
    ensures var usable := Usable(env, p, accounts, tick);
            |usable| == |accounts| && forall j | 0 <= j < |accounts| :: usable[j] == Some(accounts[j])
  {
    if accounts != [] { UsableAll(env, p, accounts[1..], tick); }
  }

  ghost predicate AllUsable(env: Environment, p: Provider, accounts: seq<Account>, tick: nat) {
    forall a | a in accounts :: env.prepared(tick, a.id) && env.serves(p, Some(a))
  }

  /** Once around the list, from its turn-th account on. */
  predicate GoesAround(targets: seq<Option<Account>>, listed: seq<Account>, turn: nat)
    requires listed != []
  {
    && |targets| == |listed|
    && forall j | 0 <= j < |listed| :: targets[j] == Some(listed[(turn % |listed| + j) % |listed|])
  }

  lemma AroundFrom(env: Environment, p: Provider, listed: seq<Account>, tick: nat, turn: nat)
    requires listed != [] && AllUsable(env, p, listed, tick)
    ensures GoesAround(Usable(env, p, Rotate(listed, turn % |listed|), tick), listed, turn)
  {
    var rotated := Rotate(listed, turn % |listed|);
    forall a | a in rotated ensures a in listed {
      RotateIsPermutation(listed, turn % |listed|);
      assert a in multiset(rotated);
    }
    UsableAll(env, p, rotated, tick);
    forall j | 0 <= j < |listed| ensures rotated[j] == listed[(turn % |listed| + j) % |listed|] {
      RotateAt(listed, turn % |listed|, j);
    }
  }

  /**
   A provider that rotates starts at the account its counter points to and goes once around its list;
   the counter moves on by one, whatever becomes of the attempts.
   */
  lemma RotatesByCounter(env: Environment, w: World, p: Provider)
    requires p.roundRobin && |Listed(env, w, p)| >= 2
    ensures var listed, key := Listed(env, w, p), ConnectionKey(p.id);
            var turn := if key in w.counters then w.counters[key] else 0;
            && AfterListing(env, w, p).counters == w.counters[key := (turn + 1) % USIZE]
            && (AllUsable(env, p, listed, w.ticks) ==> GoesAround(Targets(env, w, p), listed, turn))
  {
    var listed := Listed(env, w, p);
    if AllUsable(env, p, listed, w.ticks) {
      AroundFrom(env, p, listed, w.ticks, CounterOf(w.counters, ConnectionKey(p.id)));
    }
  }
}
