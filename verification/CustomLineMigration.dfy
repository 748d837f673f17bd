/** What the migration of the custom lines conserves. */
module CustomLineMigration {
  import opened Options
  import opened Sorting
  import opened CustomLine
  import Strings

  /** Ids are primary keys, and every account belongs to a line. */
  predicate Sound(s: Store) {
    && Distinct(s.lines, LineId)
    && AllBelow(Ids(s.lines, LineId), s.issued)
    && AllUnder(s.accounts, Ids(s.lines, LineId))
  }

  predicate AllBelow(ids: set<nat>, bound: nat) {
    forall id | id in ids :: id < bound
  }

  predicate AllUnder(accounts: seq<Account>, lines: set<nat>) {
    forall i | 0 <= i < |accounts| :: accounts[i].line in lines
  }

  function CustomIds(lines: seq<Line>): set<nat> {
    Ids(OfProvider(lines, "custom"), LineId)
  }

  // ----- secrets -----

  function SecretsIn(accounts: seq<Account>, lines: set<nat>): multiset<Secret> {
    if accounts == [] then multiset{}
    else (if accounts[0].line in lines then multiset{accounts[0].credentials.secret} else multiset{})
         + SecretsIn(accounts[1..], lines)
  }

  function SecretsOf(accounts: seq<Account>): multiset<Secret> {
    if accounts == [] then multiset{} else multiset{accounts[0].credentials.secret} + SecretsOf(accounts[1..])
  }

  /** The secrets of all accounts under custom lines. */
  function CustomSecrets(s: Store): multiset<Secret> {
    SecretsIn(s.accounts, CustomIds(s.lines))
  }

  /** The account an orphan line becomes itself, if its base URL is usable. */
  function OwnSecret(orphan: Line): multiset<Secret> {
    if Usable(orphan) then multiset{OrphanSecret(orphan)} else multiset{}
  }

  function OwnSecrets(orphans: seq<Line>, from: nat): multiset<Secret>
    requires from <= |orphans|
    decreases |orphans| - from
  {
    if from == |orphans| then multiset{} else OwnSecret(orphans[from]) + OwnSecrets(orphans, from + 1)
  }

  lemma {:induction false} SecretsAppend(accounts: seq<Account>, a: Account, lines: set<nat>)
    ensures SecretsIn(accounts + [a], lines) ==
            SecretsIn(accounts, lines) + if a.line in lines then multiset{a.credentials.secret} else multiset{}
  {
    if accounts == [] {
      assert [] + [a] == [a] && [a][1..] == [];
    } else {
      SecretsAppend(accounts[1..], a, lines);
      assert (accounts + [a])[1..] == accounts[1..] + [a];
    }
  }

  lemma {:induction false} SecretsDrop(accounts: seq<Account>, lines: set<nat>, id: nat)
    requires id in lines
    ensures SecretsIn(accounts, lines) ==
            SecretsIn(DropAccounts(accounts, id), lines - {id}) + SecretsIn(accounts, {id})
  {
    if accounts != [] {
      SecretsDrop(accounts[1..], lines, id);
      var rest := DropAccounts(accounts[1..], id);
      assert ([accounts[0]] + rest)[1..] == rest;
      assert [] + rest == rest;
    }
  }

  lemma {:induction false} SecretsInsert(a: Account, sorted: seq<Account>)
    ensures SecretsOf(Insert(a, sorted, AccountKey)) == multiset{a.credentials.secret} + SecretsOf(sorted)
  {
    if sorted == [] || Leq(AccountKey(a), AccountKey(sorted[0])) {
      assert ([a] + sorted)[1..] == sorted;
    } else {
      SecretsInsert(a, sorted[1..]);
      var rest := Insert(a, sorted[1..], AccountKey);
      assert ([sorted[0]] + rest)[1..] == rest;
    }
  }

  lemma {:induction false} SecretsSort(accounts: seq<Account>)
    ensures SecretsOf(SortBy(accounts, AccountKey)) == SecretsOf(accounts)
  {
    if accounts != [] {
      SecretsSort(accounts[1..]);
      SecretsInsert(accounts[0], SortBy(accounts[1..], AccountKey));
    }
  }

  lemma {:induction false} SecretsOfLine(accounts: seq<Account>, id: nat)
    ensures SecretsOf(OfLine(accounts, id)) == SecretsIn(accounts, {id})
  {
    if accounts != [] {
      SecretsOfLine(accounts[1..], id);
      var rest := OfLine(accounts[1..], id);
      assert ([accounts[0]] + rest)[1..] == rest;
      assert [] + rest == rest;
    }
  }

  lemma NormalizedKeepsSecret(proxyOk: ProxyCheck, c: Credentials)
    ensures Normalized(proxyOk, c).Good? ==> Normalized(proxyOk, c).value.secret == c.secret
  {
  }

  /** A created account adds its secret to its line and leaves every other line alone. */
  lemma CreatedSecrets(proxyOk: ProxyCheck, s: Store, shell: nat, c: Credentials, lines: set<nat>)
    requires HasLine(s.lines, shell)
    ensures var out := Created(proxyOk, s, shell, c);
            && out.store.lines == s.lines
            && (out.ok <==> Normalized(proxyOk, c).Good?)
            && SecretsIn(out.store.accounts, lines) ==
               SecretsIn(s.accounts, lines) + if out.ok && shell in lines then multiset{c.secret} else multiset{}
  {
    NormalizedKeepsSecret(proxyOk, c);
    var n := Normalized(proxyOk, c);
    if n.Good? {
      SecretsAppend(s.accounts, Account(s.issued, shell, n.value, s.now), lines);
    }
  }

  lemma {:induction false} CopiedSecrets(proxyOk: ProxyCheck, s: Store, shell: nat, orphan: Line, list: seq<Account>,
                                         from: nat, lines: set<nat>)
    requires from <= |list| && HasLine(s.lines, shell)
    ensures var out := Copied(proxyOk, s, shell, orphan, list, from);
            && out.store.lines == s.lines
            && SecretsIn(s.accounts, lines) <= SecretsIn(out.store.accounts, lines)
            && (shell !in lines ==> SecretsIn(out.store.accounts, lines) == SecretsIn(s.accounts, lines))
            && (out.ok && shell in lines ==>
                  SecretsIn(out.store.accounts, lines) == SecretsIn(s.accounts, lines) + SecretsOf(list[from..]))
    decreases |list| - from
  {
    if from < |list| {
      var c := Moved(orphan, list[from].credentials);
      CreatedSecrets(proxyOk, s, shell, c, lines);
      var next := Created(proxyOk, s, shell, c);
      assert list[from..][1..] == list[from + 1..];
      if next.ok { CopiedSecrets(proxyOk, next.store, shell, orphan, list, from + 1, lines); }
    }
  }

  // ----- custom lines -----

  lemma {:induction false} CustomIdsAreIds(lines: seq<Line>)
    ensures CustomIds(lines) <= Ids(lines, LineId)
    ensures Distinct(lines, LineId) ==> Distinct(OfProvider(lines, "custom"), LineId)
  {
    if lines != [] {
      CustomIdsAreIds(lines[1..]);
      var rest := OfProvider(lines[1..], "custom");
      assert ([lines[0]] + rest)[1..] == rest;
      assert [] + rest == rest;
    }
  }

  lemma {:induction false} DropLineIds(lines: seq<Line>, id: nat)
    ensures Ids(DropLine(lines, id), LineId) == Ids(lines, LineId) - {id}
    ensures Distinct(lines, LineId) ==> Distinct(DropLine(lines, id), LineId)
  {
    if lines != [] {
      DropLineIds(lines[1..], id);
      var rest := DropLine(lines[1..], id);
      assert ([lines[0]] + rest)[1..] == rest && [] + rest == rest;
    }
  }

  lemma {:induction false} DropLineOfProvider(lines: seq<Line>, id: nat, provider: string)
    ensures OfProvider(DropLine(lines, id), provider) == DropLine(OfProvider(lines, provider), id)
  {
    if lines != [] {
      DropLineOfProvider(lines[1..], id, provider);
      var rest, some := DropLine(lines[1..], id), OfProvider(lines[1..], provider);
      assert ([lines[0]] + rest)[1..] == rest && [] + rest == rest;
      assert ([lines[0]] + some)[1..] == some && [] + some == some;
    }
  }

  lemma DropCustomIds(lines: seq<Line>, id: nat)
    ensures CustomIds(DropLine(lines, id)) == CustomIds(lines) - {id}
  {
    DropLineOfProvider(lines, id, "custom");
    DropLineIds(OfProvider(lines, "custom"), id);
  }

  /** The copies of an orphan, seen from any set of lines. */
  lemma RehomingSecrets(proxyOk: ProxyCheck, s: Store, shell: nat, orphan: Line, lines: set<nat>)
    requires HasLine(s.lines, shell) && orphan.id != shell
    ensures var out := Rehoming(proxyOk, s, shell, orphan);
            && out.store.lines == s.lines
            && SecretsIn(s.accounts, lines) <= SecretsIn(out.store.accounts, lines)
            && (shell !in lines ==> SecretsIn(out.store.accounts, lines) == SecretsIn(s.accounts, lines))
            && (out.ok && shell in lines ==>
                  SecretsIn(out.store.accounts, lines) ==
                  SecretsIn(s.accounts, lines) + OwnSecret(orphan) + SecretsIn(s.accounts, {orphan.id}))
  {
    CreatedSecrets(proxyOk, s, shell, OrphanCredentials(orphan), lines);
    CreatedSecrets(proxyOk, s, shell, OrphanCredentials(orphan), {orphan.id});
    var first := if Usable(orphan) then Created(proxyOk, s, shell, OrphanCredentials(orphan)) else Outcome(s, true);
    if first.ok {
      var list := AccountsOf(first.store.accounts, orphan.id);
      SecretsSort(OfLine(first.store.accounts, orphan.id));
      SecretsOfLine(first.store.accounts, orphan.id);
      assert list[0..] == list;
      CopiedSecrets(proxyOk, first.store, shell, orphan, list, 0, lines);
    }
  }

  /** One orphan line: its accounts and its own endpoint end up under the shell, or nothing is deleted. */
  lemma RehomedSecrets(proxyOk: ProxyCheck, s: Store, shell: nat, orphan: Line)
    requires shell in CustomIds(s.lines) && orphan.id in CustomIds(s.lines) && orphan.id != shell
    ensures var out := Rehomed(proxyOk, s, shell, orphan);
            && CustomSecrets(s) <= CustomSecrets(out.store)
            && (if out.ok then
                  && CustomSecrets(out.store) == CustomSecrets(s) + OwnSecret(orphan)
                  && CustomIds(out.store.lines) == CustomIds(s.lines) - {orphan.id}
                else out.store.lines == s.lines)
  {
    var ids, copied := CustomIds(s.lines), Rehoming(proxyOk, s, shell, orphan);
    CustomIdsAreIds(s.lines);
    RehomingSecrets(proxyOk, s, shell, orphan, ids);
    RehomingSecrets(proxyOk, s, shell, orphan, {orphan.id});
    SecretsDrop(copied.store.accounts, ids, orphan.id);
    DropCustomIds(s.lines, orphan.id);
  }

  predicate OrphansAmong(orphans: seq<Line>, from: nat, shell: nat, ids: set<nat>) {
    && (forall k | from <= k < |orphans| :: orphans[k].id in ids && orphans[k].id != shell)
    && (forall j, k | from <= j < k < |orphans| :: orphans[j].id != orphans[k].id)
  }

  lemma {:induction false} MigratedSecrets(proxyOk: ProxyCheck, s: Store, shell: nat, orphans: seq<Line>, from: nat)
    requires from <= |orphans| && shell in CustomIds(s.lines)
    requires OrphansAmong(orphans, from, shell, CustomIds(s.lines))
    ensures var out := Migrated(proxyOk, s, shell, orphans, from);
            && CustomSecrets(s) <= CustomSecrets(out.store)
            && (out.ok ==> CustomSecrets(out.store) == CustomSecrets(s) + OwnSecrets(orphans, from))
            && (out.ok ==> CustomIds(out.store.lines) == CustomIds(s.lines) - Ids(orphans[from..], LineId))
    decreases |orphans| - from
  {
    if from < |orphans| {
      RehomedSecrets(proxyOk, s, shell, orphans[from]);
      var next := Rehomed(proxyOk, s, shell, orphans[from]);
      assert orphans[from..][1..] == orphans[from + 1..];
      if next.ok { MigratedSecrets(proxyOk, next.store, shell, orphans, from + 1); }
    }
  }

  // ----- the shell and the orphans -----

  lemma {:induction false} OfProviderAppend(lines: seq<Line>, line: Line, provider: string)
    ensures OfProvider(lines + [line], provider)
         == OfProvider(lines, provider) + if line.provider == provider then [line] else []
  {
    if lines == [] {
      assert [] + [line] == [line] && [line][1..] == [];
    } else {
      OfProviderAppend(lines[1..], line, provider);
      assert (lines + [line])[1..] == lines[1..] + [line];
      var more := if line.provider == provider then [line] else [];
      var head := if lines[0].provider == provider then [lines[0]] else [];
      Strings.Assoc(head, OfProvider(lines[1..], provider), more);
    }
  }

  lemma {:induction false} IdsAppend(lines: seq<Line>, line: Line)
    ensures Ids(lines + [line], LineId) == Ids(lines, LineId) + {line.id}
    ensures Distinct(lines, LineId) && line.id !in Ids(lines, LineId) ==> Distinct(lines + [line], LineId)
  {
    if lines == [] {
      assert [] + [line] == [line] && [line][1..] == [];
    } else {
      IdsAppend(lines[1..], line);
      assert (lines + [line])[1..] == lines[1..] + [line];
    }
  }

  /** Clearing a base URL changes neither ids nor providers. */
  lemma {:induction false} RebaseKeepsIds(lines: seq<Line>, id: nat, url: string)
    ensures var after := Rewritten(lines, id, SetBase(url));
            && Ids(after, LineId) == Ids(lines, LineId) && CustomIds(after) == CustomIds(lines)
            && (Distinct(lines, LineId) ==> Distinct(after, LineId))
            && forall provider :: OfProvider(after, provider) == [] <==> OfProvider(lines, provider) == []
  {
    if lines != [] {
      RebaseKeepsIds(lines[1..], id, url);
      var head := if lines[0].id == id then SetBase(url)(lines[0]) else lines[0];
      var rest := Rewritten(lines[1..], id, SetBase(url));
      assert ([head] + rest)[1..] == rest;
      assert head.id == lines[0].id && head.provider == lines[0].provider;
      var some, was := OfProvider(rest, "custom"), OfProvider(lines[1..], "custom");
      assert ([head] + some)[1..] == some && [] + some == some;
      assert ([lines[0]] + was)[1..] == was && [] + was == was;
    }
  }

  lemma {:induction false} ForeignSecrets(accounts: seq<Account>, lines: set<nat>, more: nat, all: set<nat>)
    requires AllUnder(accounts, all) && more !in all
    ensures SecretsIn(accounts, lines + {more}) == SecretsIn(accounts, lines)
  {
    if accounts != [] {
      assert accounts[0].line in all;
      assert forall i | 0 <= i < |accounts[1..]| :: accounts[1..][i] == accounts[i + 1];
      ForeignSecrets(accounts[1..], lines, more, all);
    }
  }

  lemma ShellAmongCustoms(s: Store)
    ensures FirstShell(Customs(s.lines)).Some? ==> ShellId(s) in CustomIds(s.lines)
  {
    var found := FirstShell(Customs(s.lines));
    if found.Some? {
      var k :| 0 <= k < |Customs(s.lines)| && Customs(s.lines)[k] == found.value;
      IdsContain(Customs(s.lines), LineId, k);
      SortKeepsIds(OfProvider(s.lines, "custom"), LineKey, LineId);
    }
  }

  /** A new custom line has no accounts yet. */
  lemma NewLineSound(s: Store, line: Line)
    requires Sound(s) && line.provider == "custom"
    ensures var t := WithLine(s, line);
            && Sound(t) && CustomIds(t.lines) == CustomIds(s.lines) + {s.issued}
            && CustomSecrets(t) == CustomSecrets(s) && t.accounts == s.accounts
  {
    var created := line.(id := s.issued, createdAt := s.now);
    OfProviderAppend(s.lines, created, "custom");
    IdsAppend(OfProvider(s.lines, "custom"), created);
    IdsAppend(s.lines, created);
    ForeignSecrets(s.accounts, CustomIds(s.lines), s.issued, Ids(s.lines, LineId));
  }

  lemma RebasedSound(s: Store, id: nat, url: string)
    requires Sound(s)
    ensures var t := s.(lines := Rewritten(s.lines, id, SetBase(url)));
            Sound(t) && CustomIds(t.lines) == CustomIds(s.lines) && CustomSecrets(t) == CustomSecrets(s)
  {
    RebaseKeepsIds(s.lines, id, url);
  }

  /** The shell is one of the custom lines, and making sure of it touches no account. */
  lemma WithShellSound(s: Store)
    requires Sound(s)
    ensures var t := WithShell(s);
            && Sound(t) && CustomIds(t.lines) == CustomIds(s.lines) + {ShellId(s)}
            && CustomSecrets(t) == CustomSecrets(s) && t.accounts == s.accounts
  {
    var found := FirstShell(Customs(s.lines));
    if found.Some? {
      ShellAmongCustoms(s);
      RebasedSound(s, ShellId(s), "");
    } else {
      NewLineSound(s, NewShell());
    }
  }

  lemma OrphansSound(s: Store)
    requires Sound(s)
    ensures Ids(OrphansOf(s), LineId) == CustomIds(s.lines) - {ShellId(s)}
    ensures OrphansAmong(OrphansOf(s), 0, ShellId(s), CustomIds(WithShell(s).lines))
  {
    var orphans := OrphansOf(s);
    WithShellSound(s);
    CustomIdsAreIds(s.lines);
    SortKeepsIds(OfProvider(s.lines, "custom"), LineKey, LineId);
    DropLineIds(Customs(s.lines), ShellId(s));
    forall k | 0 <= k < |orphans|
      ensures orphans[k].id in CustomIds(WithShell(s).lines) && orphans[k].id != ShellId(s)
    {
      IdsContain(orphans, LineId, k);
    }
    forall j, k | 0 <= j < k < |orphans| ensures orphans[j].id != orphans[k].id {
      DistinctAt(orphans, LineId, j, k);
    }
  }

  /**
   The migration conserves accounts. Whatever happens, no secret under a custom line is lost; a run
   that goes through leaves the shell as the only custom line, holding every account the custom lines
   had and one more for each orphan with a usable base URL.
   */
  lemma MigrationConservesAccounts(proxyOk: ProxyCheck, s: Store)
    requires Sound(s)
    ensures var out := Ensured(proxyOk, s);
            && CustomSecrets(s) <= CustomSecrets(out.store)
            && (out.ok ==> CustomIds(out.store.lines) == {ShellId(s)})
            && (out.ok ==> CustomSecrets(out.store) == CustomSecrets(s) + OwnSecrets(OrphansOf(s), 0))
  {
    WithShellSound(s);
    OrphansSound(s);
    AllOrphansSecrets(proxyOk, WithShell(s), ShellId(s), OrphansOf(s), CustomIds(s.lines));
  }

  lemma AllOrphansSecrets(proxyOk: ProxyCheck, t: Store, shell: nat, orphans: seq<Line>, ids: set<nat>)
    requires CustomIds(t.lines) == ids + {shell} && Ids(orphans, LineId) == ids - {shell}
    requires OrphansAmong(orphans, 0, shell, CustomIds(t.lines))
    ensures var out := Migrated(proxyOk, t, shell, orphans, 0);
            && CustomSecrets(t) <= CustomSecrets(out.store)
            && (out.ok ==> CustomIds(out.store.lines) == {shell})
            && (out.ok ==> CustomSecrets(out.store) == CustomSecrets(t) + OwnSecrets(orphans, 0))
  {
    MigratedSecrets(proxyOk, t, shell, orphans, 0);
    assert orphans[0..] == orphans;
    assert ids + {shell} - (ids - {shell}) == {shell};
  }

  // ----- when it goes through -----

  predicate AllMovable(proxyOk: ProxyCheck, orphan: Line, accounts: seq<Account>, from: nat) {
    forall i | from <= i < |accounts| :: Normalized(proxyOk, Moved(orphan, accounts[i].credentials)).Good?
  }

  /** Everything an orphan holds passes the checks of `create_provider_account`. */
  predicate Movable(proxyOk: ProxyCheck, orphan: Line, list: seq<Account>) {
    && (Usable(orphan) ==> Normalized(proxyOk, OrphanCredentials(orphan)).Good?)
    && AllMovable(proxyOk, orphan, list, 0)
  }

  /** The copies a movable account list becomes. */
  function Arriving(proxyOk: ProxyCheck, orphan: Line, accounts: seq<Account>, from: nat): seq<Credentials>
    requires from <= |accounts| && AllMovable(proxyOk, orphan, accounts, from)
    decreases |accounts| - from
  {
    if from == |accounts| then []
    else [Normalized(proxyOk, Moved(orphan, accounts[from].credentials)).value]
         + Arriving(proxyOk, orphan, accounts, from + 1)
  }

  function Arrivals(proxyOk: ProxyCheck, orphan: Line, list: seq<Account>): seq<Credentials>
    requires Movable(proxyOk, orphan, list)
  {
    (if Usable(orphan) then [Normalized(proxyOk, OrphanCredentials(orphan)).value] else [])
    + Arriving(proxyOk, orphan, list, 0)
  }

  /** The credentials under one line, in table order. */
  function Held(accounts: seq<Account>, line: nat): seq<Credentials> {
    if accounts == [] then []
    else (if accounts[0].line == line then [accounts[0].credentials] else []) + Held(accounts[1..], line)
  }

  lemma {:induction false} HeldAppend(accounts: seq<Account>, a: Account, line: nat)
    ensures Held(accounts + [a], line) == Held(accounts, line) + if a.line == line then [a.credentials] else []
    ensures OfLine(accounts + [a], line) == OfLine(accounts, line) + if a.line == line then [a] else []
  {
    if accounts == [] {
      assert [] + [a] == [a] && [a][1..] == [];
    } else {
      HeldAppend(accounts[1..], a, line);
      assert (accounts + [a])[1..] == accounts[1..] + [a];
      var b := accounts[0];
      Strings.Assoc(if b.line == line then [b.credentials] else [], Held(accounts[1..], line),
                    if a.line == line then [a.credentials] else []);
      Strings.Assoc(if b.line == line then [b] else [], OfLine(accounts[1..], line),
                    if a.line == line then [a] else []);
    }
  }

  lemma CreatedHeld(proxyOk: ProxyCheck, s: Store, shell: nat, c: Credentials, other: nat)
    requires HasLine(s.lines, shell) && other != shell
    ensures var out := Created(proxyOk, s, shell, c);
            && out.store.lines == s.lines
            && (out.ok <==> Normalized(proxyOk, c).Good?)
            && Held(out.store.accounts, shell) ==
               Held(s.accounts, shell) + (if out.ok then [Normalized(proxyOk, c).value] else [])
            && OfLine(out.store.accounts, other) == OfLine(s.accounts, other)
  {
    if Normalized(proxyOk, c).Good? {
      var a := Account(s.issued, shell, Normalized(proxyOk, c).value, s.now);
      HeldAppend(s.accounts, a, shell);
      HeldAppend(s.accounts, a, other);
      assert OfLine(s.accounts, other) + [] == OfLine(s.accounts, other);
    } else {
      assert Held(s.accounts, shell) + [] == Held(s.accounts, shell);
    }
  }

  /** Accounts from `from` on are copied exactly when each of them passes the checks. */
  lemma {:induction false} CopiedHeld(proxyOk: ProxyCheck, s: Store, shell: nat, orphan: Line, list: seq<Account>,
                                      from: nat, other: nat)
    requires from <= |list| && HasLine(s.lines, shell) && other != shell
    ensures var out := Copied(proxyOk, s, shell, orphan, list, from);
            && out.store.lines == s.lines
            && (out.ok <==> AllMovable(proxyOk, orphan, list, from))
            && (AllMovable(proxyOk, orphan, list, from) ==>
                  Held(out.store.accounts, shell) == Held(s.accounts, shell) + Arriving(proxyOk, orphan, list, from))
            && OfLine(out.store.accounts, other) == OfLine(s.accounts, other)
    decreases |list| - from
  {
    if from < |list| {
      var c := Moved(orphan, list[from].credentials);
      CreatedHeld(proxyOk, s, shell, c, other);
      var next := Created(proxyOk, s, shell, c);
      if next.ok {
        CopiedHeld(proxyOk, next.store, shell, orphan, list, from + 1, other);
        if AllMovable(proxyOk, orphan, list, from) {
          Strings.Assoc(Held(s.accounts, shell), [Normalized(proxyOk, c).value],
                        Arriving(proxyOk, orphan, list, from + 1));
        }
      }
    } else {
      assert Held(s.accounts, shell) + [] == Held(s.accounts, shell);
    }
  }

  lemma {:induction false} DropOfLine(accounts: seq<Account>, id: nat, line: nat)
    requires id != line
    ensures OfLine(DropAccounts(accounts, id), line) == OfLine(accounts, line)
    ensures Held(DropAccounts(accounts, id), line) == Held(accounts, line)
  {
    if accounts != [] {
      DropOfLine(accounts[1..], id, line);
      var rest, some, held := DropAccounts(accounts[1..], id), OfLine(accounts[1..], line), Held(accounts[1..], line);
      assert ([accounts[0]] + rest)[1..] == rest && [] + rest == rest;
      assert [] + some == some && [] + held == held;
    }
  }

  /** One orphan goes through exactly when it is movable, and its arrivals come in order. */
  lemma RehomedHeld(proxyOk: ProxyCheck, s: Store, shell: nat, orphan: Line, other: nat)
    requires HasLine(s.lines, shell) && orphan.id != shell && other != shell
    ensures var out := Rehomed(proxyOk, s, shell, orphan);
            && (out.ok <==> Movable(proxyOk, orphan, AccountsOf(s.accounts, orphan.id)))
            && (out.ok ==> HasLine(out.store.lines, shell))
            && (out.ok ==> Held(out.store.accounts, shell) ==
                           Held(s.accounts, shell) + Arrivals(proxyOk, orphan, AccountsOf(s.accounts, orphan.id)))
            && (out.ok && other != orphan.id ==> OfLine(out.store.accounts, other) == OfLine(s.accounts, other))
  {
    var own := OrphanCredentials(orphan);
    CreatedHeld(proxyOk, s, shell, own, other);
    CreatedHeld(proxyOk, s, shell, own, orphan.id);
    var first := if Usable(orphan) then Created(proxyOk, s, shell, own) else Outcome(s, true);
    if first.ok {
      var list := AccountsOf(s.accounts, orphan.id);
      assert AccountsOf(first.store.accounts, orphan.id) == list;
      CopiedHeld(proxyOk, first.store, shell, orphan, list, 0, other);
      var copied := Copied(proxyOk, first.store, shell, orphan, list, 0);
      if copied.ok {
        DropLineIds(s.lines, orphan.id);
        DropOfLine(copied.store.accounts, orphan.id, shell);
        if other != orphan.id { DropOfLine(copied.store.accounts, orphan.id, other); }
        var head := if Usable(orphan) then [Normalized(proxyOk, own).value] else [];
        assert Held(first.store.accounts, shell) == Held(s.accounts, shell) + head;
        Strings.Assoc(Held(s.accounts, shell), head, Arriving(proxyOk, orphan, list, 0));
      }
    }
  }

  /** Orphan k is judged by, and leaves, the accounts in `lists[k]`. */
  predicate EachMovable(proxyOk: ProxyCheck, orphans: seq<Line>, lists: seq<seq<Account>>, from: nat)
    requires |lists| == |orphans|
  {
    forall k | from <= k < |orphans| :: Movable(proxyOk, orphans[k], lists[k])
  }

  function AllArrivals(proxyOk: ProxyCheck, orphans: seq<Line>, lists: seq<seq<Account>>, from: nat): seq<Credentials>
    requires from <= |orphans| == |lists| && EachMovable(proxyOk, orphans, lists, from)
    decreases |orphans| - from
  {
    if from == |orphans| then []
    else Arrivals(proxyOk, orphans[from], lists[from]) + AllArrivals(proxyOk, orphans, lists, from + 1)
  }

  predicate ListsAre(accounts: seq<Account>, orphans: seq<Line>, lists: seq<seq<Account>>, from: nat) {
    |lists| == |orphans| && forall k | from <= k < |orphans| :: lists[k] == AccountsOf(accounts, orphans[k].id)
  }

  /** The accounts of each orphan as a store has them. */
  function ListsOf(accounts: seq<Account>, orphans: seq<Line>): (lists: seq<seq<Account>>)
    ensures ListsAre(accounts, orphans, lists, 0)
  {
    seq(|orphans|, i requires 0 <= i < |orphans| => AccountsOf(accounts, orphans[i].id))
  }

  lemma {:induction false} MigratedHeld(proxyOk: ProxyCheck, s: Store, shell: nat, orphans: seq<Line>,
                                        lists: seq<seq<Account>>, from: nat, ids: set<nat>)
    requires from <= |orphans| && HasLine(s.lines, shell) && OrphansAmong(orphans, from, shell, ids)
    requires ListsAre(s.accounts, orphans, lists, from)
    ensures var out := Migrated(proxyOk, s, shell, orphans, from);
            && (out.ok <==> EachMovable(proxyOk, orphans, lists, from))
            && (EachMovable(proxyOk, orphans, lists, from) ==>
                  Held(out.store.accounts, shell)
                  == Held(s.accounts, shell) + AllArrivals(proxyOk, orphans, lists, from))
    decreases |orphans| - from
  {
    if from == |orphans| {
      assert Held(s.accounts, shell) + [] == Held(s.accounts, shell);
    } else {
      var orphan, next := orphans[from], Rehomed(proxyOk, s, shell, orphans[from]);
      RehomedHeld(proxyOk, s, shell, orphan, orphan.id);
      if next.ok {
        forall k | from + 1 <= k < |orphans|
          ensures lists[k] == AccountsOf(next.store.accounts, orphans[k].id)
        {
          RehomedHeld(proxyOk, s, shell, orphan, orphans[k].id);
        }
        MigratedHeld(proxyOk, next.store, shell, orphans, lists, from + 1, ids);
        if EachMovable(proxyOk, orphans, lists, from) {
          Strings.Assoc(Held(s.accounts, shell), Arrivals(proxyOk, orphan, lists[from]),
                        AllArrivals(proxyOk, orphans, lists, from + 1));
        }
      }
    }
  }

  /**
   The migration goes through exactly when every usable orphan and every account of every orphan
   passes the checks on its own; the shell then holds what it held, followed by each orphan's own
   endpoint and its accounts, every one filled in from its orphan as it stood before the run.
   */
  lemma MigrationGoesThrough(proxyOk: ProxyCheck, s: Store)
    requires Sound(s)
    ensures var out, orphans := Ensured(proxyOk, s), OrphansOf(s);
            var lists := ListsOf(s.accounts, orphans);
            && (out.ok <==> EachMovable(proxyOk, orphans, lists, 0))
            && (out.ok ==> Held(out.store.accounts, ShellId(s)) ==
                           Held(s.accounts, ShellId(s)) + AllArrivals(proxyOk, orphans, lists, 0))
  {
    WithShellSound(s);
    OrphansSound(s);
    CustomIdsAreIds(WithShell(s).lines);
    MigratedHeld(proxyOk, WithShell(s), ShellId(s), OrphansOf(s), ListsOf(s.accounts, OrphansOf(s)), 0,
                 CustomIds(WithShell(s).lines));
  }
}
