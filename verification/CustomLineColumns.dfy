/** What the migration keeps of each line and account, column by column. */
module CustomLineColumns {
  import opened Options
  import opened Sorting
  import opened CustomLine
  import opened CustomLineMigration
  import opened CustomLineRestart
  import Strings

  // ----- columns as they are stored -----

  /** White space cut at both ends, and then every slash at the end. */
  predicate IsStripped(stored: string, raw: string) {
    var trimmed := Strings.Trim(raw);
    && stored <= trimmed && (stored == "" || stored[|stored| - 1] != '/')
    && forall i | |stored| <= i < |trimmed| :: trimmed[i] == '/'
  }

  lemma {:induction false} SlashesStripped(s: string)
    ensures var r := TrimSlashes(s);
            && r <= s && (r == "" || r[|r| - 1] != '/') && forall i | |r| <= i < |s| :: s[i] == '/'
  {
    if s != [] && s[|s| - 1] == '/' { SlashesStripped(s[..|s| - 1]); }
  }

  /** A text column: blank counts as missing, white space at the ends is cut. */
  predicate IsTidy(stored: Option<string>, raw: Option<string>) {
    if raw.Some? && Strings.Trim(raw.value) != "" then stored == Some(Strings.Trim(raw.value)) else stored == None
  }

  /** A URL column: blank counts as missing, and the text is stripped. */
  predicate IsUrl(stored: Option<string>, raw: Option<string>) {
    if raw.Some? && Strings.Trim(raw.value) != "" then stored.Some? && IsStripped(stored.value, raw.value)
    else stored == None
  }

  /** An endpoint list; an empty one counts as missing. */
  predicate IsList(stored: Option<seq<string>>, raw: Option<seq<string>>) {
    stored == if raw == Some([]) then None else raw
  }

  /** The first of two columns that is filled. */
  function FirstFilled<T>(own: Option<T>, other: Option<T>): Option<T> {
    match own
    case Some(_) => own
    case None => other
  }

  function ListOf(endpoints: seq<string>): Option<seq<string>> {
    if |endpoints| == 0 then None else Some(endpoints)
  }

  /** Checked credentials keep their secret; their other columns are stored tidily. */
  lemma NormalizedColumns(proxyOk: ProxyCheck, c: Credentials)
    requires Normalized(proxyOk, c).Good?
    ensures var stored := Normalized(proxyOk, c).value;
            && stored.secret == c.secret && IsUrl(stored.baseUrl, c.baseUrl) && IsTidy(stored.proxyUrl, c.proxyUrl)
            && IsTidy(stored.protocol, c.protocol) && IsList(stored.endpoints, c.endpoints)
  {
    if c.baseUrl.Some? {
      SlashesStripped(Strings.Trim(c.baseUrl.value));
      Strings.TrimIdempotent(c.baseUrl.value);
    }
  }

  /** Credentials are refused exactly for a URL without a scheme, no way to authenticate, or an unusable proxy. */
  lemma RefusedExactly(proxyOk: ProxyCheck, c: Credentials)
    ensures Normalized(proxyOk, c).Bad? <==>
            || (Filled(c.baseUrl) && !HasScheme(Strings.Trim(c.baseUrl.value)))
            || (c.secret.oauth && !Filled(c.secret.accessToken) && !Filled(c.secret.refreshToken))
            || (!c.secret.oauth && !Filled(c.secret.apiKey) && !Filled(c.baseUrl))
            || (Filled(c.proxyUrl) && !proxyOk(Strings.Trim(c.proxyUrl.value)))
  {
  }

  predicate Filled(column: Option<string>) {
    column.Some? && Strings.Trim(column.value) != ""
  }

  predicate HasScheme(url: string) {
    (|url| >= 7 && url[..7] == "http://") || (|url| >= 8 && url[..8] == "https://")
  }

  // ----- what an orphan becomes -----

  /** A base URL that is not blank and not the fake one. */
  predicate HasEndpoint(orphan: Line) {
    Strings.Trim(orphan.baseUrl) != "" && !Mentions(orphan.baseUrl, "custom.local")
  }

  /** An account with the columns of a line: its key, flag and priority, its endpoint, protocol and endpoints. */
  predicate StandsFor(c: Credentials, orphan: Line) {
    && !c.secret.oauth && c.secret.apiKey == orphan.apiKey
    && c.secret.enabled == orphan.enabled && c.secret.priority == orphan.priority
    && c.secret.accessToken == c.secret.refreshToken == None
    && (orphan.name.Some? && Strings.Trim(orphan.name.value) != "" ==> c.secret.accountLabel == orphan.name)
    && c.baseUrl.Some? && IsStripped(c.baseUrl.value, orphan.baseUrl) && c.proxyUrl == None
    && IsTidy(c.protocol, orphan.protocol) && c.endpoints == ListOf(orphan.endpoints)
  }

  lemma OrphanColumns(proxyOk: ProxyCheck, orphan: Line)
    requires HasEndpoint(orphan) && Normalized(proxyOk, OrphanCredentials(orphan)).Good?
    ensures StandsFor(Normalized(proxyOk, OrphanCredentials(orphan)).value, orphan)
  {
    NormalizedColumns(proxyOk, OrphanCredentials(orphan));
  }

  /** What stands before the host: one of two schemes, or nothing. */
  predicate IsScheme(scheme: string, rest: string) {
    || scheme == "https://" || scheme == "http://"
    || (scheme == "" && !Strings.StartsWith(rest, "https://") && !Strings.StartsWith(rest, "http://"))
  }

  /** The host reaches up to the first slash, or to the end. */
  predicate IsHost(host: string, rest: string) {
    '/' !in host && host <= rest && (|host| < |rest| ==> rest[|host|] == '/')
  }

  /** A line without a name is labelled with the host of its endpoint, if that is a real one. */
  lemma HostLabel(orphan: Line, scheme: string, host: string, rest: string)
    requires !Filled(orphan.name) && Strings.Trim(orphan.baseUrl) == scheme + rest
    requires IsScheme(scheme, rest) && IsHost(host, rest)
    ensures OrphanCredentials(orphan).secret.accountLabel ==
            var name := Strings.Trim(host);
            Some(if name == "" || name == "custom.local" then "custom endpoint" else name)
  {
    SchemeCut(scheme, rest, scheme + rest);
    SlashAfter(host, rest);
  }

  lemma SchemeCut(scheme: string, rest: string, url: string)
    requires IsScheme(scheme, rest) && url == scheme + rest
    ensures rest == if Strings.StartsWith(url, "https://") then url[8..]
                    else if Strings.StartsWith(url, "http://") then url[7..] else url
  {
    assert url[|scheme|..] == rest && url[..|scheme|] == scheme;
    if scheme == "http://" { assert url[4] == scheme[4] == ':' && "https://"[4] == 's'; }
  }

  lemma SlashAfter(host: string, rest: string)
    requires IsHost(host, rest)
    ensures rest[..Strings.FirstSlash(rest)] == host
  {
    assert forall i | 0 <= i < |host| :: rest[i] == host[i];
    assert forall i | 0 <= i < |host| :: host[i] in host;
  }

  /** A copy of an account of an orphan: the same secret, and the orphan's columns where its own are missing. */
  predicate CopyOf(c: Credentials, a: Credentials, orphan: Line) {
    && c.secret == a.secret && IsTidy(c.proxyUrl, a.proxyUrl)
    && IsUrl(c.baseUrl, FirstFilled(a.baseUrl, Some(orphan.baseUrl)))
    && IsTidy(c.protocol, FirstFilled(a.protocol, orphan.protocol))
    && IsList(c.endpoints, FirstFilled(a.endpoints, ListOf(orphan.endpoints)))
  }

  lemma MovedColumns(proxyOk: ProxyCheck, orphan: Line, a: Credentials)
    requires Normalized(proxyOk, Moved(orphan, a)).Good?
    ensures CopyOf(Normalized(proxyOk, Moved(orphan, a)).value, a, orphan)
  {
    NormalizedColumns(proxyOk, Moved(orphan, a));
  }

  // ----- after a run that goes through -----

  ghost predicate HeldStandsFor(held: seq<Credentials>, orphan: Line) {
    exists c | c in held :: StandsFor(c, orphan)
  }

  ghost predicate HeldCopies(held: seq<Credentials>, a: Credentials, orphan: Line) {
    exists c | c in held :: CopyOf(c, a, orphan)
  }

  lemma {:induction false} ArrivingHas(proxyOk: ProxyCheck, orphan: Line, accounts: seq<Account>, from: nat, i: nat)
    requires from <= i < |accounts| && AllMovable(proxyOk, orphan, accounts, from)
    ensures Normalized(proxyOk, Moved(orphan, accounts[i].credentials)).Good?
    ensures Normalized(proxyOk, Moved(orphan, accounts[i].credentials)).value
         in Arriving(proxyOk, orphan, accounts, from)
    decreases |accounts| - from
  {
    var first, rest := Moved(orphan, accounts[from].credentials), Arriving(proxyOk, orphan, accounts, from + 1);
    assert Normalized(proxyOk, Moved(orphan, accounts[i].credentials)).value
           in [Normalized(proxyOk, first).value] + rest by {
      if from < i { ArrivingHas(proxyOk, orphan, accounts, from + 1, i); }
    }
  }

  lemma {:induction false} ArriveAmong(proxyOk: ProxyCheck, orphans: seq<Line>, lists: seq<seq<Account>>,
                                       from: nat, k: nat, c: Credentials)
    requires from <= k < |orphans| == |lists| && EachMovable(proxyOk, orphans, lists, from)
    requires c in Arrivals(proxyOk, orphans[k], lists[k])
    ensures c in AllArrivals(proxyOk, orphans, lists, from)
    decreases |orphans| - from
  {
    var first, rest := Arrivals(proxyOk, orphans[from], lists[from]), AllArrivals(proxyOk, orphans, lists, from + 1);
    assert c in first + rest by {
      if from < k { ArriveAmong(proxyOk, orphans, lists, from + 1, k, c); }
    }
  }

  /** Whatever arrives for one orphan is held by the shell afterwards. */
  lemma ArrivalIsHeld(proxyOk: ProxyCheck, s: Store, orphans: seq<Line>, lists: seq<seq<Account>>, k: nat,
                      c: Credentials)
    requires Sound(s) && Ensured(proxyOk, s).ok && orphans == OrphansOf(s) && lists == ListsOf(s.accounts, orphans)
    requires k < |orphans| && Movable(proxyOk, orphans[k], lists[k]) && c in Arrivals(proxyOk, orphans[k], lists[k])
    ensures c in Held(Ensured(proxyOk, s).store.accounts, ShellId(s))
  {
    MigrationGoesThrough(proxyOk, s);
    ArriveAmong(proxyOk, orphans, lists, 0, k, c);
  }

  lemma OrphanArrives(proxyOk: ProxyCheck, s: Store, k: nat)
    requires Sound(s) && Ensured(proxyOk, s).ok && k < |OrphansOf(s)|
    ensures Movable(proxyOk, OrphansOf(s)[k], ListsOf(s.accounts, OrphansOf(s))[k])
  {
    MigrationGoesThrough(proxyOk, s);
  }

  /**
   After a run that goes through, every orphan line with an endpoint of its own lives on as an account
   of the shell with the line's columns, its API key among them.
   */
  lemma LinesLiveOn(proxyOk: ProxyCheck, s: Store, k: nat)
    requires Sound(s) && Ensured(proxyOk, s).ok && k < |OrphansOf(s)| && HasEndpoint(OrphansOf(s)[k])
    ensures HeldStandsFor(Held(Ensured(proxyOk, s).store.accounts, ShellId(s)), OrphansOf(s)[k])
  {
    var orphans := OrphansOf(s);
    var lists := ListsOf(s.accounts, orphans);
    OrphanArrives(proxyOk, s, k);
    OrphanColumns(proxyOk, orphans[k]);
    var c := Normalized(proxyOk, OrphanCredentials(orphans[k])).value;
    assert c == Arrivals(proxyOk, orphans[k], lists[k])[0];
    ArrivalIsHeld(proxyOk, s, orphans, lists, k, c);
  }

  /** And every account of an orphan line as a copy, filled in from the line. */
  lemma AccountsLiveOn(proxyOk: ProxyCheck, s: Store, k: nat, a: Account)
    requires Sound(s) && Ensured(proxyOk, s).ok && k < |OrphansOf(s)|
    requires a in s.accounts && a.line == OrphansOf(s)[k].id
    ensures HeldCopies(Held(Ensured(proxyOk, s).store.accounts, ShellId(s)), a.credentials, OrphansOf(s)[k])
  {
    var orphans := OrphansOf(s);
    var lists := ListsOf(s.accounts, orphans);
    OrphanArrives(proxyOk, s, k);
    var c := CopyArrives(proxyOk, s.accounts, orphans[k], a);
    ArrivalIsHeld(proxyOk, s, orphans, lists, k, c);
  }

  lemma CopyArrives(proxyOk: ProxyCheck, accounts: seq<Account>, orphan: Line, a: Account) returns (c: Credentials)
    requires a in accounts && a.line == orphan.id && Movable(proxyOk, orphan, AccountsOf(accounts, orphan.id))
    ensures c in Arrivals(proxyOk, orphan, AccountsOf(accounts, orphan.id)) && CopyOf(c, a.credentials, orphan)
  {
    var list := AccountsOf(accounts, orphan.id);
    OfLineMembers(accounts, orphan.id, a);
    SortPermutes(OfLine(accounts, orphan.id), AccountKey);
    assert a in multiset(list);
    var i :| 0 <= i < |list| && list[i] == a;
    ArrivingHas(proxyOk, orphan, list, 0, i);
    c := Normalized(proxyOk, Moved(orphan, a.credentials)).value;
    MovedColumns(proxyOk, orphan, a.credentials);
  }

  lemma {:induction false} OfLineMembers(accounts: seq<Account>, line: nat, a: Account)
    ensures a in OfLine(accounts, line) <==> a in accounts && a.line == line
  {
    if accounts != [] { OfLineMembers(accounts[1..], line, a); }
  }

  // ----- no API key is lost -----

  /** The API keys of the accounts under some lines. */
  function KeysUnder(accounts: seq<Account>, lines: set<nat>): multiset<Option<string>> {
    if accounts == [] then multiset{}
    else
      (if accounts[0].line in lines then multiset{accounts[0].credentials.secret.apiKey} else multiset{})
      + KeysUnder(accounts[1..], lines)
  }

  /** The API keys of the lines that have an endpoint of their own. */
  function LineKeys(lines: seq<Line>): multiset<Option<string>> {
    if lines == [] then multiset{}
    else (if HasEndpoint(lines[0]) then multiset{lines[0].apiKey} else multiset{}) + LineKeys(lines[1..])
  }

  function KeyOf(secret: Secret): Option<string> {
    secret.apiKey
  }

  function Mapped<T, U>(items: seq<T>, f: T -> U): seq<U> {
    if items == [] then [] else [f(items[0])] + Mapped(items[1..], f)
  }

  lemma {:induction false} MappedAppend<T, U>(a: seq<T>, b: seq<T>, f: T -> U)
    ensures Mapped(a + b, f) == Mapped(a, f) + Mapped(b, f)
  {
    if a == [] {
      assert a + b == b;
    } else {
      assert (a + b)[1..] == a[1..] + b;
      MappedAppend(a[1..], b, f);
    }
  }

  lemma RemovedAt<T>(items: seq<T>, i: nat)
    requires i < |items|
    ensures multiset(items[..i] + items[i + 1..]) == multiset(items) - multiset{items[i]}
  {
    assert items == items[..i] + ([items[i]] + items[i + 1..]);
  }

  lemma MappedRemoved<T, U>(items: seq<T>, i: nat, f: T -> U)
    requires i < |items|
    ensures multiset(Mapped(items, f)) == multiset{f(items[i])} + multiset(Mapped(items[..i] + items[i + 1..], f))
  {
    var before, after := items[..i], items[i + 1..];
    assert items == before + ([items[i]] + after);
    MappedAppend(before, after, f);
    MappedAppend(before, [items[i]] + after, f);
    MappedAppend([items[i]], after, f);
    MappedOne(items[i], f);
  }

  lemma BothRemoved<T, U>(a: seq<T>, b: seq<T>, i: nat, f: T -> U) returns (rest: seq<T>)
    requires multiset(a) == multiset(b) && a != [] && i < |b| && b[i] == a[0]
    ensures multiset(a[1..]) == multiset(rest)
    ensures multiset(Mapped(a, f)) == multiset{f(a[0])} + multiset(Mapped(a[1..], f))
    ensures multiset(Mapped(b, f)) == multiset{f(a[0])} + multiset(Mapped(rest, f))
  {
    rest := b[..i] + b[i + 1..];
    assert a[..0] + a[1..] == a[1..];
    RemovedAt(a, 0);
    RemovedAt(b, i);
    MappedRemoved(a, 0, f);
    MappedRemoved(b, i, f);
  }

  /** The same items in another order have the same images. */
  lemma {:induction false} MappedPermutes<T, U>(a: seq<T>, b: seq<T>, f: T -> U)
    requires multiset(a) == multiset(b)
    ensures multiset(Mapped(a, f)) == multiset(Mapped(b, f))
    decreases |a|
  {
    if a == [] {
      assert |multiset(b)| == 0;
    } else {
      assert a[0] in multiset(a) && a[0] in multiset(b);
      var i :| 0 <= i < |b| && b[i] == a[0];
      var rest := BothRemoved(a, b, i, f);
      MappedPermutes(a[1..], rest, f);
    }
  }

  /** The secrets of the accounts under some lines, and of the lines with an endpoint, as lists. */
  function SecretList(accounts: seq<Account>, lines: set<nat>): seq<Secret> {
    if accounts == [] then []
    else (if accounts[0].line in lines then [accounts[0].credentials.secret] else []) + SecretList(accounts[1..], lines)
  }

  function OwnList(orphans: seq<Line>): seq<Secret> {
    if orphans == [] then []
    else (if Usable(orphans[0]) then [OrphanSecret(orphans[0])] else []) + OwnList(orphans[1..])
  }

  lemma MappedOne<T, U>(x: T, f: T -> U)
    ensures Mapped([x], f) == [f(x)]
  {
    assert [x][1..] == [];
  }

  lemma {:induction false} SecretLists(accounts: seq<Account>, lines: set<nat>)
    ensures multiset(SecretList(accounts, lines)) == SecretsIn(accounts, lines)
    ensures multiset(Mapped(SecretList(accounts, lines), KeyOf)) == KeysUnder(accounts, lines)
  {
    if accounts != [] {
      SecretLists(accounts[1..], lines);
      var secret, rest := accounts[0].credentials.secret, SecretList(accounts[1..], lines);
      MappedOne(secret, KeyOf);
      MappedAppend(if accounts[0].line in lines then [secret] else [], rest, KeyOf);
    }
  }

  lemma {:induction false} OwnLists(orphans: seq<Line>, from: nat)
    requires from <= |orphans|
    ensures multiset(OwnList(orphans[from..])) == OwnSecrets(orphans, from)
    ensures multiset(Mapped(OwnList(orphans[from..]), KeyOf)) == LineKeys(orphans[from..])
    decreases |orphans| - from
  {
    if from < |orphans| {
      OwnLists(orphans, from + 1);
      assert orphans[from..][1..] == orphans[from + 1..];
      var secret, rest := OrphanSecret(orphans[from]), OwnList(orphans[from + 1..]);
      MappedOne(secret, KeyOf);
      MappedAppend(if Usable(orphans[from]) then [secret] else [], rest, KeyOf);
    }
  }

  /**
   No API key is lost and none is made up: the keys under the custom lines after a run that goes
   through are those under them before, and those of the orphan lines that had an endpoint.
   */
  lemma KeysAreConserved(proxyOk: ProxyCheck, s: Store)
    requires Sound(s) && Ensured(proxyOk, s).ok
    ensures var t := Ensured(proxyOk, s).store;
            KeysUnder(t.accounts, CustomIds(t.lines))
            == KeysUnder(s.accounts, CustomIds(s.lines)) + LineKeys(OrphansOf(s))
  {
    var t := Ensured(proxyOk, s).store;
    MigrationConservesAccounts(proxyOk, s);
    var before, own := SecretList(s.accounts, CustomIds(s.lines)), OwnList(OrphansOf(s));
    SecretLists(t.accounts, CustomIds(t.lines));
    SecretLists(s.accounts, CustomIds(s.lines));
    assert OrphansOf(s)[0..] == OrphansOf(s);
    OwnLists(OrphansOf(s), 0);
    MappedPermutes(SecretList(t.accounts, CustomIds(t.lines)), before + own, KeyOf);
    MappedAppend(before, own, KeyOf);
  }

  // ----- the shell and the order of the rows -----

  /** By priority and then by age. */
  predicate LineNotAfter(a: Line, b: Line) {
    a.priority < b.priority || (a.priority == b.priority && a.createdAt <= b.createdAt)
  }

  predicate AccountNotAfter(a: Account, b: Account) {
    var p, q := a.credentials.secret.priority, b.credentials.secret.priority;
    p < q || (p == q && a.createdAt <= b.createdAt)
  }

  /** Accounts are copied by priority and then by age. */
  lemma CopiesInOrder(accounts: seq<Account>, line: nat, i: nat, j: nat)
    requires i < j < |AccountsOf(accounts, line)|
    ensures AccountNotAfter(AccountsOf(accounts, line)[i], AccountsOf(accounts, line)[j])
  {
    SortSorts(OfLine(accounts, line), CustomLine.AccountKey);
  }

  lemma {:induction false} FirstShellPrecedes(lines: seq<Line>, other: Line)
    requires Sorted(lines, LineKey) && other in lines && IsShell(other)
    ensures FirstShell(lines).Some? && Leq(LineKey(FirstShell(lines).value), LineKey(other))
  {
    if !IsShell(lines[0]) {
      FirstShellPrecedes(lines[1..], other);
    } else {
      var j :| 0 <= j < |lines| && lines[j] == other;
    }
  }

  lemma {:induction false} OfProviderHolds(lines: seq<Line>, provider: string, line: Line)
    requires line in lines && line.provider == provider
    ensures line in OfProvider(lines, provider)
  {
    if line != lines[0] { OfProviderHolds(lines[1..], provider, line); }
  }

  lemma InCustoms(lines: seq<Line>, line: Line)
    requires line in lines && line.provider == "custom"
    ensures line in Customs(lines) && Sorted(Customs(lines), LineKey)
  {
    var some := OfProvider(lines, "custom");
    OfProviderHolds(lines, "custom", line);
    SortPermutes(some, LineKey);
    SortSorts(some, LineKey);
    assert line in multiset(Customs(lines));
  }

  /** The shell is the first, by priority and then by age, of the custom lines recognised as one. */
  lemma ShellIs(s: Store, other: Line) returns (shell: Line)
    requires other in s.lines && other.provider == "custom" && IsShell(other)
    ensures shell in s.lines && shell.id == ShellId(s) && shell.provider == "custom"
    ensures IsShell(shell) && LineNotAfter(shell, other)
  {
    InCustoms(s.lines, other);
    FirstShellPrecedes(Customs(s.lines), other);
    CustomsMembers(s.lines);
    shell := FirstShell(Customs(s.lines)).value;
  }

  /** Where none is recognised, a line with these columns is added. */
  lemma NewShellIs(s: Store)
    requires forall line | line in s.lines && line.provider == "custom" :: !IsShell(line)
    ensures WithShell(s).lines == s.lines + [Line(
              ShellId(s), "custom", Some("Custom API"), "", "custom", None, true, 100,
              ["chat", "messages", "responses"], None, s.now)]
    ensures ShellId(s) == s.issued && WithShell(s).accounts == s.accounts
  {
    CustomsMembers(s.lines);
    assert FirstShell(Customs(s.lines)).None?;
  }
}
