/**
 The start-up step that collapses old custom provider lines into accounts under one Custom API line,
 over the two tables it reads and writes. Row ids are numbers; a new row takes the next one.
 */
module CustomLine {
  import opened Options
  import opened Strings
  import opened Sorting
  import AccountHealth

  // ----- rows -----

  datatype Line = Line(
    id: nat,
    provider: string,
    name: Option<string>,
    baseUrl: string,
    modelPrefix: string,
    apiKey: Option<string>,
    enabled: bool,
    priority: int,
    endpoints: seq<string>,
    protocol: Option<string>,
    createdAt: int)

  /** What the migration copies unaltered from one account row to the next. */
  datatype Secret = Secret(
    accountLabel: Option<string>,
    oauth: bool,
    apiKey: Option<string>,
    accessToken: Option<string>,
    refreshToken: Option<string>,
    expiresAt: Option<int>,
    scopes: seq<string>,
    remoteAccountId: Option<string>,
    remoteEmail: Option<string>,
    fedramp: bool,
    enabled: bool,
    priority: int)

  datatype Credentials = Credentials(
    secret: Secret,
    proxyUrl: Option<string>,
    baseUrl: Option<string>,
    protocol: Option<string>,
    endpoints: Option<seq<string>>)

  datatype Account = Account(id: nat, line: nat, credentials: Credentials, createdAt: int)

  datatype Store = Store(lines: seq<Line>, accounts: seq<Account>, issued: nat, now: int)

  datatype Checked<T> = Good(value: T) | Bad

  type ProxyCheck = string -> bool

  // ----- what the repository checks and normalises -----

  function Lower(s: string): string {
    AccountHealth.ToAsciiLower(s)
  }

  predicate Mentions(s: string, part: string) {
    AccountHealth.Contains(s, part)
  }

  function Nonblank(o: Option<string>): Option<string> {
    if o.Some? && Trim(o.value) != "" then Some(Trim(o.value)) else None
  }

  function TrimSlashes(s: string): string {
    if s != [] && s[|s| - 1] == '/' then TrimSlashes(s[..|s| - 1]) else s
  }

  /** `normalize_optional_url`. */
  function NormalizeUrl(raw: Option<string>): Checked<Option<string>> {
    var value := Nonblank(raw);
    if value.None? then Good(None)
    else if StartsWith(value.value, "http://") || StartsWith(value.value, "https://")
    then Good(Some(TrimSlashes(value.value)))
    else Bad
  }

  predicate UsableSecret(o: Option<string>) {
    Nonblank(o).Some?
  }

  /** The checks and normalisations of `create_provider_account`. */
  function Normalized(proxyOk: ProxyCheck, c: Credentials): Checked<Credentials> {
    var url := NormalizeUrl(c.baseUrl);
    var proxy := Nonblank(c.proxyUrl);
    if url.Bad? then Bad
    else if !c.secret.oauth && !UsableSecret(c.secret.apiKey) && url.value.None? then Bad
    else if c.secret.oauth && !UsableSecret(c.secret.accessToken) && !UsableSecret(c.secret.refreshToken) then Bad
    else if proxy.Some? && !proxyOk(proxy.value) then Bad
    else Good(Credentials(c.secret, proxy, url.value, Nonblank(c.protocol),
                          if c.endpoints == Some([]) then None else c.endpoints))
  }

  // ----- queries -----

  function OfProvider(lines: seq<Line>, provider: string): seq<Line> {
    if lines == [] then []
    else (if lines[0].provider == provider then [lines[0]] else []) + OfProvider(lines[1..], provider)
  }

  function OfLine(accounts: seq<Account>, line: nat): seq<Account> {
    if accounts == [] then []
    else (if accounts[0].line == line then [accounts[0]] else []) + OfLine(accounts[1..], line)
  }

  function LineKey(line: Line): Key {
    Key(line.priority, line.createdAt)
  }

  function AccountKey(a: Account): Key {
    Key(a.credentials.secret.priority, a.createdAt)
  }

  function LineId(line: Line): nat {
    line.id
  }

  /** `list_provider_connections_by_provider("custom")`. */
  function Customs(lines: seq<Line>): seq<Line> {
    SortBy(OfProvider(lines, "custom"), LineKey)
  }

  /** `list_provider_accounts`. */
  function AccountsOf(accounts: seq<Account>, line: nat): seq<Account> {
    SortBy(OfLine(accounts, line), AccountKey)
  }

  predicate HasLine(lines: seq<Line>, id: nat) {
    id in Ids(lines, LineId)
  }

  // ----- statements -----

  function Rewritten(lines: seq<Line>, id: nat, change: Line -> Line): seq<Line> {
    if lines == [] then []
    else [if lines[0].id == id then change(lines[0]) else lines[0]] + Rewritten(lines[1..], id, change)
  }

  function DropLine(lines: seq<Line>, id: nat): seq<Line> {
    if lines == [] then []
    else (if lines[0].id == id then [] else [lines[0]]) + DropLine(lines[1..], id)
  }

  function DropAccounts(accounts: seq<Account>, line: nat): seq<Account> {
    if accounts == [] then []
    else (if accounts[0].line == line then [] else [accounts[0]]) + DropAccounts(accounts[1..], line)
  }

  /** Deleting a line deletes its accounts with it. */
  function DeleteLine(s: Store, id: nat): Store {
    s.(lines := DropLine(s.lines, id), accounts := DropAccounts(s.accounts, id))
  }

  function WithLine(s: Store, line: Line): Store {
    s.(lines := s.lines + [line.(id := s.issued, createdAt := s.now)], issued := s.issued + 1)
  }

  /** `create_provider_account`, on a line that exists and credentials that pass the checks. */
  function WithAccount(s: Store, line: nat, c: Credentials): Store {
    s.(accounts := s.accounts + [Account(s.issued, line, c, s.now)], issued := s.issued + 1)
  }

  predicate Creatable(proxyOk: ProxyCheck, s: Store, line: nat, c: Credentials) {
    HasLine(s.lines, line) && Normalized(proxyOk, c).Good?
  }

  // ----- the shell line -----

  /** `is_custom_shell_line`. */
  predicate IsShell(line: Line) {
    && Lower(line.provider) == "custom"
    && (Lower(Trim(NameOf(line))) == "custom api"
        || Mentions(Trim(line.baseUrl), "custom.local")
        || line.modelPrefix == "custom")
  }

  function NameOf(line: Line): string {
    if line.name.Some? then line.name.value else ""
  }

  function FirstShell(lines: seq<Line>): (shell: Option<Line>)
    ensures shell.Some? ==> shell.value in lines && IsShell(shell.value)
    ensures shell.None? ==> forall line | line in lines :: !IsShell(line)
  {
    if lines == [] then None
    else if IsShell(lines[0]) then Some(lines[0])
    else FirstShell(lines[1..])
  }

  /** `custom_shell_connection`. */
  function NewShell(): Line {
    Line(0, "custom", Some("Custom API"), "", "custom", None, true, 100, ["chat", "messages", "responses"], None, 0)
  }

  // ----- what an orphan line leaves behind -----

  /** `host_from_base_url`. */
  function HostOf(baseUrl: string): Option<string> {
    var trimmed := Trim(baseUrl);
    var rest := if StartsWith(trimmed, "https://") then trimmed[8..]
                else if StartsWith(trimmed, "http://") then trimmed[7..] else trimmed;
    var host := Trim(rest[..FirstSlash(rest)]);
    if host == "" || host == "custom.local" then None else Some(host)
  }

  function LabelFor(orphan: Line): string {
    if orphan.name.Some? && Trim(orphan.name.value) != "" then orphan.name.value
    else match HostOf(orphan.baseUrl)
      case Some(host) => host
      case None => "custom endpoint"
  }

  function EndpointsOf(orphan: Line): Option<seq<string>> {
    if orphan.endpoints == [] then None else Some(orphan.endpoints)
  }

  /** An orphan with a real base URL is an endpoint of its own. */
  predicate Usable(orphan: Line) {
    Trim(orphan.baseUrl) != "" && !Mentions(orphan.baseUrl, "custom.local")
  }

  function OrphanSecret(orphan: Line): Secret {
    Secret(Some(LabelFor(orphan)), false, orphan.apiKey, None, None, None, [], None, None, false,
           orphan.enabled, orphan.priority)
  }

  function OrphanCredentials(orphan: Line): Credentials {
    Credentials(OrphanSecret(orphan), None, Some(orphan.baseUrl), orphan.protocol, EndpointsOf(orphan))
  }

  function Or<T>(o: Option<T>, other: Option<T>): Option<T> {
    if o.Some? then o else other
  }

  /** An account of an orphan, filled in from it. */
  function Moved(orphan: Line, c: Credentials): Credentials {
    c.(baseUrl := Or(c.baseUrl, Some(orphan.baseUrl)),
       protocol := Or(c.protocol, orphan.protocol),
       endpoints := Or(c.endpoints, EndpointsOf(orphan)))
  }

  // ----- the migration -----

  /** The store after a step, and whether the step went through. */
  datatype Outcome = Outcome(store: Store, ok: bool)

  function Created(proxyOk: ProxyCheck, s: Store, line: nat, c: Credentials): Outcome {
    if Creatable(proxyOk, s, line, c) then Outcome(WithAccount(s, line, Normalized(proxyOk, c).value), true)
    else Outcome(s, false)
  }

  function Copied(proxyOk: ProxyCheck, s: Store, shell: nat, orphan: Line, accounts: seq<Account>, from: nat): Outcome
    requires from <= |accounts|
    decreases |accounts| - from
  {
    if from == |accounts| then Outcome(s, true)
    else
      var next := Created(proxyOk, s, shell, Moved(orphan, accounts[from].credentials));
      if next.ok then Copied(proxyOk, next.store, shell, orphan, accounts, from + 1) else next
  }

  /** The copies of one orphan: its own endpoint, then the accounts it held. */
  function Rehoming(proxyOk: ProxyCheck, s: Store, shell: nat, orphan: Line): Outcome {
    var first := if Usable(orphan) then Created(proxyOk, s, shell, OrphanCredentials(orphan)) else Outcome(s, true);
    if first.ok then Copied(proxyOk, first.store, shell, orphan, AccountsOf(first.store.accounts, orphan.id), 0)
    else first
  }

  /** The orphan goes once everything is copied. */
  function Rehomed(proxyOk: ProxyCheck, s: Store, shell: nat, orphan: Line): Outcome {
    var copied := Rehoming(proxyOk, s, shell, orphan);
    if copied.ok then Outcome(DeleteLine(copied.store, orphan.id), true) else copied
  }

  function Migrated(proxyOk: ProxyCheck, s: Store, shell: nat, orphans: seq<Line>, from: nat): Outcome
    requires from <= |orphans|
    decreases |orphans| - from
  {
    if from == |orphans| then Outcome(s, true)
    else
      var next := Rehomed(proxyOk, s, shell, orphans[from]);
      if next.ok then Migrated(proxyOk, next.store, shell, orphans, from + 1) else next
  }

  function SetBase(url: string): Line -> Line {
    (line: Line) => line.(baseUrl := url)
  }

  /** The shell: the first line recognised as one, its fake URL cleared, or a new one. */
  function ShellId(s: Store): nat {
    match FirstShell(Customs(s.lines))
    case Some(shell) => shell.id
    case None => s.issued
  }

  function WithShell(s: Store): Store {
    match FirstShell(Customs(s.lines))
    case Some(shell) =>
      if Mentions(shell.baseUrl, "custom.local") then s.(lines := Rewritten(s.lines, shell.id, SetBase(""))) else s
    case None => WithLine(s, NewShell())
  }

  /** The shell as a run leaves its row. */
  function ShellLine(s: Store): Line {
    match FirstShell(Customs(s.lines))
    case Some(shell) => if Mentions(shell.baseUrl, "custom.local") then SetBase("")(shell) else shell
    case None => NewShell().(id := s.issued, createdAt := s.now)
  }

  function OrphansOf(s: Store): seq<Line> {
    DropLine(Customs(s.lines), ShellId(s))
  }

  /** `ensure_single_custom_api_line`. */
  function Ensured(proxyOk: ProxyCheck, s: Store): Outcome {
    Migrated(proxyOk, WithShell(s), ShellId(s), OrphansOf(s), 0)
  }

  // ----- line names -----

  /** `canonical_line_name`. */
  function CanonicalName(provider: string, name: string): Option<string> {
    var p, n := Lower(provider), Lower(name);
    if p == "codex" || n == "codex oauth" || n == "codex" then Some("Codex")
    else if p == "claude-oauth" || p == "claude" || p == "anthropic-oauth" || p == "anthropic"
            || n == "claude oauth" || n == "claude code" then Some("Claude Code")
    else if p == "custom" || n == "custom api" then Some("Custom API")
    else None
  }

  function Renamed(line: Line): Line {
    var canonical := CanonicalName(line.provider, NameOf(line));
    if canonical.Some? && Trim(NameOf(line)) != canonical.value then line.(name := canonical) else line
  }

  /** `normalize_builtin_line_names`, as one change of every row. */
  function AllRenamed(lines: seq<Line>): seq<Line> {
    if lines == [] then [] else [Renamed(lines[0])] + AllRenamed(lines[1..])
  }

  function SetName(name: string): Line -> Line {
    (line: Line) => line.(name := Some(name))
  }

  // ----- the whole start-up step -----

  const CODEX := "codex"
  const CLAUDE_OAUTH := "claude-oauth"

  /** A built-in line is created from its preset unless some line of that provider exists. */
  function WithPreset(s: Store, preset: string -> Line, provider: string): Store {
    if OfProvider(s.lines, provider) == [] then WithLine(s, preset(provider).(provider := provider)) else s
  }

  function WithPresets(s: Store, preset: string -> Line): Store {
    WithPreset(WithPreset(s, preset, CODEX), preset, CLAUDE_OAUTH)
  }

  /** `ensure_builtin_provider_connections`. */
  function Started(proxyOk: ProxyCheck, preset: string -> Line, s: Store): Outcome {
    var ensured := Ensured(proxyOk, WithPresets(s, preset));
    if ensured.ok then Outcome(ensured.store.(lines := AllRenamed(ensured.store.lines)), true) else ensured
  }
}
