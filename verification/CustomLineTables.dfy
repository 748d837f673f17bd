/** The two tables, and the start-up step as it runs on them. */
module CustomLineTables {
  import opened Options
  import opened Strings
  import opened Sorting
  import opened CustomLine
  import opened CustomLineMigration
  import opened CustomLineRestart

  /** The lines in `done` are changed. */
  function Partly(lines: seq<Line>, done: set<nat>, change: Line -> Line): seq<Line> {
    if lines == [] then []
    else [if lines[0].id in done then change(lines[0]) else lines[0]] + Partly(lines[1..], done, change)
  }

  lemma {:induction false} ChangeNone(lines: seq<Line>, change: Line -> Line)
    ensures Partly(lines, {}, change) == lines
  {
    if lines != [] { ChangeNone(lines[1..], change); }
  }

  lemma {:induction false} RenameEvery(lines: seq<Line>, done: set<nat>)
    requires Ids(lines, LineId) <= done
    ensures Partly(lines, done, Renamed) == AllRenamed(lines)
  {
    if lines != [] { RenameEvery(lines[1..], done); }
  }

  lemma {:induction false} ChangeNothing(lines: seq<Line>, done: set<nat>, change: Line -> Line, line: Line)
    requires forall k | 0 <= k < |lines| && lines[k].id == line.id :: lines[k] == line
    requires change(line) == line
    ensures Partly(lines, done + {line.id}, change) == Partly(lines, done, change)
  {
    if lines != [] {
      assert forall k | 0 <= k < |lines[1..]| :: lines[1..][k] == lines[k + 1];
      ChangeNothing(lines[1..], done, change, line);
    }
  }

  /** Changing one row by its id, which no other row has. */
  lemma {:induction false} ChangeRow(lines: seq<Line>, done: set<nat>, change: Line -> Line, line: Line,
                                     one: Line -> Line)
    requires forall k | 0 <= k < |lines| && lines[k].id == line.id :: lines[k] == line
    requires line.id !in done && change(line) == one(line) && forall other :: change(other).id == other.id
    ensures Partly(lines, done + {line.id}, change) == Rewritten(Partly(lines, done, change), line.id, one)
  {
    if lines != [] {
      assert forall k | 0 <= k < |lines[1..]| :: lines[1..][k] == lines[k + 1];
      ChangeRow(lines[1..], done, change, line, one);
      assert Partly(lines, done, change)[1..] == Partly(lines[1..], done, change);
    }
  }

  lemma RenamedKeepsIds()
    ensures forall line :: Renamed(line).id == line.id
  {
  }

  lemma SnapshotRow(lines: seq<Line>, key: Line -> Key, i: nat)
    requires Distinct(lines, LineId) && i < |lines|
    ensures var snapshot := SortBy(lines, key);
            && |snapshot| == |lines|
            && (forall k | 0 <= k < |lines| && lines[k].id == snapshot[i].id :: lines[k] == snapshot[i])
            && snapshot[i].id !in Ids(snapshot[..i], LineId)
  {
    var snapshot := SortBy(lines, key);
    SortPermutes(lines, key);
    SortKeepsIds(lines, key, LineId);
    assert |multiset(snapshot)| == |multiset(lines)|;
    assert snapshot[i] in multiset(snapshot);
    assert snapshot[i] in lines;
    forall k | 0 <= k < |lines| && lines[k].id == snapshot[i].id ensures lines[k] == snapshot[i] {
      OnlyRow(lines, lines[k], snapshot[i]);
    }
    if snapshot[i].id in Ids(snapshot[..i], LineId) {
      var k := WhereId(snapshot[..i], LineId, snapshot[i].id);
      DistinctAt(snapshot, LineId, k, i);
    }
  }

  lemma {:induction false} IdsSnoc(lines: seq<Line>, i: nat)
    requires i < |lines|
    ensures Ids(lines[..i + 1], LineId) == Ids(lines[..i], LineId) + {lines[i].id}
  {
    if i == 0 {
      assert lines[..1] == [lines[0]] && lines[..0] == [];
      assert [lines[0]][1..] == [];
    } else {
      IdsSnoc(lines[1..], i - 1);
      assert lines[..i + 1][1..] == lines[1..][..i] && lines[..i][1..] == lines[1..][..i - 1];
    }
  }

  // ----- the two tables, and the start-up step on them -----

  class Repository {
    const proxyOk: ProxyCheck
    const now: int
    var lines: seq<Line>
    var accounts: seq<Account>
    var issued: nat

    constructor (proxyOk: ProxyCheck, s: Store)
      ensures State() == s && this.proxyOk == proxyOk
    {
      this.proxyOk, now, lines, accounts, issued := proxyOk, s.now, s.lines, s.accounts, s.issued;
    }

    function State(): Store
      reads this
    {
      Store(lines, accounts, issued, now)
    }

    method CreateProviderConnection(line: Line) returns (created: Line)
      modifies this
      ensures State() == WithLine(old(State()), line)
      ensures created == line.(id := old(issued), createdAt := now)
    {
      created := line.(id := issued, createdAt := now);
      lines := lines + [created];
      issued := issued + 1;
    }

    /** `create_provider_account`: a failed check leaves the tables alone. */
    method CreateProviderAccount(line: nat, c: Credentials) returns (ok: bool)
      modifies this
      ensures Outcome(State(), ok) == Created(proxyOk, old(State()), line, c)
    {
      if line !in Ids(lines, LineId) { return false; }
      var checked := Normalized(proxyOk, c);
      if checked.Bad? { return false; }
      accounts := accounts + [Account(issued, line, checked.value, now)];
      issued := issued + 1;
      ok := true;
    }

    method UpdateProviderConnectionBaseUrl(id: nat, url: string)
      modifies this
      ensures State() == old(State()).(lines := Rewritten(old(lines), id, SetBase(url)))
    {
      lines := Rewritten(lines, id, SetBase(url));
    }

    method UpdateProviderConnectionName(id: nat, name: string)
      modifies this
      ensures State() == old(State()).(lines := Rewritten(old(lines), id, SetName(name)))
    {
      lines := Rewritten(lines, id, SetName(name));
    }

    /** The accounts of the line go with it. */
    method DeleteProviderConnection(id: nat)
      modifies this
      ensures State() == DeleteLine(old(State()), id)
    {
      lines, accounts := DropLine(lines, id), DropAccounts(accounts, id);
    }

    /** The inner loop: the accounts that already lived under an orphan. */
    method CopyAccounts(shell: nat, orphan: Line, list: seq<Account>) returns (ok: bool)
      modifies this
      ensures Outcome(State(), ok) == Copied(proxyOk, old(State()), shell, orphan, list, 0)
    {
      for i := 0 to |list|
        invariant Copied(proxyOk, State(), shell, orphan, list, i)
               == Copied(proxyOk, old(State()), shell, orphan, list, 0)
      {
        var c := list[i].credentials;
        if c.baseUrl.None? { c := c.(baseUrl := Some(orphan.baseUrl)); }
        if c.protocol.None? { c := c.(protocol := orphan.protocol); }
        if c.endpoints.None? && orphan.endpoints != [] { c := c.(endpoints := Some(orphan.endpoints)); }
        var created := CreateProviderAccount(shell, c);
        if !created { return false; }
      }
      ok := true;
    }

    /** The body of the outer loop: one orphan line becomes accounts of the shell. */
    method RehomeOrphan(shell: nat, orphan: Line) returns (ok: bool)
      modifies this
      ensures Outcome(State(), ok) == Rehomed(proxyOk, old(State()), shell, orphan)
    {
      if Trim(orphan.baseUrl) != "" && !Mentions(orphan.baseUrl, "custom.local") {
        var created := CreateProviderAccount(shell, OrphanCredentials(orphan));
        if !created { return false; }
      }
      var copied := CopyAccounts(shell, orphan, AccountsOf(accounts, orphan.id));
      if !copied { return false; }
      DeleteProviderConnection(orphan.id);
      ok := true;
    }

    /** The shell line: found, or created. */
    method EnsureShell(customs: seq<Line>) returns (shell: nat)
      requires customs == Customs(lines)
      modifies this
      ensures State() == WithShell(old(State())) && shell == ShellId(old(State()))
    {
      var found := FirstShell(customs);
      if found.Some? {
        shell := found.value.id;
        if Mentions(found.value.baseUrl, "custom.local") { UpdateProviderConnectionBaseUrl(shell, ""); }
      } else {
        var created := CreateProviderConnection(NewShell());
        shell := created.id;
      }
    }

    method EnsureSingleCustomApiLine() returns (ok: bool)
      modifies this
      ensures Outcome(State(), ok) == Ensured(proxyOk, old(State()))
    {
      var customs := Customs(lines);
      var shell := EnsureShell(customs);
      ok := MigrateOrphans(shell, DropLine(customs, shell));
    }

    /** The loop over the orphans. */
    method MigrateOrphans(shell: nat, orphans: seq<Line>) returns (ok: bool)
      modifies this
      ensures Outcome(State(), ok) == Migrated(proxyOk, old(State()), shell, orphans, 0)
    {
      for i := 0 to |orphans|
        invariant Migrated(proxyOk, State(), shell, orphans, i) == Migrated(proxyOk, old(State()), shell, orphans, 0)
      {
        var moved := RehomeOrphan(shell, orphans[i]);
        if !moved { return false; }
      }
      ok := true;
    }

    method NormalizeBuiltinLineNames()
      requires Distinct(lines, LineId)
      modifies this
      ensures State() == old(State()).(lines := AllRenamed(old(lines)))
    {
      ghost var before := lines;
      var snapshot := SortBy(lines, LineKey);
      ChangeNone(before, Renamed);
      RenamedKeepsIds();
      SortPermutes(lines, LineKey);
      assert |multiset(snapshot)| == |multiset(lines)|;
      for i := 0 to |snapshot|
        invariant State() == old(State()).(lines := Partly(before, Ids(snapshot[..i], LineId), Renamed))
      {
        var line := snapshot[i];
        SnapshotRow(before, LineKey, i);
        IdsSnoc(snapshot, i);
        var canonical := CanonicalName(line.provider, NameOf(line));
        if canonical.Some? && Trim(NameOf(line)) != canonical.value {
          ChangeRow(before, Ids(snapshot[..i], LineId), Renamed, line, SetName(canonical.value));
          UpdateProviderConnectionName(line.id, canonical.value);
        } else {
          ChangeNothing(before, Ids(snapshot[..i], LineId), Renamed, line);
        }
      }
      assert snapshot[..|snapshot|] == snapshot;
      SortKeepsIds(before, LineKey, LineId);
      RenameEvery(before, Ids(snapshot, LineId));
    }

    /** `ensure_builtin_provider_connections`, with the preset catalogue as a parameter. */
    method EnsureBuiltinProviderConnections(preset: string -> Line) returns (ok: bool)
      requires Sound(State())
      modifies this
      ensures Outcome(State(), ok) == Started(proxyOk, preset, old(State()))
    {
      WithPresetsSound(State(), preset);
      EnsureBuiltin(preset, CODEX);
      EnsureBuiltin(preset, CLAUDE_OAUTH);
      PresetsApart();
      EnsuredSound(proxyOk, State(), CODEX);
      ok := EnsureSingleCustomApiLine();
      if !ok { return; }
      NormalizeBuiltinLineNames();
    }

    /** The body of the preset loop. */
    method EnsureBuiltin(preset: string -> Line, provider: string)
      modifies this
      ensures State() == WithPreset(old(State()), preset, provider)
    {
      if OfProvider(lines, provider) != [] { return; }
      var _ := CreateProviderConnection(preset(provider).(provider := provider));
    }
  }
}
