/** Starting again: when the start-up step, run a second time, changes nothing. */
module CustomLineRestart {
  import opened Options
  import opened Sorting
  import opened CustomLine
  import opened CustomLineMigration
  import Strings

  // ----- the step keeps the tables sound -----

  lemma CreatedSound(proxyOk: ProxyCheck, s: Store, shell: nat, c: Credentials)
    requires Sound(s)
    ensures var t := Created(proxyOk, s, shell, c).store;
            Sound(t) && t.lines == s.lines && t.issued >= s.issued
  {
  }

  lemma {:induction false} CopiedSound(proxyOk: ProxyCheck, s: Store, shell: nat, orphan: Line, list: seq<Account>,
                                       from: nat)
    requires from <= |list| && Sound(s)
    ensures var t := Copied(proxyOk, s, shell, orphan, list, from).store;
            Sound(t) && t.lines == s.lines && t.issued >= s.issued
    decreases |list| - from
  {
    if from < |list| {
      var c := Moved(orphan, list[from].credentials);
      CreatedSound(proxyOk, s, shell, c);
      var next := Created(proxyOk, s, shell, c);
      if next.ok { CopiedSound(proxyOk, next.store, shell, orphan, list, from + 1); }
    }
  }

  lemma {:induction false} DropAccountsUnder(accounts: seq<Account>, id: nat, lines: set<nat>)
    requires AllUnder(accounts, lines)
    ensures AllUnder(DropAccounts(accounts, id), lines - {id})
  {
    if accounts != [] {
      assert accounts[0].line in lines;
      assert forall i | 0 <= i < |accounts[1..]| :: accounts[1..][i] == accounts[i + 1];
      DropAccountsUnder(accounts[1..], id, lines);
      var rest := DropAccounts(accounts[1..], id);
      var all := DropAccounts(accounts, id);
      forall i | 0 <= i < |all| ensures all[i].line in lines - {id} {
        if accounts[0].line != id && i > 0 { assert all[i] == rest[i - 1]; }
      }
    }
  }

  lemma {:induction false} DropLineMembers(lines: seq<Line>, id: nat)
    ensures forall line | line in DropLine(lines, id) :: line in lines
    ensures id !in Ids(lines, LineId) ==> DropLine(lines, id) == lines
  {
    if lines != [] { DropLineMembers(lines[1..], id); }
  }

  lemma {:induction false} ProvidersApart(lines: seq<Line>, id: nat, provider: string)
    requires Distinct(lines, LineId) && id in CustomIds(lines) && provider != "custom"
    ensures id !in Ids(OfProvider(lines, provider), LineId)
  {
    var rest, some := OfProvider(lines[1..], "custom"), OfProvider(lines[1..], provider);
    assert ([lines[0]] + rest)[1..] == rest && [] + rest == rest;
    assert ([lines[0]] + some)[1..] == some && [] + some == some;
    if id in CustomIds(lines[1..]) {
      CustomIdsAreIds(lines[1..]);
      ProvidersApart(lines[1..], id, provider);
    } else {
      ProviderIdsAreIds(lines[1..], provider);
    }
  }

  lemma {:induction false} ProviderIdsAreIds(lines: seq<Line>, provider: string)
    ensures Ids(OfProvider(lines, provider), LineId) <= Ids(lines, LineId)
  {
    if lines != [] {
      ProviderIdsAreIds(lines[1..], provider);
      var rest := OfProvider(lines[1..], provider);
      assert ([lines[0]] + rest)[1..] == rest && [] + rest == rest;
    }
  }

  /** One orphan leaves the tables sound, and the lines of other providers alone. */
  lemma RehomedSound(proxyOk: ProxyCheck, s: Store, shell: nat, orphan: Line, provider: string)
    requires Sound(s) && orphan.id in CustomIds(s.lines) && provider != "custom"
    ensures var t := Rehomed(proxyOk, s, shell, orphan).store;
            && Sound(t) && t.issued >= s.issued
            && (forall line | line in t.lines :: line in s.lines)
            && OfProvider(t.lines, provider) == OfProvider(s.lines, provider)
  {
    CreatedSound(proxyOk, s, shell, OrphanCredentials(orphan));
    var first := if Usable(orphan) then Created(proxyOk, s, shell, OrphanCredentials(orphan)) else Outcome(s, true);
    if first.ok {
      var list := AccountsOf(first.store.accounts, orphan.id);
      CopiedSound(proxyOk, first.store, shell, orphan, list, 0);
      var copied := Copied(proxyOk, first.store, shell, orphan, list, 0);
      DropLineIds(s.lines, orphan.id);
      DropAccountsUnder(copied.store.accounts, orphan.id, Ids(s.lines, LineId));
      DropLineMembers(s.lines, orphan.id);
      DropLineOfProvider(s.lines, orphan.id, provider);
      ProvidersApart(s.lines, orphan.id, provider);
      DropLineMembers(OfProvider(s.lines, provider), orphan.id);
    }
  }

  lemma {:induction false} MigratedSound(proxyOk: ProxyCheck, s: Store, shell: nat, orphans: seq<Line>, from: nat,
                                         provider: string)
    requires from <= |orphans| && Sound(s) && shell in CustomIds(s.lines) && provider != "custom"
    requires OrphansAmong(orphans, from, shell, CustomIds(s.lines))
    ensures var t := Migrated(proxyOk, s, shell, orphans, from).store;
            && Sound(t) && t.issued >= s.issued
            && (forall line | line in t.lines :: line in s.lines)
            && OfProvider(t.lines, provider) == OfProvider(s.lines, provider)
    decreases |orphans| - from
  {
    if from < |orphans| {
      var next := Rehomed(proxyOk, s, shell, orphans[from]);
      RehomedSound(proxyOk, s, shell, orphans[from], provider);
      RehomedSecrets(proxyOk, s, shell, orphans[from]);
      if next.ok { MigratedSound(proxyOk, next.store, shell, orphans, from + 1, provider); }
    }
  }

  /** The shell's row after the step shows no fake URL. */
  predicate Cleared(lines: seq<Line>, shell: nat) {
    forall line | line in lines && line.id == shell :: !Mentions(line.baseUrl, "custom.local")
  }

  lemma {:induction false} RebasedRow(lines: seq<Line>, id: nat)
    ensures Cleared(Rewritten(lines, id, SetBase("")), id)
  {
    if lines != [] {
      RebasedRow(lines[1..], id);
      var head := if lines[0].id == id then SetBase("")(lines[0]) else lines[0];
      assert Rewritten(lines, id, SetBase("")) == [head] + Rewritten(lines[1..], id, SetBase(""));
      assert !Mentions("", "custom.local");
    }
  }

  lemma {:induction false} OfProviderMembers(lines: seq<Line>, provider: string)
    ensures forall line | line in OfProvider(lines, provider) :: line in lines && line.provider == provider
  {
    if lines != [] { OfProviderMembers(lines[1..], provider); }
  }

  lemma CustomsMembers(lines: seq<Line>)
    ensures forall line | line in Customs(lines) :: line in lines && line.provider == "custom"
  {
    var some := OfProvider(lines, "custom");
    SortPermutes(some, LineKey);
    OfProviderMembers(lines, "custom");
    forall line | line in Customs(lines) ensures line in some {
      assert line in multiset(Customs(lines));
    }
  }

  lemma OnlyRow(lines: seq<Line>, a: Line, b: Line)
    requires Distinct(lines, LineId) && a in lines && b in lines && a.id == b.id
    ensures a == b
  {
    var i :| 0 <= i < |lines| && lines[i] == a;
    var j :| 0 <= j < |lines| && lines[j] == b;
    if i < j { DistinctAt(lines, LineId, i, j); }
    if j < i { DistinctAt(lines, LineId, j, i); }
  }

  lemma WithShellCleared(s: Store)
    requires Sound(s)
    ensures Cleared(WithShell(s).lines, ShellId(s))
  {
    var found, t := FirstShell(Customs(s.lines)), WithShell(s);
    if found.Some? {
      CustomsMembers(s.lines);
      if Mentions(found.value.baseUrl, "custom.local") {
        RebasedRow(s.lines, found.value.id);
      } else {
        forall line | line in s.lines && line.id == found.value.id ensures line == found.value {
          OnlyRow(s.lines, line, found.value);
        }
      }
    } else {
      assert !Mentions(NewShell().baseUrl, "custom.local");
      forall line | line in s.lines && line.id == s.issued ensures false {
        var k :| 0 <= k < |s.lines| && s.lines[k] == line;
        IdsContain(s.lines, LineId, k);
      }
    }
  }

  lemma EnsuredSound(proxyOk: ProxyCheck, s: Store, provider: string)
    requires Sound(s) && provider != "custom"
    ensures var t := Ensured(proxyOk, s).store;
            && Sound(t) && t.issued >= WithShell(s).issued
            && Cleared(t.lines, ShellId(s))
            && (forall line | line in t.lines :: line in WithShell(s).lines)
            && (OfProvider(t.lines, provider) == [] <==> OfProvider(s.lines, provider) == [])
  {
    WithShellSound(s);
    OrphansSound(s);
    WithShellCleared(s);
    MigratedSound(proxyOk, WithShell(s), ShellId(s), OrphansOf(s), 0, provider);
    WithShellProviders(s, provider);
  }

  lemma WithShellProviders(s: Store, provider: string)
    requires provider != "custom"
    ensures OfProvider(WithShell(s).lines, provider) == [] <==> OfProvider(s.lines, provider) == []
  {
    var found := FirstShell(Customs(s.lines));
    if found.Some? {
      RebaseKeepsIds(s.lines, found.value.id, "");
    } else {
      OfProviderAppend(s.lines, NewShell().(id := s.issued, createdAt := s.now), provider);
    }
  }

  // ----- names -----

  predicate CodexName(lower: string) {
    lower == "codex oauth" || lower == "codex"
  }

  predicate ClaudeName(lower: string) {
    lower == "claude oauth" || lower == "claude code"
  }

  function LowerChar(c: char): char {
    if 'A' <= c <= 'Z' then ('a' as int + (c as int - 'A' as int)) as char else c
  }

  lemma {:induction false} LowerIs(s: string, t: string)
    requires |s| == |t| && forall i | 0 <= i < |s| :: t[i] == LowerChar(s[i])
    ensures Lower(s) == t
  {
    if s != [] {
      LowerIs(s[1..], t[1..]);
      assert t == [t[0]] + t[1..];
    }
  }

  /** The names that matter, lowered. */
  lemma LowerNames(s: string)
    ensures s == "Codex" ==> Lower(s) == "codex"
    ensures s == "Claude Code" ==> Lower(s) == "claude code"
    ensures s == "Custom API" ==> Lower(s) == "custom api"
    ensures s == "custom" ==> Lower(s) == "custom"
  {
    if s == "Codex" { LowerIs(s, "codex"); }
    if s == "Claude Code" { LowerIs(s, "claude code"); }
    if s == "Custom API" { LowerIs(s, "custom api"); }
    if s == "custom" { LowerIs(s, "custom"); }
  }

  lemma TrimNames(s: string)
    requires s == "Codex" || s == "Claude Code" || s == "Custom API"
    ensures Strings.Trim(s) == s
  {
    assert |s| > 0 && s[0] == 'C';
    assert s[|s| - 1] == if s == "Codex" then 'x' else if s == "Claude Code" then 'e' else 'I';
    Strings.TrimIdempotent(s);
  }

  /** No canonical name, lowered, passes for another one. */
  lemma NamesApart()
    ensures !CodexName("claude code") && !CodexName("custom api") && !ClaudeName("custom api")
    ensures "codex" != "custom api" && "claude code" != "custom api"
    ensures "codex" != "claude code"
  {
    assert |"claude code"| != |"codex"| && "claude code"[1] != "codex oauth"[1];
    assert |"custom api"| != |"codex"| && |"custom api"| != |"codex oauth"|;
    assert |"custom api"| != |"claude oauth"| && |"custom api"| != |"claude code"|;
  }

  lemma CustomIsNoOther()
    ensures "custom" != "codex" && "custom" != "claude-oauth" && "custom" != "claude"
    ensures "custom" != "anthropic-oauth" && "custom" != "anthropic"
  {
    assert |"custom"| != |"codex"| && |"custom"| != |"claude-oauth"| && "custom"[1] != "claude"[1];
    assert |"custom"| != |"anthropic-oauth"| && |"custom"| != |"anthropic"|;
  }

  predicate Stable(provider: string, c: string) {
    CanonicalName(provider, c) == Some(c) && Strings.Trim(c) == c
  }

  lemma CodexStays(provider: string, c: string)
    requires c == "Codex"
    ensures Stable(provider, c)
  {
    LowerNames(c);
    TrimNames(c);
  }

  lemma ClaudeStays(provider: string, c: string)
    requires c == "Claude Code" && Lower(provider) != "codex"
    ensures Stable(provider, c)
  {
    LowerNames(c);
    TrimNames(c);
    NamesApart();
  }

  lemma CustomStays(provider: string, c: string)
    requires c == "Custom API" && Lower(provider) != "codex" && Lower(provider) != "claude-oauth"
    requires Lower(provider) != "claude" && Lower(provider) != "anthropic-oauth" && Lower(provider) != "anthropic"
    ensures Stable(provider, c)
  {
    LowerNames(c);
    TrimNames(c);
    NamesApart();
  }

  /** A canonical name is canonical for its own line. */
  lemma CanonicalIsStable(provider: string, name: string)
    ensures CanonicalName(provider, name).Some? ==> Stable(provider, CanonicalName(provider, name).value)
  {
    var p, n := Lower(provider), Lower(name);
    if p == "codex" || n == "codex oauth" || n == "codex" {
      CodexStays(provider, "Codex");
    } else if p == "claude-oauth" || p == "claude" || p == "anthropic-oauth" || p == "anthropic"
              || n == "claude oauth" || n == "claude code" {
      ClaudeStays(provider, "Claude Code");
    } else {
      CustomStays(provider, "Custom API");
    }
  }

  lemma RenamedTwice(line: Line)
    ensures Renamed(Renamed(line)) == Renamed(line)
  {
    CanonicalIsStable(line.provider, NameOf(line));
  }

  lemma {:induction false} AllRenamedTwice(lines: seq<Line>)
    ensures AllRenamed(AllRenamed(lines)) == AllRenamed(lines)
  {
    if lines != [] {
      AllRenamedTwice(lines[1..]);
      RenamedTwice(lines[0]);
      var rest := AllRenamed(lines[1..]);
      assert ([Renamed(lines[0])] + rest)[1..] == rest;
    }
  }

  lemma {:induction false} AllRenamedKeeps(lines: seq<Line>, provider: string)
    ensures Ids(AllRenamed(lines), LineId) == Ids(lines, LineId)
    ensures Distinct(lines, LineId) ==> Distinct(AllRenamed(lines), LineId)
    ensures OfProvider(AllRenamed(lines), provider) == AllRenamed(OfProvider(lines, provider))
  {
    if lines != [] {
      AllRenamedKeeps(lines[1..], provider);
      var rest, some := AllRenamed(lines[1..]), OfProvider(lines[1..], provider);
      RenamedKeeps(lines[0]);
      assert ([Renamed(lines[0])] + rest)[1..] == rest;
      assert ([lines[0]] + some)[1..] == some && [] + some == some;
      assert [] + AllRenamed(some) == AllRenamed(some);
    }
  }

  lemma RenamedKeeps(line: Line)
    ensures Renamed(line) == line.(name := Renamed(line).name)
  {
  }

  /** The canonical name of a custom line. */
  lemma CustomCanonical(provider: string, name: string)
    requires provider == "custom"
    ensures CanonicalName(provider, name) ==
            Some(if CodexName(Lower(name)) then "Codex"
                 else if ClaudeName(Lower(name)) then "Claude Code" else "Custom API")
  {
    LowerNames(provider);
    CustomIsNoOther();
  }

  lemma RenamedName(line: Line)
    requires CanonicalName(line.provider, NameOf(line)).Some?
    ensures Strings.Trim(NameOf(Renamed(line))) == CanonicalName(line.provider, NameOf(line)).value
  {
    CanonicalIsStable(line.provider, NameOf(line));
  }

  /** The shell's model prefix, or a name that does not pass for Codex or Claude. */
  predicate StaysRecognised(line: Line) {
    line.modelPrefix == "custom" || !(CodexName(Lower(NameOf(line))) || ClaudeName(Lower(NameOf(line))))
  }

  /** When a custom line with no fake URL is still recognised as the shell after the names are normalised. */
  lemma RecognisedAfterRename(line: Line)
    requires line.provider == "custom" && !Mentions(Strings.Trim(line.baseUrl), "custom.local")
    ensures IsShell(Renamed(line)) <==> StaysRecognised(line)
  {
    var renamed := Renamed(line);
    CustomCanonical(line.provider, NameOf(line));
    RenamedName(line);
    RenamedKeeps(line);
    LowerNames(line.provider);
    LowerNames(Strings.Trim(NameOf(renamed)));
    NamesApart();
    assert IsShell(renamed) <==> Lower(Strings.Trim(NameOf(renamed))) == "custom api" || line.modelPrefix == "custom";
  }

  // ----- the second run -----

  lemma WithPresetSound(s: Store, preset: string -> Line, provider: string)
    requires Sound(s) && provider != "custom"
    ensures var t := WithPreset(s, preset, provider);
            && Sound(t) && OfProvider(t.lines, provider) != []
            && (OfProvider(s.lines, provider) != [] ==> t == s)
            && forall other | OfProvider(s.lines, other) != [] :: OfProvider(t.lines, other) != []
  {
    if OfProvider(s.lines, provider) == [] {
      var line := preset(provider).(provider := provider, id := s.issued, createdAt := s.now);
      IdsAppend(s.lines, line);
      forall other ensures OfProvider(s.lines + [line], other) == OfProvider(s.lines, other)
                                                                 + if line.provider == other then [line] else []
      {
        OfProviderAppend(s.lines, line, other);
      }
    }
  }

  lemma PresetsApart()
    ensures CODEX != "custom" && CLAUDE_OAUTH != "custom"
  {
    CustomIsNoOther();
  }

  lemma WithPresetsSound(s: Store, preset: string -> Line)
    requires Sound(s)
    ensures var t := WithPresets(s, preset);
            && Sound(t) && OfProvider(t.lines, CODEX) != [] && OfProvider(t.lines, CLAUDE_OAUTH) != []
            && (OfProvider(s.lines, CODEX) != [] && OfProvider(s.lines, CLAUDE_OAUTH) != [] ==> t == s)
  {
    PresetsApart();
    WithPresetSound(s, preset, CODEX);
    WithPresetSound(WithPreset(s, preset, CODEX), preset, CLAUDE_OAUTH);
  }

  lemma {:induction false} CountIds(lines: seq<Line>)
    requires Distinct(lines, LineId)
    ensures |Ids(lines, LineId)| == |lines|
  {
    if lines != [] { CountIds(lines[1..]); }
  }

  lemma OneCustom(lines: seq<Line>, id: nat)
    requires Distinct(lines, LineId) && CustomIds(lines) == {id}
    ensures |OfProvider(lines, "custom")| == 1 && Customs(lines) == OfProvider(lines, "custom")
    ensures Customs(lines)[0].id == id && Customs(lines)[0].provider == "custom"
  {
    var some := OfProvider(lines, "custom");
    CustomIdsAreIds(lines);
    CountIds(some);
    assert SortBy(some[1..], LineKey) == [];
    IdsContain(some, LineId, 0);
    OfProviderMembers(lines, "custom");
  }

  lemma {:induction false} AllRenamedAt(lines: seq<Line>)
    ensures |AllRenamed(lines)| == |lines|
    ensures forall i | 0 <= i < |lines| :: AllRenamed(lines)[i] == Renamed(lines[i])
  {
    if lines != [] { AllRenamedAt(lines[1..]); }
  }

  /** What a first run that goes through leaves: one custom line, cleared, with its canonical name. */
  lemma AfterStart(proxyOk: ProxyCheck, preset: string -> Line, s: Store) returns (shell: Line)
    requires Sound(s) && Started(proxyOk, preset, s).ok
    ensures var t := Started(proxyOk, preset, s).store;
            && Sound(t) && Customs(t.lines) == [shell] && shell in t.lines
            && shell == Renamed(ShellLine(WithPresets(s, preset)))
            && !Mentions(shell.baseUrl, "custom.local")
            && OfProvider(t.lines, CODEX) != [] && OfProvider(t.lines, CLAUDE_OAUTH) != []
            && AllRenamed(t.lines) == t.lines
  {
    var s0 := WithPresets(s, preset);
    var out := Ensured(proxyOk, s0);
    var t := Started(proxyOk, preset, s).store;
    PresetsApart();
    WithPresetsSound(s, preset);
    EnsuredSound(proxyOk, s0, CODEX);
    EnsuredSound(proxyOk, s0, CLAUDE_OAUTH);
    MigrationConservesAccounts(proxyOk, s0);
    AllRenamedKeeps(out.store.lines, CODEX);
    AllRenamedKeeps(out.store.lines, CLAUDE_OAUTH);
    AllRenamedTwice(out.store.lines);
    WithShellSound(s0);
    ShellLineIsThere(s0);
    shell := RenamedShell(out.store.lines, WithShell(s0).lines, ShellLine(s0));
  }

  lemma ShellLineIsThere(s: Store)
    ensures ShellLine(s) in WithShell(s).lines && ShellLine(s).id == ShellId(s) && ShellLine(s).provider == "custom"
    ensures !Mentions(ShellLine(s).baseUrl, "custom.local")
  {
    var found := FirstShell(Customs(s.lines));
    var none := "";
    assert !Mentions(none, "custom.local");
    if found.Some? {
      CustomsMembers(s.lines);
      RewrittenRow(s.lines, found.value, SetBase(""));
    } else {
      assert WithShell(s).lines[|s.lines|] == ShellLine(s);
    }
  }

  lemma {:induction false} RewrittenRow(lines: seq<Line>, line: Line, change: Line -> Line)
    requires line in lines
    ensures change(line) in Rewritten(lines, line.id, change)
  {
    if line != lines[0] {
      RewrittenRow(lines[1..], line, change);
    }
  }

  lemma RenamedShell(lines: seq<Line>, before: seq<Line>, row: Line) returns (shell: Line)
    requires Distinct(lines, LineId) && CustomIds(lines) == {row.id} && Cleared(lines, row.id)
    requires Distinct(before, LineId) && row in before && forall line | line in lines :: line in before
    ensures var after := AllRenamed(lines);
            && Distinct(after, LineId) && CustomIds(after) == {row.id}
            && Customs(after) == [shell] && shell in after && !Mentions(shell.baseUrl, "custom.local")
            && shell == Renamed(row)
  {
    var id := row.id;
    var after := AllRenamed(lines);
    AllRenamedKeeps(lines, "custom");
    AllRenamedKeeps(OfProvider(lines, "custom"), "custom");
    OneCustom(after, id);
    shell := Customs(after)[0];
    OfProviderMembers(after, "custom");
    AllRenamedAt(lines);
    var k :| 0 <= k < |after| && after[k] == shell;
    RenamedKeeps(lines[k]);
    OnlyRow(before, lines[k], row);
  }

  lemma PresetsKeepCustoms(s: Store, preset: string -> Line)
    ensures Customs(WithPresets(s, preset).lines) == Customs(s.lines)
  {
    PresetsApart();
    PresetKeepsCustoms(s, preset, CODEX);
    PresetKeepsCustoms(WithPreset(s, preset, CODEX), preset, CLAUDE_OAUTH);
  }

  lemma PresetKeepsCustoms(s: Store, preset: string -> Line, provider: string)
    requires provider != "custom"
    ensures Customs(WithPreset(s, preset, provider).lines) == Customs(s.lines)
  {
    if OfProvider(s.lines, provider) == [] {
      var line := preset(provider).(provider := provider, id := s.issued, createdAt := s.now);
      OfProviderAppend(s.lines, line, "custom");
      assert OfProvider(s.lines, "custom") + [] == OfProvider(s.lines, "custom");
    }
  }

  lemma StartMentions(s: string, whole: string, part: string)
    requires s <= whole && Mentions(s, part)
    ensures Mentions(whole, part)
  {
    if !Strings.StartsWith(s, part) {
      StartMentions(s[1..], whole[1..], part);
    }
  }

  lemma {:induction false} TrimmedMentions(s: string, part: string)
    ensures Mentions(Strings.TrimStart(s), part) ==> Mentions(s, part)
    ensures Mentions(Strings.TrimEnd(s), part) ==> Mentions(s, part)
    decreases |s|
  {
    if s != [] {
      TrimmedMentions(s[1..], part);
      if Mentions(Strings.TrimEnd(s), part) { StartMentions(Strings.TrimEnd(s), s, part); }
    }
  }

  /** The start-up step, run once, leaves a shell that the next run recognises. */
  predicate ShellStays(s: Store) {
    match FirstShell(Customs(s.lines))
    case Some(shell) => StaysRecognised(shell)
    case None => true
  }

  lemma NoFakeUrl(url: string)
    requires !Mentions(url, "custom.local")
    ensures !Mentions(Strings.Trim(url), "custom.local")
  {
    TrimmedMentions(url, "custom.local");
    TrimmedMentions(Strings.TrimStart(url), "custom.local");
  }

  /** Clearing its URL does not change what the shell is called. */
  lemma ShellLineStays(s: Store)
    ensures StaysRecognised(ShellLine(s)) <==> ShellStays(s)
  {
    var found := FirstShell(Customs(s.lines));
    if found.Some? {
      assert NameOf(SetBase("")(found.value)) == NameOf(found.value);
    }
  }

  lemma RecognisedAgain(s: Store, preset: string -> Line)
    ensures IsShell(Renamed(ShellLine(WithPresets(s, preset)))) <==> ShellStays(s)
  {
    var t := WithPresets(s, preset);
    PresetsKeepCustoms(s, preset);
    ShellLineIsThere(t);
    NoFakeUrl(ShellLine(t).baseUrl);
    RecognisedAfterRename(ShellLine(t));
    ShellLineStays(t);
    assert ShellStays(t) == ShellStays(s);
  }

  /** Starting from what a run that went through leaves. */
  lemma StartAgain(proxyOk: ProxyCheck, preset: string -> Line, t: Store, shell: Line)
    requires Sound(t) && Customs(t.lines) == [shell] && !Mentions(shell.baseUrl, "custom.local")
    requires WithPresets(t, preset) == t && AllRenamed(t.lines) == t.lines
    ensures Started(proxyOk, preset, t) == Outcome(t, true) <==> IsShell(shell)
  {
    if IsShell(shell) {
      RecognisedRun(proxyOk, t, shell);
    } else {
      UnrecognisedRun(proxyOk, t, shell);
    }
  }

  /**
   A second run of the whole start-up step changes nothing exactly when there was no shell before the
   first run or the shell found then has the shell's model prefix or a name that does not pass for
   Codex or Claude.
   */
  lemma SecondRunChangesNothing(proxyOk: ProxyCheck, preset: string -> Line, s: Store)
    requires Sound(s) && Started(proxyOk, preset, s).ok
    ensures var t := Started(proxyOk, preset, s).store;
            && |Customs(t.lines)| == 1
            && (Started(proxyOk, preset, t) == Outcome(t, true) <==> ShellStays(s))
  {
    var t := Started(proxyOk, preset, s).store;
    var shell := AfterStart(proxyOk, preset, s);
    PresetsStay(t, preset);
    StartAgain(proxyOk, preset, t, shell);
    RecognisedAgain(s, preset);
  }

  lemma PresetsStay(t: Store, preset: string -> Line)
    requires OfProvider(t.lines, CODEX) != [] && OfProvider(t.lines, CLAUDE_OAUTH) != []
    ensures WithPresets(t, preset) == t
  {
  }

  lemma RecognisedRun(proxyOk: ProxyCheck, t: Store, shell: Line)
    requires Customs(t.lines) == [shell] && IsShell(shell) && !Mentions(shell.baseUrl, "custom.local")
    ensures Ensured(proxyOk, t) == Outcome(t, true)
  {
    OneShell(Customs(t.lines), shell);
    NoOrphans(proxyOk, WithShell(t), ShellId(t), OrphansOf(t));
  }

  lemma OneShell(customs: seq<Line>, shell: Line)
    requires customs == [shell]
    ensures FirstShell(customs) == if IsShell(shell) then Some(shell) else None
    ensures DropLine(customs, shell.id) == []
  {
    assert customs[1..] == [];
  }

  lemma NoOrphans(proxyOk: ProxyCheck, t: Store, shell: nat, orphans: seq<Line>)
    requires orphans == []
    ensures Migrated(proxyOk, t, shell, orphans, 0) == Outcome(t, true)
  {
  }

  lemma UnrecognisedRun(proxyOk: ProxyCheck, t: Store, shell: Line)
    requires Sound(t) && Customs(t.lines) == [shell] && !IsShell(shell)
    ensures Ensured(proxyOk, t).store.issued > t.issued
  {
    OneShell(Customs(t.lines), shell);
    PresetsApart();
    EnsuredSound(proxyOk, t, CODEX);
  }

  // ----- a store with one line -----

  lemma FirstShellCons(x: Line, rest: seq<Line>)
    ensures FirstShell([x] + rest) == if IsShell(x) then Some(x) else FirstShell(rest)
  {
    assert ([x] + rest)[1..] == rest;
  }

  lemma OneLineIds(line: Line)
    ensures Ids([line], LineId) == {line.id} && Distinct([line], LineId)
  {
    assert [line][1..] == [];
  }

  lemma OneLineOfProvider(line: Line)
    requires line.provider == "custom"
    ensures OfProvider([line], "custom") == [line]
  {
    var none := [line][1..];
    assert OfProvider(none, "custom") == [] && [line] + [] == [line];
  }

  lemma OneLineCustoms(line: Line)
    requires line.provider == "custom"
    ensures Customs([line]) == [line]
  {
    OneLineOfProvider(line);
    var none := [line][1..];
    assert SortBy(none, LineKey) == [] && [line] + [] == [line];
  }

  lemma OneLineShell(line: Line)
    ensures FirstShell([line]) == if IsShell(line) then Some(line) else None
  {
    FirstShellCons(line, []);
    assert [line] + [] == [line];
  }

  lemma OneLineSound(s: Store, line: Line)
    requires s.lines == [line] && line.id < s.issued
    requires forall i | 0 <= i < |s.accounts| :: s.accounts[i].line == line.id
    ensures Sound(s)
  {
    OneLineIds(line);
  }

  /** A shell by its fake URL, with a name that is normalised to Codex. */
  function NamedShell(name: string, url: string): Line {
    Line(0, "custom", Some(name), url, "", None, true, 0, [], None, 0)
  }

  /** Such a line, alone in the store: the first start goes through and the second one does not leave it alone. */
  lemma NamedShellIsLost(proxyOk: ProxyCheck, preset: string -> Line, name: string, url: string)
    requires name == "codex" && url == "custom.local"
    ensures var s := Store([NamedShell(name, url)], [], 1, 0);
            && Sound(s) && Started(proxyOk, preset, s).ok
            && Started(proxyOk, preset, Started(proxyOk, preset, s).store)
               != Outcome(Started(proxyOk, preset, s).store, true)
  {
    var line := NamedShell(name, url);
    var s := Store([line], [], 1, 0);
    OneLineSound(s, line);
    NamedShellIsShell(line, name);
    OneLineCustoms(line);
    OneLineShell(line);
    PresetsKeepCustoms(s, preset);
    StartGoesThrough(proxyOk, WithPresets(s, preset), line);
    SecondRunChangesNothing(proxyOk, preset, s);
  }

  lemma NamedShellIsShell(line: Line, name: string)
    requires line.provider == "custom" && line.name == Some(name) && name == "codex"
    requires line.baseUrl == "custom.local" && line.modelPrefix == ""
    ensures IsShell(line) && !StaysRecognised(line)
  {
    LowerNames(line.provider);
    FakeUrlEnds(line.baseUrl);
    MentionsItself(line.baseUrl);
    CodexIsCodex(name);
  }

  lemma CodexIsCodex(name: string)
    requires name == "codex"
    ensures CodexName(Lower(name))
  {
    LowerIs(name, name);
  }

  lemma FakeUrlEnds(url: string)
    requires url == "custom.local"
    ensures url != "" && url[0] == 'c' && url[|url| - 1] == 'l'
  {
  }

  lemma MentionsItself(s: string)
    requires s != "" && !Strings.IsWhitespace(s[0]) && !Strings.IsWhitespace(s[|s| - 1])
    ensures Mentions(Strings.Trim(s), s)
  {
    Strings.TrimIdempotent(s);
    assert Strings.StartsWith(s, s);
  }

  lemma StartGoesThrough(proxyOk: ProxyCheck, s: Store, shell: Line)
    requires Customs(s.lines) == [shell] && IsShell(shell)
    ensures Ensured(proxyOk, s).ok
  {
    OneShell(Customs(s.lines), shell);
    NoOrphans(proxyOk, WithShell(s), ShellId(s), OrphansOf(s));
  }
}
