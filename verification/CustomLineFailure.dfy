/** What a migration that stops midway leaves, and what the next start adds to it. */
module CustomLineFailure {
  import opened Options
  import opened Sorting
  import opened CustomLine
  import opened CustomLineMigration
  import opened CustomLineRestart
  import Strings

  // ----- the items of one orphan -----

  function MovedAll(orphan: Line, list: seq<Account>): seq<Credentials> {
    if list == [] then [] else [Moved(orphan, list[0].credentials)] + MovedAll(orphan, list[1..])
  }

  /** What is created for an orphan, in order: its own endpoint if usable, then its accounts. */
  function Items(orphan: Line, list: seq<Account>): seq<Credentials> {
    (if Usable(orphan) then [OrphanCredentials(orphan)] else []) + MovedAll(orphan, list)
  }

  /** The checks of `create_provider_account`, as a verdict. */
  function Passes(proxyOk: ProxyCheck): Credentials -> bool {
    c => Normalized(proxyOk, c).Good?
  }

  /** How many items pass a check before the first that fails. */
  function Passing(check: Credentials -> bool, items: seq<Credentials>): (n: nat)
    ensures n <= |items|
    ensures forall i | 0 <= i < n :: check(items[i])
    ensures n < |items| ==> !check(items[n])
  {
    if items == [] || !check(items[0]) then 0 else 1 + Passing(check, items[1..])
  }

  /** The secrets of the first n items. */
  function FirstSecrets(items: seq<Credentials>, n: nat): multiset<Secret>
    requires n <= |items|
  {
    if n == 0 then multiset{} else multiset{items[0].secret} + FirstSecrets(items[1..], n - 1)
  }

  lemma {:induction false} FirstSecretsCount(items: seq<Credentials>, n: nat)
    requires n <= |items|
    ensures |FirstSecrets(items, n)| == n
  {
    if n > 0 { FirstSecretsCount(items[1..], n - 1); }
  }

  lemma {:induction false} MovedAllAt(orphan: Line, list: seq<Account>)
    ensures |MovedAll(orphan, list)| == |list|
    ensures forall i | 0 <= i < |list| :: MovedAll(orphan, list)[i] == Moved(orphan, list[i].credentials)
  {
    if list != [] {
      MovedAllAt(orphan, list[1..]);
      assert forall i | 1 <= i < |list| :: list[i] == list[1..][i - 1];
    }
  }

  /** An orphan is movable exactly when all its items pass. */
  lemma MovableIsPassing(proxyOk: ProxyCheck, orphan: Line, list: seq<Account>)
    ensures Movable(proxyOk, orphan, list) <==>
            Passing(Passes(proxyOk), Items(orphan, list)) == |Items(orphan, list)|
  {
    var check, items := Passes(proxyOk), Items(orphan, list);
    MovedAllAt(orphan, list);
    MovableIsAll(proxyOk, check, orphan, list);
    AllPassing(check, items);
    var moved := MovedAll(orphan, list);
    if Usable(orphan) {
      assert items[0] == OrphanCredentials(orphan) && items[1..] == moved;
      AllPassing(check, moved);
    } else {
      assert items == moved;
    }
  }

  lemma AllPassing(check: Credentials -> bool, items: seq<Credentials>)
    ensures Passing(check, items) == |items| <==> forall i | 0 <= i < |items| :: check(items[i])
    ensures items != [] && check(items[0]) ==> Passing(check, items) == 1 + Passing(check, items[1..])
  {
  }

  lemma MovableIsAll(proxyOk: ProxyCheck, check: Credentials -> bool, orphan: Line, list: seq<Account>)
    requires check == Passes(proxyOk)
    ensures Movable(proxyOk, orphan, list) <==>
            (Usable(orphan) ==> check(OrphanCredentials(orphan)))
            && forall i | 0 <= i < |list| :: check(Moved(orphan, list[i].credentials))
  {
  }

  // ----- creating them -----

  /** Items created one after the other until one fails. */
  function CreatedAll(proxyOk: ProxyCheck, s: Store, shell: nat, items: seq<Credentials>): Outcome
    decreases |items|
  {
    if items == [] then Outcome(s, true)
    else
      var next := Created(proxyOk, s, shell, items[0]);
      if next.ok then CreatedAll(proxyOk, next.store, shell, items[1..]) else next
  }

  lemma {:induction false} CopiedIsCreated(proxyOk: ProxyCheck, s: Store, shell: nat, orphan: Line,
                                           list: seq<Account>, from: nat)
    requires from <= |list|
    ensures Copied(proxyOk, s, shell, orphan, list, from)
            == CreatedAll(proxyOk, s, shell, MovedAll(orphan, list[from..]))
    decreases |list| - from
  {
    if from < |list| {
      var items := MovedAll(orphan, list[from..]);
      assert list[from..][1..] == list[from + 1..];
      assert items[1..] == MovedAll(orphan, list[from + 1..]);
      var next := Created(proxyOk, s, shell, Moved(orphan, list[from].credentials));
      if next.ok { CopiedIsCreated(proxyOk, next.store, shell, orphan, list, from + 1); }
    }
  }

  lemma RehomingIsCreated(proxyOk: ProxyCheck, s: Store, shell: nat, orphan: Line)
    requires HasLine(s.lines, shell) && orphan.id != shell
    ensures Rehoming(proxyOk, s, shell, orphan)
         == CreatedAll(proxyOk, s, shell, Items(orphan, AccountsOf(s.accounts, orphan.id)))
  {
    var own, list := OrphanCredentials(orphan), AccountsOf(s.accounts, orphan.id);
    var items := Items(orphan, list);
    CreatedHeld(proxyOk, s, shell, own, orphan.id);
    assert list[0..] == list;
    if Usable(orphan) {
      assert items[1..] == MovedAll(orphan, list);
      var first := Created(proxyOk, s, shell, own);
      if first.ok {
        assert AccountsOf(first.store.accounts, orphan.id) == list;
        CopiedIsCreated(proxyOk, first.store, shell, orphan, list, 0);
      }
    } else {
      assert items == MovedAll(orphan, list);
      CopiedIsCreated(proxyOk, s, shell, orphan, list, 0);
    }
  }

  /** The items that pass are added to the shell, and nothing else changes. */
  lemma {:induction false} CreatedAllAdds(proxyOk: ProxyCheck, s: Store, shell: nat, items: seq<Credentials>,
                                          lines: set<nat>, other: nat)
    requires HasLine(s.lines, shell) && shell in lines && other != shell
    ensures var out, n := CreatedAll(proxyOk, s, shell, items), Passing(Passes(proxyOk), items);
            && (out.ok <==> n == |items|)
            && out.store.lines == s.lines
            && SecretsIn(out.store.accounts, lines) == SecretsIn(s.accounts, lines) + FirstSecrets(items, n)
            && OfLine(out.store.accounts, other) == OfLine(s.accounts, other)
    decreases |items|
  {
    if items != [] {
      CreatedOne(proxyOk, s, shell, items[0], lines, other);
      var next := Created(proxyOk, s, shell, items[0]);
      if next.ok { CreatedAllAdds(proxyOk, next.store, shell, items[1..], lines, other); }
    }
  }

  lemma CreatedOne(proxyOk: ProxyCheck, s: Store, shell: nat, c: Credentials, lines: set<nat>, other: nat)
    requires HasLine(s.lines, shell) && shell in lines && other != shell
    ensures var out := Created(proxyOk, s, shell, c);
            && (out.ok <==> Passes(proxyOk)(c))
            && out.store.lines == s.lines
            && SecretsIn(out.store.accounts, lines)
               == SecretsIn(s.accounts, lines) + (if out.ok then multiset{c.secret} else multiset{})
            && OfLine(out.store.accounts, other) == OfLine(s.accounts, other)
  {
    CreatedSecrets(proxyOk, s, shell, c, lines);
    CreatedHeld(proxyOk, s, shell, c, other);
  }

  // ----- a run that stops -----

  /** The lines without the orphans from `from` up to `to`. */
  function DropAll(lines: seq<Line>, orphans: seq<Line>, from: nat, to: nat): seq<Line>
    requires from <= to <= |orphans|
    decreases |orphans| - from
  {
    if from == to then lines else DropAll(DropLine(lines, orphans[from].id), orphans, from + 1, to)
  }

  function OwnSecretsUpTo(orphans: seq<Line>, from: nat, to: nat): multiset<Secret>
    requires from <= to <= |orphans|
    decreases |orphans| - from
  {
    if from == to then multiset{} else OwnSecret(orphans[from]) + OwnSecretsUpTo(orphans, from + 1, to)
  }

  /** Orphan k is the first from `from` on that cannot be moved. */
  predicate FirstStuck(proxyOk: ProxyCheck, orphans: seq<Line>, lists: seq<seq<Account>>, from: nat, k: nat)
    requires |lists| == |orphans|
  {
    from <= k < |orphans| && !Movable(proxyOk, orphans[k], lists[k])
    && forall j | from <= j < k :: Movable(proxyOk, orphans[j], lists[j])
  }

  /** What the stuck orphan leaves behind: copies of the items before the first that fails. */
  function Copies(proxyOk: ProxyCheck, orphan: Line, list: seq<Account>): multiset<Secret> {
    FirstSecrets(Items(orphan, list), Passing(Passes(proxyOk), Items(orphan, list)))
  }

  lemma StuckRehoming(proxyOk: ProxyCheck, s: Store, shell: nat, orphan: Line, other: nat)
    requires shell in CustomIds(s.lines) && orphan.id != shell && other != shell
    requires !Movable(proxyOk, orphan, AccountsOf(s.accounts, orphan.id))
    ensures var out, list := Rehomed(proxyOk, s, shell, orphan), AccountsOf(s.accounts, orphan.id);
            && !out.ok && out.store.lines == s.lines
            && CustomSecrets(out.store) == CustomSecrets(s) + Copies(proxyOk, orphan, list)
            && OfLine(out.store.accounts, other) == OfLine(s.accounts, other)
  {
    var list := AccountsOf(s.accounts, orphan.id);
    CustomIdsAreIds(s.lines);
    RehomingIsCreated(proxyOk, s, shell, orphan);
    MovableIsPassing(proxyOk, orphan, list);
    CreatedAllAdds(proxyOk, s, shell, Items(orphan, list), CustomIds(s.lines), other);
  }

  /** A movable orphan goes, and the accounts of the others stay as they were. */
  lemma RehomedStep(proxyOk: ProxyCheck, s: Store, shell: nat, orphans: seq<Line>, lists: seq<seq<Account>>, from: nat)
    requires shell in CustomIds(s.lines) && |lists| == |orphans| && from < |orphans|
    requires OrphansAmong(orphans, from, shell, CustomIds(s.lines)) && ListsAre(s.accounts, orphans, lists, from)
    requires Movable(proxyOk, orphans[from], lists[from])
    ensures var next := Rehomed(proxyOk, s, shell, orphans[from]);
            && next.ok && next.store.lines == DropLine(s.lines, orphans[from].id)
            && CustomSecrets(next.store) == CustomSecrets(s) + OwnSecret(orphans[from])
            && shell in CustomIds(next.store.lines)
            && OrphansAmong(orphans, from + 1, shell, CustomIds(next.store.lines))
            && ListsAre(next.store.accounts, orphans, lists, from + 1)
  {
    var orphan, next := orphans[from], Rehomed(proxyOk, s, shell, orphans[from]);
    CustomIdsAreIds(s.lines);
    RehomedHeld(proxyOk, s, shell, orphan, orphan.id);
    RehomedSecrets(proxyOk, s, shell, orphan);
    RehomedLines(proxyOk, s, shell, orphan);
    forall j | from + 1 <= j < |orphans| ensures lists[j] == AccountsOf(next.store.accounts, orphans[j].id) {
      RehomedHeld(proxyOk, s, shell, orphan, orphans[j].id);
    }
  }

  lemma StuckStep(proxyOk: ProxyCheck, s: Store, shell: nat, orphans: seq<Line>, lists: seq<seq<Account>>, k: nat)
    requires shell in CustomIds(s.lines) && |lists| == |orphans| && k < |orphans|
    requires OrphansAmong(orphans, k, shell, CustomIds(s.lines)) && ListsAre(s.accounts, orphans, lists, k)
    requires !Movable(proxyOk, orphans[k], lists[k])
    ensures var out := Rehomed(proxyOk, s, shell, orphans[k]);
            && !out.ok && out.store.lines == s.lines
            && CustomSecrets(out.store) == CustomSecrets(s) + Copies(proxyOk, orphans[k], lists[k])
            && ListsAre(out.store.accounts, orphans, lists, k)
  {
    var out := Rehomed(proxyOk, s, shell, orphans[k]);
    StuckRehoming(proxyOk, s, shell, orphans[k], orphans[k].id);
    forall j | k <= j < |orphans| ensures lists[j] == AccountsOf(out.store.accounts, orphans[j].id) {
      StuckRehoming(proxyOk, s, shell, orphans[k], orphans[j].id);
    }
  }

  /** The outcome of a run from a store on orphans `from` up to the stuck orphan k. */
  predicate StoppedFrom(out: Outcome, s: Store, orphans: seq<Line>, lists: seq<seq<Account>>, from: nat, k: nat,
                        copies: multiset<Secret>)
    requires from <= k <= |orphans|
  {
    && !out.ok && out.store.lines == DropAll(s.lines, orphans, from, k)
    && CustomSecrets(out.store) == CustomSecrets(s) + OwnSecretsUpTo(orphans, from, k) + copies
    && ListsAre(out.store.accounts, orphans, lists, k)
  }

  lemma StoppedEarlier(out: Outcome, s: Store, next: Store, orphans: seq<Line>, lists: seq<seq<Account>>, from: nat,
                       k: nat, copies: multiset<Secret>)
    requires from < k <= |orphans| && StoppedFrom(out, next, orphans, lists, from + 1, k, copies)
    requires next.lines == DropLine(s.lines, orphans[from].id)
    requires CustomSecrets(next) == CustomSecrets(s) + OwnSecret(orphans[from])
    ensures StoppedFrom(out, s, orphans, lists, from, k, copies)
  {
  }

  lemma {:induction false} MigratedStops(proxyOk: ProxyCheck, s: Store, shell: nat, orphans: seq<Line>,
                                         lists: seq<seq<Account>>, from: nat, k: nat)
    requires shell in CustomIds(s.lines) && |lists| == |orphans| && FirstStuck(proxyOk, orphans, lists, from, k)
    requires OrphansAmong(orphans, from, shell, CustomIds(s.lines)) && ListsAre(s.accounts, orphans, lists, from)
    ensures StoppedFrom(Migrated(proxyOk, s, shell, orphans, from), s, orphans, lists, from, k,
                        Copies(proxyOk, orphans[k], lists[k]))
    decreases k - from
  {
    if from == k {
      StuckStep(proxyOk, s, shell, orphans, lists, k);
    } else {
      RehomedStep(proxyOk, s, shell, orphans, lists, from);
      var next := Rehomed(proxyOk, s, shell, orphans[from]).store;
      MigratedStops(proxyOk, next, shell, orphans, lists, from + 1, k);
      StoppedEarlier(Migrated(proxyOk, next, shell, orphans, from + 1), s, next, orphans, lists, from, k,
                     Copies(proxyOk, orphans[k], lists[k]));
    }
  }

  lemma RehomedLines(proxyOk: ProxyCheck, s: Store, shell: nat, orphan: Line)
    requires HasLine(s.lines, shell) && orphan.id != shell
    ensures var out := Rehomed(proxyOk, s, shell, orphan);
            out.ok ==> out.store.lines == DropLine(s.lines, orphan.id)
  {
    RehomingSecrets(proxyOk, s, shell, orphan, {});
  }

  ghost predicate AnyOf(p: nat -> bool, from: nat, until: nat) {
    exists j: nat | from <= j < until :: p(j)
  }

  lemma {:induction false} FirstOf(p: nat -> bool, from: nat, until: nat) returns (k: nat)
    requires from <= until && AnyOf(p, from, until)
    ensures from <= k < until && p(k) && forall j: nat | from <= j < k :: !p(j)
    decreases until - from
  {
    if p(from) {
      k := from;
    } else {
      k := FirstOf(p, from + 1, until);
    }
  }

  /** Where a run stops: the first orphan that cannot be moved. */
  lemma FindStuck(proxyOk: ProxyCheck, orphans: seq<Line>, lists: seq<seq<Account>>) returns (k: nat)
    requires |lists| == |orphans| && !EachMovable(proxyOk, orphans, lists, 0)
    ensures FirstStuck(proxyOk, orphans, lists, 0, k)
  {
    var stuck := (j: nat) => j < |orphans| && !Movable(proxyOk, orphans[j], lists[j]);
    var m :| 0 <= m < |orphans| && !Movable(proxyOk, orphans[m], lists[m]);
    assert stuck(m);
    k := FirstOf(stuck, 0, |orphans|);
    forall j | 0 <= j < k ensures Movable(proxyOk, orphans[j], lists[j]) {
      assert !stuck(j);
    }
  }

  /**
   What a stopped run leaves, whatever made it stop. With k the first orphan that cannot be moved, the
   orphans before it are gone and all they held is under the shell; orphan k and those after it are
   untouched, and the items of orphan k before its first failing one have been copied to the shell.
   */
  lemma FailedRunLeavesCopies(proxyOk: ProxyCheck, s: Store) returns (k: nat)
    requires Sound(s) && !Ensured(proxyOk, s).ok
    ensures var out, orphans := Ensured(proxyOk, s), OrphansOf(s);
            var lists := ListsOf(s.accounts, orphans);
            && FirstStuck(proxyOk, orphans, lists, 0, k)
            && out.store.lines == DropAll(WithShell(s).lines, orphans, 0, k)
            && CustomSecrets(out.store)
               == CustomSecrets(s) + OwnSecretsUpTo(orphans, 0, k) + Copies(proxyOk, orphans[k], lists[k])
            && ListsAre(out.store.accounts, orphans, lists, k)
  {
    var orphans := OrphansOf(s);
    var lists := ListsOf(s.accounts, orphans);
    MigrationGoesThrough(proxyOk, s);
    k := FindStuck(proxyOk, orphans, lists);
    StopsAt(proxyOk, s, k);
  }

  lemma StopsAt(proxyOk: ProxyCheck, s: Store, k: nat)
    requires Sound(s)
    requires FirstStuck(proxyOk, OrphansOf(s), ListsOf(s.accounts, OrphansOf(s)), 0, k)
    ensures var out, orphans := Ensured(proxyOk, s), OrphansOf(s);
            var lists := ListsOf(s.accounts, orphans);
            && !out.ok && out.store.lines == DropAll(WithShell(s).lines, orphans, 0, k)
            && CustomSecrets(out.store)
               == CustomSecrets(s) + OwnSecretsUpTo(orphans, 0, k) + Copies(proxyOk, orphans[k], lists[k])
            && ListsAre(out.store.accounts, orphans, lists, k)
  {
    var orphans := OrphansOf(s);
    WithShellSound(s);
    OrphansSound(s);
    MigratedStops(proxyOk, WithShell(s), ShellId(s), orphans, ListsOf(s.accounts, orphans), 0, k);
  }

  /**
   A stopped run leaves copies of a line it did not delete exactly when some item passed before the one that failed.
   */
  lemma CopiesAreLeftExactly(proxyOk: ProxyCheck, orphan: Line, list: seq<Account>)
    ensures |Copies(proxyOk, orphan, list)| == Passing(Passes(proxyOk), Items(orphan, list))
    ensures Copies(proxyOk, orphan, list) != multiset{} <==>
            Items(orphan, list) != [] && Normalized(proxyOk, Items(orphan, list)[0]).Good?
  {
    var items := Items(orphan, list);
    FirstSecretsCount(items, Passing(Passes(proxyOk), items));
    assert |Copies(proxyOk, orphan, list)| == 0 <==> Copies(proxyOk, orphan, list) == multiset{};
  }

  // ----- the next start -----

  lemma {:induction false} DropInsert(x: Line, sorted: seq<Line>, id: nat)
    requires Sorted(sorted, LineKey)
    ensures DropLine(Insert(x, sorted, LineKey), id)
         == if x.id == id then DropLine(sorted, id) else Insert(x, DropLine(sorted, id), LineKey)
  {
    if sorted == [] || Leq(LineKey(x), LineKey(sorted[0])) {
      DropLineCons(x, sorted, id);
      FirstNotBelow(x, sorted, id);
    } else {
      var y, rest := sorted[0], sorted[1..];
      var dropped, inserted := DropLine(rest, id), Insert(x, rest, LineKey);
      DropInsert(x, rest, id);
      assert sorted == [y] + rest;
      InsertIntoRest(x, y, rest);
      InsertIntoRest(x, y, dropped);
      DropLineCons(y, inserted, id);
      DropLineCons(y, rest, id);
      if y.id == id {
        assert [] + dropped == dropped && [] + DropLine(inserted, id) == DropLine(inserted, id);
      }
    }
  }

  lemma InsertIntoRest(x: Line, y: Line, rest: seq<Line>)
    requires !Leq(LineKey(x), LineKey(y))
    ensures Insert(x, [y] + rest, LineKey) == [y] + Insert(x, rest, LineKey)
  {
    assert ([y] + rest)[1..] == rest;
  }

  lemma DropLineCons(x: Line, lines: seq<Line>, id: nat)
    ensures DropLine([x] + lines, id) == (if x.id == id then [] else [x]) + DropLine(lines, id)
  {
    assert ([x] + lines)[1..] == lines;
  }

  /** A line that belongs in front of a sorted list belongs in front of any part of it. */
  lemma FirstNotBelow(x: Line, sorted: seq<Line>, id: nat)
    requires Sorted(sorted, LineKey) && (sorted == [] || Leq(LineKey(x), LineKey(sorted[0])))
    ensures Insert(x, DropLine(sorted, id), LineKey) == [x] + DropLine(sorted, id)
  {
    var left := DropLine(sorted, id);
    DropLineMembers(sorted, id);
    if left != [] {
      assert left[0] in sorted;
      var k :| 0 <= k < |sorted| && sorted[k] == left[0];
      assert k > 0 ==> Leq(LineKey(sorted[0]), LineKey(sorted[k]));
    }
  }

  lemma {:induction false} DropSort(lines: seq<Line>, id: nat)
    ensures DropLine(SortBy(lines, LineKey), id) == SortBy(DropLine(lines, id), LineKey)
  {
    if lines != [] {
      DropSort(lines[1..], id);
      SortSorts(lines[1..], LineKey);
      DropInsert(lines[0], SortBy(lines[1..], LineKey), id);
      var rest := DropLine(lines[1..], id);
      assert ([lines[0]] + rest)[1..] == rest && [] + rest == rest;
    }
  }

  lemma DropCustoms(lines: seq<Line>, id: nat)
    ensures DropLine(Customs(lines), id) == Customs(DropLine(lines, id))
  {
    DropSort(OfProvider(lines, "custom"), id);
    DropLineOfProvider(lines, id, "custom");
  }

  lemma {:induction false} DropAllCustoms(lines: seq<Line>, orphans: seq<Line>, from: nat, k: nat)
    requires from <= k <= |orphans|
    ensures DropAll(Customs(lines), orphans, from, k) == Customs(DropAll(lines, orphans, from, k))
    decreases k - from
  {
    if from < k {
      DropCustoms(lines, orphans[from].id);
      DropAllCustoms(DropLine(lines, orphans[from].id), orphans, from + 1, k);
    }
  }

  lemma {:induction false} DropTwo(lines: seq<Line>, a: nat, b: nat)
    ensures DropLine(DropLine(lines, a), b) == DropLine(DropLine(lines, b), a)
  {
    if lines != [] {
      var x, rest := lines[0], lines[1..];
      DropTwo(rest, a, b);
      assert lines == [x] + rest;
      DropLineCons(x, rest, a);
      DropLineCons(x, rest, b);
      DropLineCons(x, DropLine(rest, a), b);
      DropLineCons(x, DropLine(rest, b), a);
      assert [] + DropLine(rest, a) == DropLine(rest, a) && [] + DropLine(rest, b) == DropLine(rest, b);
      assert [] + DropLine(DropLine(rest, a), b) == DropLine(DropLine(rest, a), b);
    }
  }

  lemma {:induction false} DropAfterAll(lines: seq<Line>, orphans: seq<Line>, from: nat, k: nat, id: nat)
    requires from <= k <= |orphans|
    ensures DropLine(DropAll(lines, orphans, from, k), id) == DropAll(DropLine(lines, id), orphans, from, k)
    decreases k - from
  {
    if from < k {
      DropTwo(lines, id, orphans[from].id);
      DropAfterAll(DropLine(lines, orphans[from].id), orphans, from + 1, k, id);
    }
  }

  /** Dropping the first orphans of a list leaves the others. */
  lemma {:induction false} DropAllSuffix(orphans: seq<Line>, from: nat, k: nat)
    requires from <= k <= |orphans|
    requires forall i, j | 0 <= i < j < |orphans| :: orphans[i].id != orphans[j].id
    ensures DropAll(orphans[from..], orphans, from, k) == orphans[k..]
    decreases k - from
  {
    if from < k {
      var rest := orphans[from + 1..];
      assert orphans[from..] == [orphans[from]] + rest;
      DropLineCons(orphans[from], rest, orphans[from].id);
      if orphans[from].id in Ids(rest, LineId) {
        var j := WhereId(rest, LineId, orphans[from].id);
      }
      DropLineMembers(rest, orphans[from].id);
      assert [] + rest == rest;
      DropAllSuffix(orphans, from + 1, k);
    }
  }

  lemma {:induction false} FirstShellKept(lines: seq<Line>, id: nat)
    requires FirstShell(lines).Some? && FirstShell(lines).value.id != id
    ensures FirstShell(DropLine(lines, id)) == FirstShell(lines)
  {
    var x, rest := lines[0], lines[1..];
    assert lines == [x] + rest;
    DropLineCons(x, rest, id);
    if !IsShell(x) {
      FirstShellKept(rest, id);
      assert [] + DropLine(rest, id) == DropLine(rest, id);
      assert ([x] + DropLine(rest, id))[1..] == DropLine(rest, id);
    }
  }

  lemma {:induction false} FirstShellStays(lines: seq<Line>, orphans: seq<Line>, from: nat, k: nat)
    requires from <= k <= |orphans| && FirstShell(lines).Some?
    requires forall j | from <= j < k :: orphans[j].id != FirstShell(lines).value.id
    ensures FirstShell(DropAll(lines, orphans, from, k)) == FirstShell(lines)
    decreases k - from
  {
    if from < k {
      FirstShellKept(lines, orphans[from].id);
      FirstShellStays(DropLine(lines, orphans[from].id), orphans, from + 1, k);
    }
  }

  lemma RewriteInsert(x: Line, sorted: seq<Line>, id: nat, url: string)
    ensures var one := (line: Line) => if line.id == id then SetBase(url)(line) else line;
            Rewritten(Insert(x, sorted, LineKey), id, SetBase(url))
            == Insert(one(x), Rewritten(sorted, id, SetBase(url)), LineKey)
    decreases |sorted|
  {
    var change := SetBase(url);
    RewriteCons(x, sorted, id, change);
    if sorted != [] {
      var y, rest := sorted[0], sorted[1..];
      assert sorted == [y] + rest;
      RewriteCons(y, rest, id, change);
      if !Leq(LineKey(x), LineKey(y)) {
        RewriteInsert(x, rest, id, url);
        RewriteCons(y, Insert(x, rest, LineKey), id, change);
        var z, left := if y.id == id then change(y) else y, Rewritten(rest, id, change);
        assert ([z] + left)[1..] == left;
      }
    }
  }

  lemma RewriteCons(x: Line, lines: seq<Line>, id: nat, change: Line -> Line)
    ensures Rewritten([x] + lines, id, change) == [if x.id == id then change(x) else x] + Rewritten(lines, id, change)
  {
    assert ([x] + lines)[1..] == lines;
  }

  lemma {:induction false} RewriteSort(lines: seq<Line>, id: nat, url: string)
    ensures Rewritten(SortBy(lines, LineKey), id, SetBase(url)) == SortBy(Rewritten(lines, id, SetBase(url)), LineKey)
  {
    if lines != [] {
      var x, rest := lines[0], lines[1..];
      assert lines == [x] + rest;
      RewriteSort(rest, id, url);
      RewriteInsert(x, SortBy(rest, LineKey), id, url);
      RewriteCons(x, rest, id, SetBase(url));
      var z, left := if x.id == id then SetBase(url)(x) else x, Rewritten(rest, id, SetBase(url));
      assert ([z] + left)[1..] == left;
    }
  }

  lemma {:induction false} RewriteOfProvider(lines: seq<Line>, id: nat, url: string, provider: string)
    ensures OfProvider(Rewritten(lines, id, SetBase(url)), provider)
         == Rewritten(OfProvider(lines, provider), id, SetBase(url))
  {
    if lines != [] {
      var x, rest, change := lines[0], lines[1..], SetBase(url);
      RewriteOfProvider(rest, id, url, provider);
      var z, left, some := if x.id == id then change(x) else x, Rewritten(rest, id, change), OfProvider(rest, provider);
      assert lines == [x] + rest && z.provider == x.provider;
      RewriteCons(x, rest, id, change);
      RewriteCons(x, some, id, change);
      assert ([z] + left)[1..] == left;
      assert [] + some == some && [] + OfProvider(left, provider) == OfProvider(left, provider);
    }
  }

  lemma {:induction false} DropRewritten(lines: seq<Line>, id: nat, url: string)
    ensures DropLine(Rewritten(lines, id, SetBase(url)), id) == DropLine(lines, id)
  {
    if lines != [] {
      var x, rest, change := lines[0], lines[1..], SetBase(url);
      DropRewritten(rest, id, url);
      assert lines == [x] + rest;
      RewriteCons(x, rest, id, change);
      DropLineCons(x, rest, id);
      DropLineCons(if x.id == id then change(x) else x, Rewritten(rest, id, change), id);
    }
  }

  /** Clearing a base URL makes no line a shell. */
  lemma ClearedIsNoNewShell(line: Line)
    requires !IsShell(line)
    ensures !IsShell(SetBase("")(line))
  {
    var blank := "";
    assert Strings.Trim(blank) == blank;
    assert !Mentions(blank, "custom.local");
  }

  lemma {:induction false} FirstShellRewritten(lines: seq<Line>)
    requires FirstShell(lines).Some? && IsShell(SetBase("")(FirstShell(lines).value))
    ensures var shell := FirstShell(lines).value;
            FirstShell(Rewritten(lines, shell.id, SetBase(""))) == Some(SetBase("")(shell))
  {
    var shell := FirstShell(lines).value;
    var x, rest, change := lines[0], lines[1..], SetBase("");
    assert lines == [x] + rest;
    RewriteCons(x, rest, shell.id, change);
    var z, left := if x.id == shell.id then change(x) else x, Rewritten(rest, shell.id, change);
    FirstShellCons(x, rest);
    FirstShellCons(z, left);
    if !IsShell(x) {
      ClearedIsNoNewShell(x);
      FirstShellRewritten(rest);
    }
  }

  /** A list with one shell-like line has it as its first. */
  lemma OnlyShell(lines: seq<Line>, shell: Line)
    requires shell in lines && IsShell(shell)
    requires forall line | line in lines :: IsShell(line) ==> line == shell
    ensures FirstShell(lines) == Some(shell)
  {
  }

  /** If the shell is still recognised with its URL cleared, it is the first one the next start finds. */
  lemma ShellIsFound(s: Store)
    requires Sound(s) && IsShell(ShellLine(s))
    ensures FirstShell(Customs(WithShell(s).lines)) == Some(ShellLine(s)) && ShellLine(s).id == ShellId(s)
    ensures !Mentions(ShellLine(s).baseUrl, "custom.local")
    ensures Customs(DropLine(WithShell(s).lines, ShellId(s))) == OrphansOf(s)
  {
    var found := FirstShell(Customs(s.lines));
    DropCustoms(WithShell(s).lines, ShellId(s));
    DropCustoms(s.lines, ShellId(s));
    if found.Some? {
      OldShellIsFound(s, found.value);
    } else {
      NewShellIsFound(s);
    }
  }

  lemma OldShellIsFound(s: Store, shell: Line)
    requires FirstShell(Customs(s.lines)) == Some(shell) && IsShell(ShellLine(s))
    ensures FirstShell(Customs(WithShell(s).lines)) == Some(ShellLine(s)) && ShellLine(s).id == ShellId(s)
    ensures !Mentions(ShellLine(s).baseUrl, "custom.local")
    ensures DropLine(WithShell(s).lines, ShellId(s)) == DropLine(s.lines, ShellId(s))
  {
    if Mentions(shell.baseUrl, "custom.local") {
      RewriteOfProvider(s.lines, shell.id, "", "custom");
      RewriteSort(OfProvider(s.lines, "custom"), shell.id, "");
      FirstShellRewritten(Customs(s.lines));
      DropRewritten(s.lines, shell.id, "");
      NothingMentions();
    }
  }

  lemma NothingMentions()
    ensures !Mentions("", "custom.local")
  {
  }

  lemma NewShellIsFound(s: Store)
    requires Sound(s) && FirstShell(Customs(s.lines)).None? && IsShell(ShellLine(s))
    ensures FirstShell(Customs(WithShell(s).lines)) == Some(ShellLine(s)) && ShellLine(s).id == ShellId(s)
    ensures !Mentions(ShellLine(s).baseUrl, "custom.local")
    ensures DropLine(WithShell(s).lines, ShellId(s)) == DropLine(s.lines, ShellId(s))
  {
    var shell := ShellLine(s);
    var lines, some := WithShell(s).lines, OfProvider(s.lines, "custom");
    OfProviderAppend(s.lines, shell, "custom");
    SortPermutes(some + [shell], LineKey);
    SortPermutes(some, LineKey);
    assert shell in multiset(Customs(lines));
    forall line | line in Customs(lines) ensures IsShell(line) ==> line == shell {
      assert line in multiset(Customs(lines));
      if line != shell {
        assert line in some;
        assert line in multiset(Customs(s.lines));
      }
    }
    OnlyShell(Customs(lines), shell);
    DropLast(s.lines, shell);
    NothingMentions();
  }

  lemma {:induction false} DropLast(lines: seq<Line>, line: Line)
    ensures DropLine(lines + [line], line.id) == DropLine(lines, line.id)
  {
    if lines == [] {
      DropLineCons(line, [], line.id);
      assert lines + [line] == [line] + [];
    } else {
      var x, rest := lines[0], lines[1..];
      assert lines + [line] == [x] + (rest + [line]) && lines == [x] + rest;
      DropLineCons(x, rest + [line], line.id);
      DropLineCons(x, rest, line.id);
      DropLast(rest, line);
    }
  }

  /**
   The next start after a stopped one, if the shell is still recognised: it finds the same shell and
   the orphans from k on, stops at the same orphan, and copies the same items once more.
   */
  lemma NextStartCopiesAgain(proxyOk: ProxyCheck, s: Store) returns (k: nat)
    requires Sound(s) && !Ensured(proxyOk, s).ok && IsShell(ShellLine(s))
    ensures var out, orphans := Ensured(proxyOk, s).store, OrphansOf(s);
            var lists := ListsOf(s.accounts, orphans);
            && FirstStuck(proxyOk, orphans, lists, 0, k)
            && Sound(out) && ShellId(out) == ShellId(s) && OrphansOf(out) == orphans[k..]
            && !Ensured(proxyOk, out).ok
            && CustomSecrets(Ensured(proxyOk, out).store)
               == CustomSecrets(out) + Copies(proxyOk, orphans[k], lists[k])
  {
    k := FailedRunLeavesCopies(proxyOk, s);
    var out, orphans := Ensured(proxyOk, s).store, OrphansOf(s);
    PresetsApart();
    EnsuredSound(proxyOk, s, CODEX);
    OrphansLeft(s, out, k);
    var left := orphans[k..];
    var lists := ListsOf(out.accounts, left);
    assert left[0] == orphans[k] && lists[0] == ListsOf(s.accounts, orphans)[k];
    StopsAt(proxyOk, out, 0);
  }

  lemma OrphansLeft(s: Store, out: Store, k: nat)
    requires Sound(s) && IsShell(ShellLine(s)) && k <= |OrphansOf(s)|
    requires out.lines == DropAll(WithShell(s).lines, OrphansOf(s), 0, k)
    ensures ShellId(out) == ShellId(s) && OrphansOf(out) == OrphansOf(s)[k..]
  {
    var orphans, t, shell := OrphansOf(s), WithShell(s), ShellId(s);
    ShellIsFound(s);
    OrphansSound(s);
    DropAllCustoms(t.lines, orphans, 0, k);
    FirstShellStays(Customs(t.lines), orphans, 0, k);
    DropAfterAll(Customs(t.lines), orphans, 0, k, shell);
    DropCustoms(t.lines, shell);
    assert orphans[0..] == orphans;
    DropAllSuffix(orphans, 0, k);
  }

  /** The whole start-up step meets it again too: its built-in lines exist by then, and no name was normalised. */
  lemma NextStartStopsAgain(proxyOk: ProxyCheck, preset: string -> Line, s: Store)
    requires Sound(s) && !Started(proxyOk, preset, s).ok && IsShell(ShellLine(WithPresets(s, preset)))
    ensures var out := Started(proxyOk, preset, s).store;
            && out == Ensured(proxyOk, WithPresets(s, preset)).store
            && !Started(proxyOk, preset, out).ok && Started(proxyOk, preset, out) == Ensured(proxyOk, out)
  {
    var first := WithPresets(s, preset);
    WithPresetsSound(s, preset);
    PresetsApart();
    EnsuredSound(proxyOk, first, CODEX);
    EnsuredSound(proxyOk, first, CLAUDE_OAUTH);
    PresetsStay(Ensured(proxyOk, first).store, preset);
    var k := NextStartCopiesAgain(proxyOk, first);
  }

  // ----- such stores exist -----

  lemma NonblankIs(s: string)
    requires s != "" && !Strings.IsWhitespace(s[0]) && !Strings.IsWhitespace(s[|s| - 1])
    ensures Nonblank(Some(s)) == Some(s)
  {
    Strings.TrimIdempotent(s);
  }

  lemma SlashesTrimmed(s: string)
    requires s != "" && s[|s| - 1] != '/'
    ensures TrimSlashes(s) == s && TrimSlashes(s + "//") == s
  {
    var once, twice := s + "/", s + "//";
    assert once[..|s|] == s && twice[..|once|] == once;
    assert TrimSlashes(once) == s;
  }

  /** A URL that passes the checks and whose stored form does not. */
  lemma StoredUrlIsRejected(stored: string)
    requires stored == "https:"
    ensures NormalizeUrl(Some(stored + "//")) == Good(Some(stored)) && NormalizeUrl(Some(stored)) == Bad
  {
    var url := stored + "//";
    assert stored[0] == 'h' && stored[|stored| - 1] == ':' && url[|url| - 1] == '/';
    NonblankIs(url);
    NonblankIs(stored);
    SlashesTrimmed(stored);
    assert url == "https://";
    assert |"http://"| > |stored| && |"https://"| > |stored|;
  }

  /** Credentials without a key, which a base URL makes acceptable. */
  function Keyless(url: string): Credentials {
    Credentials(Secret(None, false, None, None, None, None, [], None, None, false, true, 0),
                None, Some(url), None, None)
  }

  lemma KeylessIsItsUrl(proxyOk: ProxyCheck, url: string)
    ensures Normalized(proxyOk, Keyless(url)) == match NormalizeUrl(Some(url))
                                                 case Good(Some(value)) => Good(Keyless(value))
                                                 case _ => Bad
  {
  }

  /** An old custom line with a URL of its own, and nothing that makes it the shell. */
  function OldLine(url: string): Line {
    Line(0, "custom", None, url, "", None, true, 0, [], None, 0)
  }

  function OldStore(url: string): Store {
    Store([OldLine(url)], [], 1, 0)
  }

  lemma {:induction false} TooShortToMention(s: string, part: string)
    requires |s| < |part|
    ensures !Mentions(s, part)
  {
    if s != [] { TooShortToMention(s[1..], part); }
  }

  lemma PlainUrl(url: string)
    requires url == "http://a"
    ensures url != "" && !Strings.IsWhitespace(url[0]) && !Strings.IsWhitespace(url[|url| - 1])
    ensures url[|url| - 1] != '/' && Strings.StartsWith(url, "http://") && |url| < 12
  {
    assert url[0] == 'h' && url[|url| - 1] == 'a';
    assert url == "http://" + "a";
  }

  lemma PlainUrlNormalizes(url: string)
    requires url == "http://a"
    ensures NormalizeUrl(Some(url)) == Good(Some(url))
  {
    PlainUrl(url);
    NonblankIs(url);
    SlashesTrimmed(url);
  }

  lemma PlainUrlIsReal(url: string)
    requires url == "http://a"
    ensures Strings.Trim(url) == url != "" && !Mentions(url, "custom.local")
  {
    PlainUrl(url);
    Strings.TrimIdempotent(url);
    TooShortToMention(url, "custom.local");
  }

  lemma BlankIsNoName(name: string)
    requires name == ""
    ensures Lower(Strings.Trim(name)) != "custom api"
  {
    assert Strings.Trim(name) == "" && Lower(name) == "";
  }

  lemma OldLineIsNoShell(url: string)
    requires url == "http://a"
    ensures Usable(OldLine(url)) && !IsShell(OldLine(url))
  {
    PlainUrlIsReal(url);
    BlankIsNoName(NameOf(OldLine(url)));
  }

  lemma UrlPasses(proxyOk: ProxyCheck, c: Credentials)
    requires !c.secret.oauth && c.proxyUrl.None? && NormalizeUrl(c.baseUrl).Good? && NormalizeUrl(c.baseUrl).value.Some?
    ensures Passes(proxyOk)(c)
  {
  }

  lemma OldLinePasses(proxyOk: ProxyCheck, url: string)
    requires url == "http://a"
    ensures Passes(proxyOk)(OrphanCredentials(OldLine(url)))
  {
    PlainUrlNormalizes(url);
    UrlPasses(proxyOk, OrphanCredentials(OldLine(url)));
  }

  lemma KeylessIsStoredOnce(proxyOk: ProxyCheck, url: string, stored: string)
    requires stored == "https:"
    ensures Normalized(proxyOk, Keyless(stored + "//")) == Good(Keyless(stored))
    ensures !Passes(proxyOk)(Moved(OldLine(url), Keyless(stored)))
  {
    StoredUrlIsRejected(stored);
    KeylessIsItsUrl(proxyOk, stored + "//");
  }

  lemma NewShellIsShell(s: Store)
    ensures IsShell(NewShell().(id := s.issued, createdAt := s.now))
  {
    LowerNames("custom");
  }

  lemma AloneInStore(s: Store, line: Line)
    requires s.lines == [line] && line.provider == "custom" && !IsShell(line) && line.id < s.issued
    ensures OrphansOf(s) == [line] && IsShell(ShellLine(s))
  {
    OneLineCustoms(line);
    OneLineShell(line);
    NewShellIsShell(s);
    DropLineCons(line, [], s.issued);
    assert [line] + [] == [line];
  }

  lemma OneAccount(accounts: seq<Account>, a: Account)
    requires accounts == [a]
    ensures AccountsOf(accounts, a.line) == [a]
  {
    var none: seq<Account> := [];
    assert accounts[1..] == none && [a][1..] == none && SortBy(none, AccountKey) == none;
    assert OfLine(accounts, a.line) == [a];
  }

  lemma StuckItems(proxyOk: ProxyCheck, line: Line, stored: Account)
    requires Usable(line) && Passes(proxyOk)(OrphanCredentials(line))
    requires !Passes(proxyOk)(Moved(line, stored.credentials))
    ensures !Movable(proxyOk, line, [stored])
    ensures Copies(proxyOk, line, [stored]) == multiset{OrphanSecret(line)}
  {
    var items, check := Items(line, [stored]), Passes(proxyOk);
    assert [stored][1..] == [];
    assert MovedAll(line, [stored]) == [Moved(line, stored.credentials)];
    assert items == [OrphanCredentials(line), Moved(line, stored.credentials)];
    assert items[1..] == [Moved(line, stored.credentials)];
    assert Passing(check, items[1..]) == 0;
    assert FirstSecrets(items[1..], 0) == multiset{};
    MovableIsPassing(proxyOk, line, [stored]);
  }

  lemma StuckOrphan(proxyOk: ProxyCheck, s: Store, line: Line, stored: Account)
    requires s.lines == [line] && s.accounts == [stored] && stored.line == line.id < s.issued
    requires line.provider == "custom" && !IsShell(line)
    requires Usable(line) && Passes(proxyOk)(OrphanCredentials(line))
    requires !Passes(proxyOk)(Moved(line, stored.credentials))
    ensures Sound(s) && OrphansOf(s) == [line] && IsShell(ShellLine(s))
    ensures ListsOf(s.accounts, [line]) == [[stored]]
    ensures !Movable(proxyOk, line, [stored]) && Copies(proxyOk, line, [stored]) == multiset{OrphanSecret(line)}
  {
    OneLineSound(s, line);
    AloneInStore(s, line);
    OneAccount(s.accounts, stored);
    StuckItems(proxyOk, line, stored);
  }

  lemma StuckStore(proxyOk: ProxyCheck, s: Store, line: Line, stored: Account)
    requires Sound(s) && OrphansOf(s) == [line] && ListsOf(s.accounts, [line]) == [[stored]]
    requires !Movable(proxyOk, line, [stored]) && Copies(proxyOk, line, [stored]) == multiset{OrphanSecret(line)}
    ensures !Ensured(proxyOk, s).ok
    ensures CustomSecrets(Ensured(proxyOk, s).store) == CustomSecrets(s) + multiset{OrphanSecret(line)}
  {
    StopsAt(proxyOk, s, 0);
  }

  /**
   The smallest such store: one old line at http://a and one account of it, added by
   `create_provider_account` with the base URL https:// and stored with https: instead.
   */
  lemma StuckStoreExists(proxyOk: ProxyCheck, url: string, stored: string) returns (s: Store)
    requires url == "http://a" && stored == "https:"
    ensures Sound(OldStore(url)) && Created(proxyOk, OldStore(url), 0, Keyless(stored + "//")) == Outcome(s, true)
    ensures Sound(s) && OrphansOf(s) == [OldLine(url)] && IsShell(ShellLine(s)) && !Ensured(proxyOk, s).ok
    ensures CustomSecrets(Ensured(proxyOk, s).store) == CustomSecrets(s) + multiset{OrphanSecret(OldLine(url))}
  {
    var line, account := OldLine(url), Account(1, 0, Keyless(stored), 0);
    s := WithAccount(OldStore(url), 0, Keyless(stored));
    assert s.lines == [line] && s.accounts == [] + [account] == [account];
    OldLineIsNoShell(url);
    OldLinePasses(proxyOk, url);
    KeylessIsStoredOnce(proxyOk, url, stored);
    OneLineSound(OldStore(url), line);
    OneLineIds(line);
    AddedAs(proxyOk, OldStore(url), 0, Keyless(stored + "//"), Keyless(stored));
    StuckOrphan(proxyOk, s, line, account);
    StuckStore(proxyOk, s, line, account);
  }

  lemma AddedAs(proxyOk: ProxyCheck, s: Store, line: nat, c: Credentials, stored: Credentials)
    requires HasLine(s.lines, line) && Normalized(proxyOk, c) == Good(stored)
    ensures Created(proxyOk, s, line, c) == Outcome(WithAccount(s, line, stored), true)
  {
  }
}
