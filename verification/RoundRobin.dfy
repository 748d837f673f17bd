/** Rotation of accounts and combo models by shared counters that wrap like a usize. */
module RoundRobin {
  import opened Options
  import opened Strings

  const USIZE: nat := 0x1_0000_0000_0000_0000

  type Counters = map<string, nat>

  function CounterOf(counters: Counters, key: string): nat {
    if key in counters then counters[key] else 0
  }

  function Bump(c: nat): nat {
    (c + 1) % USIZE
  }

  /** `rotate_left`. */
  function Rotate<T>(items: seq<T>, idx: nat): seq<T>
    requires idx <= |items|
  {
    items[idx..] + items[..idx]
  }

  function Without<T(==)>(items: seq<T>, picked: T): seq<T> {
    if items == [] then []
    else (if items[0] == picked then [] else [items[0]]) + Without(items[1..], picked)
  }

  // ----- one turn -----

  /** A call that takes the next place in the rotation of its key. */
  datatype Turn<T> = Turn(key: string, items: seq<T>)

  /** The counters of accounts and of combos share one map; this is the prefix that keeps them apart. */
  function ConnectionKey(connectionId: string): string {
    "provider-account:" + connectionId
  }

  function Advanced(counters: Counters, key: string): Counters {
    counters[key := Bump(CounterOf(counters, key))]
  }

  /** The order in which a turn serves its items. */
  function Order<T>(counters: Counters, turn: Turn<T>): seq<T>
    requires turn.items != []
  {
    Rotate(turn.items, CounterOf(counters, turn.key) % |turn.items|)
  }

  /** The locked map of the routing service. */
  class RotationState {
    var counters: Counters

    constructor ()
      ensures counters == map[]
    {
      counters := map[];
    }

    /** `order_provider_accounts`. */
    method OrderProviderAccounts<T>(connectionId: string, accounts: seq<T>, roundRobin: bool)
      returns (ordered: seq<T>)
      modifies this
      ensures if roundRobin && |accounts| > 1 then
                && ordered == Order(old(counters), Turn(ConnectionKey(connectionId), accounts))
                && counters == Advanced(old(counters), ConnectionKey(connectionId))
              else ordered == accounts && counters == old(counters)
    {
      ordered := accounts;
      if roundRobin && |accounts| > 1 {
        var key := ConnectionKey(connectionId);
        if key !in counters { counters := counters[key := 0]; }
        var idx := counters[key] % |accounts|;
        counters := counters[key := (counters[key] + 1) % USIZE];
        ordered := Rotate(accounts, idx);
      }
    }

    /** `pick_round_robin`; a combo without models is an error. */
    method PickRoundRobin(comboName: string, models: seq<string>) returns (picked: Option<string>)
      modifies this
      ensures if models == [] then picked == None && counters == old(counters)
              else
                && picked == Some(Order(old(counters), Turn(comboName, models))[0])
                && counters == Advanced(old(counters), comboName)
    {
      if models == [] { return None; }
      if comboName !in counters { counters := counters[comboName := 0]; }
      var idx := counters[comboName] % |models|;
      counters := counters[comboName := (counters[comboName] + 1) % USIZE];
      return Some(models[idx]);
    }

    /** `expand_candidates`, for the combo found under the model's name; a disabled or empty one is an error. */
    method ExpandCandidates(chatFamily: bool, combo: Option<Combo>, model: string)
      returns (candidates: Option<seq<string>>)
      modifies this
      ensures candidates == CandidatesFor(old(counters), chatFamily, combo, model)
      ensures counters == if chatFamily && combo.Some? && Picks(combo.value)
                          then Advanced(old(counters), combo.value.name) else old(counters)
    {
      if !chatFamily || combo.None? { return Some([model]); }
      if !combo.value.enabled { return None; }
      if !combo.value.roundRobin { return Some(combo.value.models); }
      var picked := PickRoundRobin(combo.value.name, combo.value.models);
      if picked.None? { return None; }
      return Some([picked.value] + Without(combo.value.models, picked.value));
    }
  }

  datatype Combo = Combo(name: string, enabled: bool, roundRobin: bool, models: seq<string>)

  /** The combos whose expansion advances a counter. */
  predicate Picks(combo: Combo) {
    combo.enabled && combo.roundRobin && combo.models != []
  }

  function CandidatesFor(counters: Counters, chatFamily: bool, combo: Option<Combo>, model: string)
    : Option<seq<string>>
  {
    if !chatFamily || combo.None? then Some([model])
    else if !combo.value.enabled then None
    else if !combo.value.roundRobin then Some(combo.value.models)
    else if combo.value.models == [] then None
    else Some(PickedFirst(combo.value.models, CounterOf(counters, combo.value.name) % |combo.value.models|))
  }

  /** An expansion holds the combo's models and no others. */
  lemma ExpansionIsCombo(counters: Counters, combo: Combo, model: string)
    requires combo.enabled && combo.models != []
    ensures var candidates := CandidatesFor(counters, true, Some(combo), model);
            candidates.Some? && forall m :: m in candidates.value <==> m in combo.models
  {
    if combo.roundRobin {
      var idx := CounterOf(counters, combo.name) % |combo.models|;
      WithoutMembers(combo.models, combo.models[idx]);
    }
  }

  lemma {:induction false} WithoutMembers(items: seq<string>, picked: string)
    ensures forall m :: m in Without(items, picked) <==> m in items && m != picked
  {
    if items != [] { WithoutMembers(items[1..], picked); }
  }

  function PickedFirst(models: seq<string>, idx: nat): seq<string>
    requires idx < |models|
  {
    [models[idx]] + Without(models, models[idx])
  }

  // ----- orderings are permutations -----

  /** A rotation keeps every element and starts at the chosen one. */
  lemma RotateIsPermutation<T>(items: seq<T>, idx: nat)
    requires idx < |items|
    ensures multiset(Rotate(items, idx)) == multiset(items)
    ensures Rotate(items, idx)[0] == items[idx]
  {
    assert items == items[..idx] + items[idx..];
  }

  lemma RotateAt<T>(items: seq<T>, idx: nat, i: nat)
    requires idx < |items| && i < |items|
    ensures Rotate(items, idx)[i] == items[(idx + i) % |items|]
  {
    if idx + i >= |items| {
      Wraps(idx + i, |items|);
    } else {
      Small(idx + i, |items|);
    }
  }

  lemma Wraps(x: nat, n: nat)
    requires 0 < n <= x < 2 * n
    ensures x % n == x - n
  {
  }

  lemma {:induction false} WithoutCounts(items: seq<string>, picked: string)
    ensures multiset(Without(items, picked)) == multiset(items)[picked := 0]
  {
    if items != [] {
      WithoutCounts(items[1..], picked);
      assert items == [items[0]] + items[1..];
      var head := if items[0] == picked then [] else [items[0]];
      assert Without(items, picked) == head + Without(items[1..], picked);
    }
  }

  /** Putting the picked model first keeps every model exactly when the picked one is listed once. */
  lemma PickedFirstIsPermutation(models: seq<string>, idx: nat)
    requires idx < |models|
    ensures multiset(PickedFirst(models, idx)) == multiset(models) <==> multiset(models)[models[idx]] == 1
  {
    var picked := models[idx];
    WithoutCounts(models, picked);
    assert multiset(PickedFirst(models, idx)) == multiset{picked} + multiset(models)[picked := 0];
    assert multiset(PickedFirst(models, idx))[picked] == 1;
    if multiset(models)[picked] == 1 {
      assert multiset(PickedFirst(models, idx)) == multiset(models);
    }
  }

  // ----- an expansion, said place by place -----

  lemma {:induction false} WithoutAbsent(items: seq<string>, picked: string)
    requires picked !in items
    ensures Without(items, picked) == items
  {
    if items != [] {
      WithoutAbsent(items[1..], picked);
      assert items == [items[0]] + items[1..];
    }
  }

  /** The others keep their order. */
  lemma {:induction false} WithoutOne(items: seq<string>, idx: nat)
    requires idx < |items| && items[idx] !in items[..idx] && items[idx] !in items[idx + 1..]
    ensures Without(items, items[idx]) == items[..idx] + items[idx + 1..]
  {
    if idx == 0 {
      WithoutAbsent(items[1..], items[0]);
    } else {
      assert items[1..][..idx - 1] == items[..idx][1..] && items[1..][idx..] == items[idx + 1..];
      WithoutOne(items[1..], idx - 1);
      assert items[..idx] == [items[0]] + items[1..][..idx - 1];
      assert items[0] in items[..idx];
    }
  }

  lemma OncePlaced(items: seq<string>, idx: nat)
    requires idx < |items| && multiset(items)[items[idx]] == 1
    ensures items[idx] !in items[..idx] && items[idx] !in items[idx + 1..]
  {
    assert items == items[..idx] + [items[idx]] + items[idx + 1..];
  }

  /**
   What a name stands for: itself unless it is a combo asked for by a chat endpoint; nothing for a
   disabled combo or an empty rotating one; a combo's models as listed, or with the one whose turn it
   is moved to the front.
   */
  lemma ExpandsExactly(counters: Counters, chatFamily: bool, combo: Option<Combo>, model: string, name: string,
                       enabled: bool, rotating: bool, models: seq<string>)
    requires combo == Some(Combo(name, enabled, rotating, models))
    ensures CandidatesFor(counters, chatFamily, None, model) == Some([model])
    ensures CandidatesFor(counters, false, combo, model) == Some([model])
    ensures CandidatesFor(counters, true, combo, model) == None <==> !enabled || (rotating && models == [])
    ensures enabled && !rotating ==> CandidatesFor(counters, true, combo, model) == Some(models)
    ensures enabled && rotating && models != [] ==>
      var turn := (if name in counters then counters[name] else 0) % |models|;
      multiset(models)[models[turn]] == 1 ==>
        CandidatesFor(counters, true, combo, model) == Some([models[turn]] + models[..turn] + models[turn + 1..])
  {
    if enabled && rotating && models != [] {
      var turn := (if name in counters then counters[name] else 0) % |models|;
      if multiset(models)[models[turn]] == 1 {
        OncePlaced(models, turn);
        WithoutOne(models, turn);
        Assoc([models[turn]], models[..turn], models[turn + 1..]);
      }
    }
  }

  // ----- runs of turns -----

  ghost predicate Served<T>(turns: seq<Turn<T>>) {
    forall i | 0 <= i < |turns| :: turns[i].items != []
  }

  function OnKey<T>(turns: seq<Turn<T>>, key: string): seq<Turn<T>> {
    if turns == [] then []
    else (if turns[0].key == key then [turns[0]] else []) + OnKey(turns[1..], key)
  }

  /** What the turns on one key put first, in a run where turns on all keys interleave. */
  function Firsts<T>(counters: Counters, turns: seq<Turn<T>>, key: string): seq<T>
    requires Served(turns)
    decreases |turns|
  {
    if turns == [] then []
    else
      (if turns[0].key == key then [Order(counters, turns[0])[0]] else [])
      + Firsts(Advanced(counters, turns[0].key), turns[1..], key)
  }

  /** The place in its list of what the k-th turn on a key puts first, when the counter stood at `start`. */
  function PickIndex(start: nat, n: nat, k: nat): (e: nat)
    requires n > 0
    ensures e < n
  {
    ((start + k) % USIZE) % n
  }

  lemma NextPick(start: nat, n: nat, k: nat)
    requires n > 0 && start < USIZE
    ensures PickIndex(Bump(start), n, k) == PickIndex(start, n, k + 1)
    ensures PickIndex(start, n, 0) == start % n
  {
    ModOfSum(start + 1, k, USIZE);
    assert start + 1 + k == start + (k + 1);
    Small(start, USIZE);
  }

  /** However turns on other keys come in between, the k-th turn on a key is the k-th pick of its counter. */
  lemma {:induction false} FirstsFollowCounter<T>(counters: Counters, turns: seq<Turn<T>>, key: string)
    requires Served(turns) && CounterOf(counters, key) < USIZE
    ensures var mine, firsts := OnKey(turns, key), Firsts(counters, turns, key);
            && |firsts| == |mine| && Served(mine)
            && forall i | 0 <= i < |mine| ::
                 firsts[i] == mine[i].items[PickIndex(CounterOf(counters, key), |mine[i].items|, i)]
    decreases |turns|
  {
    if turns != [] {
      var start, turn, next := CounterOf(counters, key), turns[0], Advanced(counters, turns[0].key);
      FirstsFollowCounter(next, turns[1..], key);
      if turn.key == key {
        NextPick(start, |turn.items|, 0);
        var rest, mine := OnKey(turns[1..], key), OnKey(turns, key);
        forall i | 0 < i < |mine|
          ensures PickIndex(start, |mine[i].items|, i) == PickIndex(Bump(start), |mine[i].items|, i - 1)
        {
          assert mine[i] == rest[i - 1];
          NextPick(start, |mine[i].items|, i - 1);
        }
      }
    }
  }

  /** What k turns over the same items put first. */
  function FirstsFrom<T>(start: nat, items: seq<T>, k: nat): (firsts: seq<T>)
    requires items != []
    ensures |firsts| == k
  {
    seq(k, i requires 0 <= i < k => items[PickIndex(start, |items|, i)])
  }

  lemma FirstsAre<T>(counters: Counters, turns: seq<Turn<T>>, key: string, items: seq<T>)
    requires Served(turns) && CounterOf(counters, key) < USIZE && items != []
    requires forall t | t in OnKey(turns, key) :: t.items == items
    ensures Firsts(counters, turns, key) == FirstsFrom(CounterOf(counters, key), items, |OnKey(turns, key)|)
  {
    FirstsFollowCounter(counters, turns, key);
  }

  // ----- fairness -----

  lemma Distribute(a: nat, b: nat, n: nat)
    ensures (a + b) * n == a * n + b * n
  {
  }

  lemma NonNegative(a: nat, n: nat)
    ensures a * n >= 0
  {
  }

  /** Products keep the order of their first factors, with room for one more multiple. */
  lemma ProductOrder(a: nat, b: nat, n: nat)
    ensures a < b ==> a * n + n <= b * n
    ensures a <= b ==> a * n <= b * n
  {
    if a < b {
      var d := b - a - 1;
      Distribute(a, 1 + d, n);
      Distribute(1, d, n);
      NonNegative(d, n);
    }
  }

  lemma ModUnique(x: nat, q: nat, r: nat, n: nat)
    requires n > 0 && x == q * n + r && r < n
    ensures x % n == r && x / n == q
  {
    var q', r' := x / n, x % n;
    assert x == q' * n + r';
    ProductOrder(q, q', n);
    ProductOrder(q', q, n);
  }

  /** Going down from a multiple plus a remainder by no more than the remainder. */
  lemma ModDown(x: nat, d: nat, n: nat)
    requires n > 0 && d <= x % n
    ensures (x - d) % n == x % n - d
  {
    ModUnique(x - d, x / n, x % n - d, n);
  }

  lemma Regroup(q: nat, c: nat, n: nat)
    ensures q * (c * n) == (q * c) * n
  {
  }

  /** A multiple of n can be reduced away first. */
  lemma ModOfMod(x: nat, m: nat, n: nat)
    requires n > 0 && m > 0 && m % n == 0
    ensures (x % m) % n == x % n
  {
    var q, r, c := x / m, x % m, m / n;
    var s, t := r / n, r % n;
    MultipleOf(m, n);
    Combine(q, c, n, s, t);
    assert x == q * m + r && r == s * n + t;
    ModUnique(x, q * c + s, t, n);
  }

  lemma MultipleOf(m: nat, n: nat)
    requires n > 0 && m % n == 0
    ensures m == (m / n) * n
  {
  }

  lemma Combine(q: nat, c: nat, n: nat, s: nat, t: nat)
    ensures q * (c * n) + (s * n + t) == (q * c + s) * n + t
  {
    Regroup(q, c, n);
    Distribute(q * c, s, n);
  }

  /** Before the wrap the counter's value itself is reduced, after it what is left of it. */
  lemma PickIndexIs(start: nat, n: nat, k: nat)
    requires n > 0 && start + k < 2 * USIZE
    ensures PickIndex(start, n, k) == if start + k < USIZE then (start + k) % n else (start + k - USIZE) % n
  {
    if start + k >= USIZE { Wraps(start + k, USIZE); }
  }

  lemma Small(x: nat, n: nat)
    requires x < n
    ensures x % n == x
  {
  }

  /** Where the window crosses the wrap, two picks agree unless n divides the counter's range. */
  lemma WrappedWindowRepeats(start: nat, n: nat) returns (i: nat, j: nat)
    requires 0 < n <= USIZE && start < USIZE < start + n && USIZE % n != 0
    ensures i < j < n && PickIndex(start, n, i) == PickIndex(start, n, j)
  {
    var m, r := USIZE - start, USIZE % n;
    // The picks before the wrap end at remainder r - 1; those after it start at 0.
    ModDown(USIZE, 1, n);
    if r - 1 <= n - m - 1 {
      i, j := m - 1, m + (r - 1);
    } else {
      var d := r - n + m;
      ModDown(USIZE - 1, d, n);
      i, j := m - 1 - d, n - 1;
    }
    PickIndexIs(start, n, i);
    PickIndexIs(start, n, j);
    Small(j - m, n);
  }

  /** The counter does not wrap on the way, or wraps at a multiple of n. */
  predicate NoJump(start: nat, n: nat, k: nat)
    requires n > 0
  {
    start + k <= USIZE || USIZE % n == 0
  }

  lemma PickWithoutJump(start: nat, n: nat, k: nat, i: nat)
    requires 0 < n && start < USIZE && i < k && NoJump(start, n, k)
    ensures PickIndex(start, n, i) == (start % n + i) % n
  {
    if USIZE % n == 0 {
      ModOfMod(start + i, USIZE, n);
    } else {
      Small(start + i, USIZE);
    }
    ModOfSum(start, i, n);
  }

  lemma ModOfSum(x: nat, y: nat, n: nat)
    requires n > 0
    ensures (x + y) % n == (x % n + y) % n
  {
    var q, r := x / n, x % n;
    var p, t := (r + y) / n, (r + y) % n;
    assert x == q * n + r && r + y == p * n + t;
    Distribute(q, p, n);
    ModUnique(x + y, q + p, t, n);
  }

  /** One window serves the items as one rotation of the list does. */
  lemma WindowIsRotation<T>(start: nat, items: seq<T>, k: nat)
    requires items != [] && k <= |items| && start < USIZE && NoJump(start, |items|, k)
    ensures FirstsFrom(start, items, k) == Rotate(items, start % |items|)[..k]
  {
    forall i | 0 <= i < k ensures FirstsFrom(start, items, k)[i] == Rotate(items, start % |items|)[i] {
      PickWithoutJump(start, |items|, k, i);
      RotateAt(items, start % |items|, i);
    }
  }

  ghost predicate NoRepeats<T(!new)>(items: seq<T>) {
    forall x | x in items :: multiset(items)[x] == 1
  }

  lemma TwoPlaces<T>(items: seq<T>, i: nat, j: nat)
    requires i < j < |items| && items[i] == items[j]
    ensures multiset(items)[items[i]] >= 2
  {
    assert items == items[..j] + [items[j]] + items[j + 1..];
    assert items[i] in items[..j];
  }

  /**
   Any n consecutive turns on a key over the same n items, whatever happens on other keys between
   them, put each item first exactly once if the counter does not wrap on the way or n divides its
   range; and, if no item is listed twice, only then.
   */
  lemma RotationIsFair<T(!new)>(counters: Counters, turns: seq<Turn<T>>, key: string, items: seq<T>)
    requires Served(turns) && 0 < |items| <= USIZE && CounterOf(counters, key) < USIZE
    requires |OnKey(turns, key)| == |items| && forall t | t in OnKey(turns, key) :: t.items == items
    ensures var fair := multiset(Firsts(counters, turns, key)) == multiset(items);
            var noJump := NoJump(CounterOf(counters, key), |items|, |items|);
            && (noJump ==> fair)
            && (NoRepeats(items) ==> (fair <==> noJump))
  {
    var start, n := CounterOf(counters, key), |items|;
    FirstsAre(counters, turns, key, items);
    var firsts := FirstsFrom(start, items, n);
    if NoJump(start, n, n) {
      WindowIsRotation(start, items, n);
      RotateIsPermutation(items, start % n);
      assert Rotate(items, start % n)[..n] == Rotate(items, start % n);
    } else {
      var i, j := WrappedWindowRepeats(start, n);
      TwoPlaces(firsts, i, j);
      assert firsts[i] in items;
    }
  }

  lemma PartOfRotation<T>(items: seq<T>, idx: nat, k: nat, x: T)
    requires idx < |items| && k <= |items|
    ensures multiset(Rotate(items, idx)[..k])[x] <= multiset(items)[x]
  {
    var rotated := Rotate(items, idx);
    RotateIsPermutation(items, idx);
    assert rotated == rotated[..k] + rotated[k..];
  }

  lemma FirstsSplit<T>(start: nat, items: seq<T>, k: nat)
    requires items != [] && start < USIZE && |items| <= k
    ensures var n := |items|;
            FirstsFrom(start, items, k)
            == FirstsFrom(start, items, n) + FirstsFrom((start + n) % USIZE, items, k - n)
  {
    var n := |items|;
    var whole, next := FirstsFrom(start, items, k), FirstsFrom((start + n) % USIZE, items, k - n);
    forall i | n <= i < k ensures whole[i] == next[i - n] {
      ShiftedPick(start, n, i);
    }
  }

  lemma ShiftedPick(start: nat, n: nat, i: nat)
    requires 0 < n <= i
    ensures PickIndex((start + n) % USIZE, n, i - n) == PickIndex(start, n, i)
  {
    ModOfSum(start + n, i - n, USIZE);
  }

  lemma {:induction false} FirstsAreEven<T(!new)>(start: nat, items: seq<T>, k: nat, x: T, y: T)
    requires start < USIZE && NoRepeats(items) && x in items && y in items && NoJump(start, |items|, k)
    ensures multiset(FirstsFrom(start, items, k))[x] <= multiset(FirstsFrom(start, items, k))[y] + 1
    decreases k
  {
    var n := |items|;
    if k <= n {
      WindowIsRotation(start, items, k);
      PartOfRotation(items, start % n, k, x);
    } else {
      if start + k <= USIZE { Small(start + n, USIZE); }
      FirstsAreEven((start + n) % USIZE, items, k - n, x, y);
      WholeWindow(start, items);
      OneWindowMore(start, items, k, x);
      OneWindowMore(start, items, k, y);
    }
  }

  lemma OneWindowMore<T>(start: nat, items: seq<T>, k: nat, x: T)
    requires items != [] && start < USIZE && |items| <= k
    requires multiset(FirstsFrom(start, items, |items|)) == multiset(items)
    ensures multiset(FirstsFrom(start, items, k))[x]
         == multiset(items)[x] + multiset(FirstsFrom((start + |items|) % USIZE, items, k - |items|))[x]
  {
    FirstsSplit(start, items, k);
  }

  lemma WholeWindow<T>(start: nat, items: seq<T>)
    requires items != [] && start < USIZE && NoJump(start, |items|, |items|)
    ensures multiset(FirstsFrom(start, items, |items|)) == multiset(items)
  {
    var rotated := Rotate(items, start % |items|);
    WindowIsRotation(start, items, |items|);
    RotateIsPermutation(items, start % |items|);
    assert rotated[..|items|] == rotated;
  }

  /**
   After any number of turns on a key, two of its items have been first equally often or one of them
   once more, as long as the counter did not wrap or n divides its range.
   */
  lemma NoElementIsFavoured<T(!new)>(counters: Counters, turns: seq<Turn<T>>, key: string, items: seq<T>, x: T, y: T)
    requires Served(turns) && CounterOf(counters, key) < USIZE && NoRepeats(items) && x in items && y in items
    requires forall t | t in OnKey(turns, key) :: t.items == items
    requires NoJump(CounterOf(counters, key), |items|, |OnKey(turns, key)|)
    ensures var firsts := Firsts(counters, turns, key); multiset(firsts)[x] <= multiset(firsts)[y] + 1
  {
    FirstsAre(counters, turns, key, items);
    FirstsAreEven(CounterOf(counters, key), items, |OnKey(turns, key)|, x, y);
  }

  // ----- keys that meet -----

  /** Two connections never share a counter; a combo shares one exactly with the connection its name spells. */
  lemma KeysMeetExactly(connection: string, other: string, combo: string)
    ensures ConnectionKey(connection) == ConnectionKey(other) <==> connection == other
    ensures combo == ConnectionKey(connection) <==>
            |combo| >= 17 && combo[..17] == "provider-account:" && combo[17..] == connection
  {
    var prefix := "provider-account:";
    assert |prefix| == 17;
    assert ConnectionKey(connection)[17..] == connection && ConnectionKey(other)[17..] == other;
    if |combo| >= 17 && combo[..17] == prefix && combo[17..] == connection {
      assert combo == combo[..17] + combo[17..];
    }
  }

  lemma {:induction false} AllOnKey<T>(turns: seq<Turn<T>>, key: string)
    requires forall t | t in turns :: t.key == key
    ensures OnKey(turns, key) == turns
  {
    if turns != [] {
      AllOnKey(turns[1..], key);
    }
  }

  /** The turns of k requests in a row on one key, each picking a model and then ordering the accounts. */
  function Alternating(key: string, accounts: seq<string>, models: seq<string>, k: nat): seq<Turn<string>> {
    seq(2 * k, i requires 0 <= i < 2 * k => Turn(key, if i % 2 == 0 then models else accounts))
  }

  lemma AlternatingIs(key: string, accounts: seq<string>, models: seq<string>, k: nat)
    requires accounts != [] && models != []
    ensures var turns := Alternating(key, accounts, models, k);
            && Served(turns) && OnKey(turns, key) == turns
            && forall i | 0 <= i < k :: turns[2 * i + 1].items == accounts
  {
    AllOnKey(Alternating(key, accounts, models, k), key);
  }

  lemma OddPick(start: nat, i: nat)
    ensures PickIndex(start, 2, 2 * i + 1) == (start + 1) % 2
  {
    ModOfMod(start + (2 * i + 1), USIZE, 2);
    ModUnique(start + (2 * i + 1), (start + 1) / 2 + i, (start + 1) % 2, 2);
  }

  /**
   A combo whose name spells a connection's key takes every other place of its rotation: of two
   accounts, the same one then comes first in every request.
   */
  lemma CollidingComboStarves(counters: Counters, connection: string, accounts: seq<string>, models: seq<string>,
                              k: nat)
    requires |accounts| == 2 && models != [] && CounterOf(counters, ConnectionKey(connection)) < USIZE
    ensures var key := ConnectionKey(connection);
            var turns := Alternating(key, accounts, models, k);
            && Served(turns) && |Firsts(counters, turns, key)| == 2 * k
            && forall i | 0 <= i < k ::
                 Firsts(counters, turns, key)[2 * i + 1] == accounts[(CounterOf(counters, key) + 1) % 2]
  {
    var key := ConnectionKey(connection);
    AlternatingIs(key, accounts, models, k);
    OddTurns(counters, Alternating(key, accounts, models, k), key, accounts, k);
  }

  lemma OddTurns(counters: Counters, turns: seq<Turn<string>>, key: string, accounts: seq<string>, k: nat)
    requires |accounts| == 2 && CounterOf(counters, key) < USIZE
    requires |turns| == 2 * k && Served(turns) && OnKey(turns, key) == turns
    requires forall i | 0 <= i < k :: turns[2 * i + 1].items == accounts
    ensures |Firsts(counters, turns, key)| == 2 * k
    ensures forall i | 0 <= i < k ::
              Firsts(counters, turns, key)[2 * i + 1] == accounts[(CounterOf(counters, key) + 1) % 2]
  {
    FirstsFollowCounter(counters, turns, key);
    forall i | 0 <= i < k
      ensures Firsts(counters, turns, key)[2 * i + 1] == accounts[(CounterOf(counters, key) + 1) % 2]
    {
      assert turns[2 * i + 1].items == accounts;
      OddPick(CounterOf(counters, key), i);
    }
  }
}
