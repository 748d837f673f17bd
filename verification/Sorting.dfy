/** A stable sort by a pair of numbers. */
module Sorting {

  datatype Key = Key(major: int, minor: int)

  predicate Leq(a: Key, b: Key) {
    a.major < b.major || (a.major == b.major && a.minor <= b.minor)
  }

  function Insert<T>(x: T, sorted: seq<T>, key: T -> Key): seq<T> {
    if sorted == [] || Leq(key(x), key(sorted[0])) then [x] + sorted
    else [sorted[0]] + Insert(x, sorted[1..], key)
  }

  function SortBy<T>(items: seq<T>, key: T -> Key): seq<T> {
    if items == [] then [] else Insert(items[0], SortBy(items[1..], key), key)
  }

  predicate Sorted<T>(items: seq<T>, key: T -> Key) {
    forall i, j | 0 <= i < j < |items| :: Leq(key(items[i]), key(items[j]))
  }

  lemma {:induction false} InsertPermutes<T>(x: T, sorted: seq<T>, key: T -> Key)
    ensures multiset(Insert(x, sorted, key)) == multiset{x} + multiset(sorted)
  {
    if sorted != [] && !Leq(key(x), key(sorted[0])) {
      InsertPermutes(x, sorted[1..], key);
      assert sorted == [sorted[0]] + sorted[1..];
    }
  }

  lemma {:induction false} SortPermutes<T>(items: seq<T>, key: T -> Key)
    ensures multiset(SortBy(items, key)) == multiset(items)
  {
    if items != [] {
      SortPermutes(items[1..], key);
      InsertPermutes(items[0], SortBy(items[1..], key), key);
      assert items == [items[0]] + items[1..];
    }
  }

  lemma {:induction false} InsertKeepsSorted<T>(x: T, sorted: seq<T>, key: T -> Key)
    requires Sorted(sorted, key)
    ensures Sorted(Insert(x, sorted, key), key)
  {
    if sorted != [] && !Leq(key(x), key(sorted[0])) {
      var rest := Insert(x, sorted[1..], key);
      InsertKeepsSorted(x, sorted[1..], key);
      InsertPermutes(x, sorted[1..], key);
      forall j | 0 <= j < |rest| ensures Leq(key(sorted[0]), key(rest[j])) {
        assert rest[j] in multiset(rest);
        assert rest[j] == x || rest[j] in sorted[1..];
      }
    }
  }

  lemma {:induction false} SortSorts<T>(items: seq<T>, key: T -> Key)
    ensures Sorted(SortBy(items, key), key)
  {
    if items != [] {
      SortSorts(items[1..], key);
      InsertKeepsSorted(items[0], SortBy(items[1..], key), key);
    }
  }

  /** The items with one key, in their order. */
  function WithKey<T>(items: seq<T>, key: T -> Key, k: Key): seq<T> {
    if items == [] then []
    else (if key(items[0]) == k then [items[0]] else []) + WithKey(items[1..], key, k)
  }

  lemma {:induction false} InsertIsStable<T>(x: T, sorted: seq<T>, key: T -> Key, k: Key)
    ensures WithKey(Insert(x, sorted, key), key, k) == WithKey([x] + sorted, key, k)
  {
    assert ([x] + sorted)[1..] == sorted;
    if sorted != [] && !Leq(key(x), key(sorted[0])) {
      InsertIsStable(x, sorted[1..], key, k);
      assert ([x] + sorted[1..])[1..] == sorted[1..];
      var rest := Insert(x, sorted[1..], key);
      assert ([sorted[0]] + rest)[1..] == rest;
    }
  }

  // ----- distinct ids -----

  function Ids<T, I(==)>(items: seq<T>, id: T -> I): set<I> {
    if items == [] then {} else {id(items[0])} + Ids(items[1..], id)
  }

  /** No id occurs twice. */
  predicate Distinct<T, I(==)>(items: seq<T>, id: T -> I) {
    items == [] || (id(items[0]) !in Ids(items[1..], id) && Distinct(items[1..], id))
  }

  lemma {:induction false} IdsContain<T, I>(items: seq<T>, id: T -> I, i: nat)
    requires i < |items|
    ensures id(items[i]) in Ids(items, id)
  {
    if i > 0 { IdsContain(items[1..], id, i - 1); }
  }

  lemma {:induction false} DistinctAt<T, I>(items: seq<T>, id: T -> I, i: nat, j: nat)
    requires Distinct(items, id) && i < j < |items|
    ensures id(items[i]) != id(items[j])
  {
    if i == 0 {
      IdsContain(items[1..], id, j - 1);
    } else {
      DistinctAt(items[1..], id, i - 1, j - 1);
    }
  }

  lemma {:induction false} WhereId<T, I>(items: seq<T>, id: T -> I, s: I) returns (k: nat)
    requires s in Ids(items, id)
    ensures k < |items| && id(items[k]) == s
  {
    if id(items[0]) == s {
      k := 0;
    } else {
      k := WhereId(items[1..], id, s);
      k := k + 1;
    }
  }

  lemma {:induction false} DistinctIfApart<T, I>(items: seq<T>, id: T -> I)
    requires forall i, j | 0 <= i < j < |items| :: id(items[i]) != id(items[j])
    ensures Distinct(items, id)
  {
    if items != [] {
      DistinctIfApart(items[1..], id);
      if id(items[0]) in Ids(items[1..], id) {
        var k := WhereId(items[1..], id, id(items[0]));
      }
    }
  }

  lemma {:induction false} InsertKeepsIds<T, I>(x: T, sorted: seq<T>, key: T -> Key, id: T -> I)
    ensures Ids(Insert(x, sorted, key), id) == {id(x)} + Ids(sorted, id)
    ensures Distinct(sorted, id) && id(x) !in Ids(sorted, id) ==> Distinct(Insert(x, sorted, key), id)
  {
    if sorted == [] || Leq(key(x), key(sorted[0])) {
      assert ([x] + sorted)[1..] == sorted;
    } else {
      InsertKeepsIds(x, sorted[1..], key, id);
      var rest := Insert(x, sorted[1..], key);
      assert ([sorted[0]] + rest)[1..] == rest;
    }
  }

  lemma {:induction false} SortKeepsIds<T, I>(items: seq<T>, key: T -> Key, id: T -> I)
    ensures Ids(SortBy(items, key), id) == Ids(items, id)
    ensures Distinct(items, id) ==> Distinct(SortBy(items, key), id)
  {
    if items != [] {
      SortKeepsIds(items[1..], key, id);
      InsertKeepsIds(items[0], SortBy(items[1..], key), key, id);
    }
  }

  /** Items with equal keys keep their order; with `SortSorts` this determines the result. */
  lemma {:induction false} SortIsStable<T>(items: seq<T>, key: T -> Key, k: Key)
    ensures WithKey(SortBy(items, key), key, k) == WithKey(items, key, k)
  {
    if items != [] {
      var rest := SortBy(items[1..], key);
      SortIsStable(items[1..], key, k);
      InsertIsStable(items[0], rest, key, k);
      assert ([items[0]] + rest)[1..] == rest;
    }
  }
}
