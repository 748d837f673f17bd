/** The canonical printer that feeds the response cache's body hash. */
module CanonicalJson {
  import opened Options
  import opened Json
  import JsonReader

  // ----- what a JSON value means when objects are read as maps -----

  datatype Meaning =
    | MNull
    | MBool(b: bool)
    | MNum(number: Number)
    | MString(s: string)
    | MArray(items: seq<Meaning>)
    | MObject(fields: map<string, Meaning>)

  function MeaningOf(v: Value): Meaning {
    match v
    case Null => MNull
    case Bool(b) => MBool(b)
    case Num(n) => MNum(n)
    case String(s) => MString(s)
    case Array(items) => MArray(ItemMeanings(items))
    case Object(entries) => MObject(FieldMeanings(entries))
  }

  function ItemMeanings(items: seq<Value>): (r: seq<Meaning>)
    ensures |r| == |items|
  {
    if items == [] then [] else [MeaningOf(items[0])] + ItemMeanings(items[1..])
  }

  function FieldMeanings(entries: seq<Entry>): map<string, Meaning> {
    if entries == [] then map[]
    else FieldMeanings(entries[1..])[entries[0].key := MeaningOf(entries[0].value)]
  }

  // ----- key order -----

  /** Rust compares strings by their bytes, which for UTF-8 is by their scalar values. */
  predicate Below(a: string, b: string) {
    b != [] && (a == [] || a[0] < b[0] || (a[0] == b[0] && Below(a[1..], b[1..])))
  }

  lemma {:induction false} BelowTotal(a: string, b: string)
    ensures Below(a, b) || Below(b, a) || a == b
    ensures !(Below(a, b) && Below(b, a))
    ensures !Below(a, a)
  {
    if a != [] { BelowTotal(a[1..], a[1..]); }
    if a != [] && b != [] { BelowTotal(a[1..], b[1..]); }
  }

  lemma {:induction false} BelowTransitive(a: string, b: string, c: string)
    requires Below(a, b) && Below(b, c)
    ensures Below(a, c)
  {
    if a != [] && a[0] == b[0] == c[0] { BelowTransitive(a[1..], b[1..], c[1..]); }
  }

  // ----- sorting the entries of one object -----

  /** Insertion after every entry whose key is not above the new one: a stable sort. */
  function Insert(e: Entry, sorted: seq<Entry>): seq<Entry> {
    if sorted == [] || Below(e.key, sorted[0].key) then [e] + sorted
    else [sorted[0]] + Insert(e, sorted[1..])
  }

  /** `entries.sort_by_key(|(left, _)| *left)`. */
  function SortByKey(entries: seq<Entry>): seq<Entry> {
    if entries == [] then [] else Insert(entries[|entries| - 1], SortByKey(entries[..|entries| - 1]))
  }

  predicate StrictlySorted(entries: seq<Entry>) {
    forall i, j | 0 <= i < j < |entries| :: Below(entries[i].key, entries[j].key)
  }

  lemma {:induction false} InsertContents(e: Entry, sorted: seq<Entry>)
    ensures multiset(Insert(e, sorted)) == multiset(sorted) + multiset{e}
  {
    if sorted != [] && !Below(e.key, sorted[0].key) {
      InsertContents(e, sorted[1..]);
      assert sorted == [sorted[0]] + sorted[1..];
    }
  }

  lemma {:induction false} SortIsPermutation(entries: seq<Entry>)
    ensures multiset(SortByKey(entries)) == multiset(entries)
  {
    if entries != [] {
      var front, last := entries[..|entries| - 1], entries[|entries| - 1];
      SortIsPermutation(front);
      InsertContents(last, SortByKey(front));
      assert entries == front + [last];
    }
  }

  lemma SortContents(entries: seq<Entry>)
    ensures multiset(SortByKey(entries)) == multiset(entries)
    ensures forall e :: e in SortByKey(entries) <==> e in entries
  {
    SortIsPermutation(entries);
    forall e ensures e in SortByKey(entries) <==> e in entries {
      assert e in SortByKey(entries) <==> e in multiset(SortByKey(entries));
      assert e in entries <==> e in multiset(entries);
    }
  }

  lemma {:induction false} InsertSorted(e: Entry, sorted: seq<Entry>)
    requires StrictlySorted(sorted)
    requires forall x | x in sorted :: x.key != e.key
    ensures StrictlySorted(Insert(e, sorted))
  {
    if sorted == [] {
    } else if Below(e.key, sorted[0].key) {
      forall j | 0 <= j < |sorted| ensures Below(e.key, sorted[j].key) {
        if j > 0 { BelowTransitive(e.key, sorted[0].key, sorted[j].key); }
      }
    } else {
      BelowTotal(e.key, sorted[0].key);
      assert sorted[0] in sorted;
      var rest := Insert(e, sorted[1..]);
      InsertSorted(e, sorted[1..]);
      InsertContents(e, sorted[1..]);
      forall j | 0 <= j < |rest| ensures Below(sorted[0].key, rest[j].key) {
        assert rest[j] in multiset(rest);
        assert rest[j] == e || rest[j] in sorted[1..];
      }
    }
  }

  lemma {:induction false} SortSorts(entries: seq<Entry>)
    requires DistinctKeys(entries)
    ensures StrictlySorted(SortByKey(entries))
  {
    if entries != [] {
      var front, last := entries[..|entries| - 1], entries[|entries| - 1];
      SortSorts(front);
      SortContents(front);
      InsertSorted(last, SortByKey(front));
    }
  }

  // ----- canonical form -----

  /** Every object, at every depth, with its entries in key order. */
  function Sorted(v: Value): Value {
    match v
    case Array(items) => Array(SortedItems(items))
    case Object(entries) => Object(SortByKey(SortedValues(entries)))
    case _ => v
  }

  function SortedItems(items: seq<Value>): (r: seq<Value>)
    ensures |r| == |items|
  {
    if items == [] then [] else [Sorted(items[0])] + SortedItems(items[1..])
  }

  function SortedValues(entries: seq<Entry>): (r: seq<Entry>)
    ensures |r| == |entries|
    ensures forall i | 0 <= i < |entries| :: r[i].key == entries[i].key
  {
    if entries == [] then []
    else [Entry(entries[0].key, Sorted(entries[0].value))] + SortedValues(entries[1..])
  }

  /** What `write_canonical_json` appends for a value. */
  function Canonical(v: Value): string {
    Text(Sorted(v))
  }

  lemma {:induction false} SortedItemsAt(items: seq<Value>, i: nat)
    requires i < |items|
    ensures SortedItems(items)[i] == Sorted(items[i])
    ensures ItemMeanings(items)[i] == MeaningOf(items[i])
  {
    if i > 0 { SortedItemsAt(items[1..], i - 1); }
  }

  lemma {:induction false} SortedValuesAt(entries: seq<Entry>, i: nat)
    requires i < |entries|
    ensures SortedValues(entries)[i] == Entry(entries[i].key, Sorted(entries[i].value))
  {
    if i > 0 { SortedValuesAt(entries[1..], i - 1); }
  }

  /** Sorting leaves a valid value valid. */
  lemma {:induction false} SortedValid(v: Value)
    requires Valid(v)
    ensures Valid(Sorted(v))
    decreases v
  {
    match v
    case Array(items) =>
      forall i | 0 <= i < |items| ensures Valid(SortedItems(items)[i]) {
        SortedItemsAt(items, i);
        SortedValid(items[i]);
      }
    case Object(entries) =>
      var values := SortedValues(entries);
      assert DistinctKeys(values);
      forall e | e in values ensures Valid(e.value) {
        var i :| 0 <= i < |values| && values[i] == e;
        SortedValuesAt(entries, i);
        SortedValid(entries[i].value);
      }
      SortContents(values);
      SortSorts(values);
      StrictImpliesDistinct(SortByKey(values));
      assert forall i | 0 <= i < |SortByKey(values)| :: SortByKey(values)[i] in SortByKey(values);
    case _ =>
  }

  lemma StrictImpliesDistinct(entries: seq<Entry>)
    requires StrictlySorted(entries)
    ensures DistinctKeys(entries)
  {
    forall i, j | 0 <= i < j < |entries| ensures entries[i].key != entries[j].key {
      BelowTotal(entries[i].key, entries[j].key);
    }
  }

  // ----- the map an entry list stands for -----

  lemma KeyInTail(entries: seq<Entry>, k: string)
    requires entries != [] && entries[0].key != k
    ensures (exists i :: 0 <= i < |entries| && entries[i].key == k)
       <==> (exists i :: 0 <= i < |entries[1..]| && entries[1..][i].key == k)
  {
    assert forall i :: 0 < i < |entries| ==> entries[1..][i - 1] == entries[i];
  }

  lemma {:induction false} FieldMeaningsAt(entries: seq<Entry>)
    requires DistinctKeys(entries)
    ensures forall k :: k in FieldMeanings(entries) <==> exists i :: 0 <= i < |entries| && entries[i].key == k
    ensures forall i | 0 <= i < |entries| ::
      entries[i].key in FieldMeanings(entries)
      && FieldMeanings(entries)[entries[i].key] == MeaningOf(entries[i].value)
  {
    if entries != [] {
      var rest := entries[1..];
      FieldMeaningsAt(rest);
      forall k ensures k in FieldMeanings(entries) <==> exists i :: 0 <= i < |entries| && entries[i].key == k {
        if k == entries[0].key {
          assert 0 < |entries| && entries[0].key == k;
        } else {
          assert FieldMeanings(entries).Keys == FieldMeanings(rest).Keys + {entries[0].key};
          KeyInTail(entries, k);
        }
      }
      forall i | 0 <= i < |entries|
        ensures entries[i].key in FieldMeanings(entries)
        ensures FieldMeanings(entries)[entries[i].key] == MeaningOf(entries[i].value)
      {
        if i > 0 { assert rest[i - 1] == entries[i]; }
      }
    }
  }

  /** Two entry lists with distinct keys and the same members stand for the same map. */
  lemma SameMembersSameFields(a: seq<Entry>, b: seq<Entry>)
    requires DistinctKeys(a) && DistinctKeys(b)
    requires forall e :: e in a <==> e in b
    ensures FieldMeanings(a) == FieldMeanings(b)
  {
    FieldMeaningsAt(a);
    FieldMeaningsAt(b);
    FieldsIncluded(a, b);
    FieldsIncluded(b, a);
  }

  lemma FieldsIncluded(a: seq<Entry>, b: seq<Entry>)
    requires DistinctKeys(a) && DistinctKeys(b)
    requires forall e :: e in a <==> e in b
    ensures forall k | k in FieldMeanings(a) ::
      k in FieldMeanings(b) && FieldMeanings(b)[k] == FieldMeanings(a)[k]
  {
    FieldMeaningsAt(a);
    FieldMeaningsAt(b);
    forall k | k in FieldMeanings(a)
      ensures k in FieldMeanings(b) && FieldMeanings(b)[k] == FieldMeanings(a)[k]
    {
      var i :| 0 <= i < |a| && a[i].key == k;
      assert a[i] in b;
      var j :| 0 <= j < |b| && b[j] == a[i];
    }
  }

  /** Sorting does not change what a value means. */
  lemma {:induction false} SortedMeaning(v: Value)
    requires Valid(v)
    ensures MeaningOf(Sorted(v)) == MeaningOf(v)
    decreases v
  {
    match v
    case Array(items) =>
      forall i | 0 <= i < |items| ensures ItemMeanings(SortedItems(items))[i] == ItemMeanings(items)[i] {
        SortedItemsAt(items, i);
        SortedItemsAt(SortedItems(items), i);
        SortedMeaning(items[i]);
      }
    case Object(entries) =>
      var values := SortedValues(entries);
      SortContents(values);
      SortSorts(values);
      StrictImpliesDistinct(SortByKey(values));
      SameMembersSameFields(SortByKey(values), values);
      SortedValuesMeaning(v, entries);
    case _ =>
  }

  lemma {:induction false} SortedValuesMeaning(v: Value, entries: seq<Entry>)
    requires forall e | e in entries :: e.value < v && Valid(e.value)
    ensures FieldMeanings(SortedValues(entries)) == FieldMeanings(entries)
    decreases v, 0, |entries|
  {
    if entries != [] {
      assert entries[0] in entries;
      SortedMeaning(entries[0].value);
      SortedValuesMeaning(v, entries[1..]);
    }
  }

  // ----- one canonical form per meaning -----

  /** Strictly sorted lists with the same members are the same list. */
  lemma {:induction false} SortedListsEqual(a: seq<Entry>, b: seq<Entry>)
    requires StrictlySorted(a) && StrictlySorted(b)
    requires forall e :: e in a <==> e in b
    ensures a == b
  {
    assert a != [] ==> a[0] in a;
    assert b != [] ==> b[0] in b;
    if a != [] {
      assert b[0] in a;
      var i :| 0 <= i < |a| && a[i] == b[0];
      var j :| 0 <= j < |b| && b[j] == a[0];
      BelowTotal(a[0].key, b[0].key);
      assert a[0] == b[0];
      forall e ensures e in a[1..] <==> e in b[1..] {
        BelowTotal(a[0].key, a[0].key);
        assert e in a[1..] ==> e in a && e != a[0];
        assert e in b[1..] ==> e in b && e != b[0];
        assert e in a && e != a[0] ==> e in a[1..];
        assert e in b && e != b[0] ==> e in b[1..];
      }
      SortedListsEqual(a[1..], b[1..]);
    }
  }

  /** Values that mean the same have the same canonical form. */
  lemma {:induction false} SortedDetermined(v: Value, w: Value)
    requires Valid(v) && Valid(w)
    requires MeaningOf(v) == MeaningOf(w)
    ensures Sorted(v) == Sorted(w)
    decreases v
  {
    match v
    case Array(items) =>
      forall i | 0 <= i < |items| ensures SortedItems(items)[i] == SortedItems(w.items)[i] {
        SortedItemsAt(items, i);
        SortedItemsAt(w.items, i);
        SortedDetermined(items[i], w.items[i]);
      }
    case Object(entries) =>
      FieldMeaningsAt(entries);
      FieldMeaningsAt(w.entries);
      forall i, j | 0 <= i < |entries| && 0 <= j < |w.entries| && entries[i].key == w.entries[j].key
        ensures Sorted(entries[i].value) == Sorted(w.entries[j].value)
      {
        SortedDetermined(entries[i].value, w.entries[j].value);
      }
      SortedValuesMembers(entries, w.entries);
      var a, b := SortedValues(entries), SortedValues(w.entries);
      SortContents(a);
      SortContents(b);
      SortSorts(a);
      SortSorts(b);
      SortedListsEqual(SortByKey(a), SortByKey(b));
    case _ =>
  }

  /** Entries under the same key have the same canonical value. */
  ghost predicate SortedAlike(a: seq<Entry>, b: seq<Entry>) {
    forall i, j | 0 <= i < |a| && 0 <= j < |b| && a[i].key == b[j].key ::
      Sorted(a[i].value) == Sorted(b[j].value)
  }

  lemma SortedValuesMembers(a: seq<Entry>, b: seq<Entry>)
    requires DistinctKeys(a) && DistinctKeys(b)
    requires FieldMeanings(a) == FieldMeanings(b)
    requires SortedAlike(a, b)
    ensures forall e :: e in SortedValues(a) <==> e in SortedValues(b)
  {
    SortedValuesIncluded(a, b);
    SortedValuesIncluded(b, a);
  }

  lemma SortedValuesIncluded(a: seq<Entry>, b: seq<Entry>)
    requires DistinctKeys(a) && DistinctKeys(b)
    requires FieldMeanings(a) == FieldMeanings(b)
    requires SortedAlike(a, b)
    ensures forall i | 0 <= i < |a| :: SortedValues(a)[i] in SortedValues(b)
  {
    forall i | 0 <= i < |a| ensures SortedValues(a)[i] in SortedValues(b) {
      SortedValueFound(a, i, b);
    }
  }

  lemma SortedValueFound(a: seq<Entry>, i: nat, b: seq<Entry>)
    requires i < |a| && DistinctKeys(a) && DistinctKeys(b)
    requires FieldMeanings(a) == FieldMeanings(b)
    requires SortedAlike(a, b)
    ensures SortedValues(a)[i] in SortedValues(b)
  {
    var j := MatchingEntry(a, i, b);
    SortedValuesAt(a, i);
    SortedValuesAt(b, j);
    assert SortedValues(b)[j] == SortedValues(a)[i];
  }

  lemma MatchingEntry(a: seq<Entry>, i: nat, b: seq<Entry>) returns (j: nat)
    requires i < |a| && DistinctKeys(a) && DistinctKeys(b)
    requires FieldMeanings(a) == FieldMeanings(b)
    ensures j < |b| && b[j].key == a[i].key && a[i] in a && b[j] in b
  {
    FieldMeaningsAt(a);
    FieldMeaningsAt(b);
    j :| 0 <= j < |b| && b[j].key == a[i].key;
  }

  // ----- the canonical text, read back -----

  /** Two strings differ first at k, or the first one ends there. */
  predicate DiffersAt(a: string, b: string, k: nat) {
    k <= |a| && k < |b| && a[..k] == b[..k] && (k == |a| || a[k] < b[k])
  }

  ghost predicate Precedes(a: string, b: string) {
    exists k: nat :: DiffersAt(a, b, k)
  }

  lemma {:induction false} BelowExactly(a: string, b: string)
    ensures Below(a, b) <==> Precedes(a, b)
  {
    if b != [] && (a == [] || a[0] < b[0]) {
      assert DiffersAt(a, b, 0);
    } else if a != [] && b != [] && a[0] == b[0] {
      BelowExactly(a[1..], b[1..]);
      if k: nat :| DiffersAt(a[1..], b[1..], k) {
        assert a[..k + 1] == [a[0]] + a[1..][..k] && b[..k + 1] == [b[0]] + b[1..][..k];
        assert DiffersAt(a, b, k + 1);
      }
      if k: nat :| DiffersAt(a, b, k) {
        assert a[1..][..k - 1] == a[..k][1..] && b[1..][..k - 1] == b[..k][1..];
        assert DiffersAt(a[1..], b[1..], k - 1);
      }
    } else {
      forall k: nat | 0 < k <= |a| && k < |b| ensures !DiffersAt(a, b, k) {
        assert a[..k][0] == a[0] && b[..k][0] == b[0];
      }
    }
  }

  /** Every object, at every depth, lists its keys in ascending order, each once. */
  ghost predicate Ascending(v: Value) {
    match v
    case Array(items) => forall i | 0 <= i < |items| :: Ascending(items[i])
    case Object(entries) =>
      (forall i, j | 0 <= i < j < |entries| :: Precedes(entries[i].key, entries[j].key))
      && forall i | 0 <= i < |entries| :: Ascending(entries[i].value)
    case _ => true
  }

  lemma {:induction false} SortedAscends(v: Value)
    requires Valid(v)
    ensures Ascending(Sorted(v))
    decreases v
  {
    match v
    case Array(items) =>
      forall i | 0 <= i < |items| ensures Ascending(SortedItems(items)[i]) {
        SortedItemsAt(items, i);
        SortedAscends(items[i]);
      }
    case Object(entries) =>
      var values := SortedValues(entries);
      SortContents(values);
      SortSorts(values);
      var sorted := SortByKey(values);
      forall i, j | 0 <= i < j < |sorted| ensures Precedes(sorted[i].key, sorted[j].key) {
        BelowExactly(sorted[i].key, sorted[j].key);
      }
      forall i | 0 <= i < |sorted| ensures Ascending(sorted[i].value) {
        assert sorted[i] in sorted;
        var k :| 0 <= k < |values| && values[k] == sorted[i];
        SortedValuesAt(entries, k);
        SortedAscends(entries[k].value);
      }
    case _ =>
  }

  /**
   The canonical text of a value is JSON: a reader gets a value that means the same, with the keys
   of every object in ascending order.
   */
  lemma CanonicalReadsBack(v: Value)
    requires Valid(v)
    ensures JsonReader.ReadAll(Canonical(v)).Some?
    ensures var read := JsonReader.ReadAll(Canonical(v)).value; MeaningOf(read) == MeaningOf(v) && Ascending(read)
  {
    SortedValid(v);
    JsonReader.TextReadsBack(Sorted(v));
    SortedMeaning(v);
    SortedAscends(v);
  }

  /**
   Canonical text is injective up to object order: two values have the same canonical text
   exactly when they are equal with objects read as maps.
   */
  lemma CanonicalInjective(v: Value, w: Value)
    requires Valid(v) && Valid(w)
    ensures Canonical(v) == Canonical(w) <==> MeaningOf(v) == MeaningOf(w)
  {
    if MeaningOf(v) == MeaningOf(w) {
      SortedDetermined(v, w);
    }
    if Canonical(v) == Canonical(w) {
      SortedValid(v);
      SortedValid(w);
      assert Text(Sorted(v)) + [] == Text(Sorted(w)) + [];
      JsonReader.TextInjective(Sorted(v), [], Sorted(w), []);
      SortedMeaning(v);
      SortedMeaning(w);
    }
  }

  /** With a collision-free hash, equal body hashes mean equal bodies, and conversely. */
  lemma EqualHashesMeanEqualBodies(hash: string -> string, v: Value, w: Value)
    requires Valid(v) && Valid(w)
    requires forall s, t :: hash(s) == hash(t) ==> s == t
    ensures hash(Canonical(v)) == hash(Canonical(w)) <==> MeaningOf(v) == MeaningOf(w)
  {
    CanonicalInjective(v, w);
  }

  // ----- the writer -----

  /** Rust's `&mut String`. */
  class Buffer {
    var text: string

    constructor ()
      ensures text == []
    {
      text := [];
    }

    method Push(s: string)
      modifies this
      ensures text == old(text) + s
    {
      text := text + s;
    }
  }

  /** `write_canonical_json`: appends to the buffer while walking the value. */
  method WriteCanonicalJson(value: Value, out: Buffer)
    modifies out
    ensures out.text == old(out.text) + Canonical(value)
    decreases value, 1
  {
    match value
    case Null => out.Push("null");
    case Bool(b) => out.Push(if b then "true" else "false");
    case Num(n) => out.Push(NumberText(n));
    case String(s) => out.Push(Quote(s));
    case Array(values) =>
      out.Push("[");
      WriteItems(value, out);
      out.Push("]");
      Bracketed(old(out.text), "[", ItemsText(SortedItems(values)), "]");
    case Object(fields) =>
      out.Push("{");
      WriteEntries(value, out);
      out.Push("}");
      Bracketed(old(out.text), "{", EntriesText(SortByKey(SortedValues(fields))), "}");
  }

  lemma Bracketed(before: string, open: string, inner: string, close: string)
    ensures before + open + inner + close == before + (open + inner + close)
  {
  }

  method WriteItems(list: Value, out: Buffer)
    requires list.Array?
    modifies out
    ensures out.text == old(out.text) + ItemsText(SortedItems(list.items))
    decreases list, 0
  {
    var values := list.items;
    ghost var printed := SortedItems(values);
    for idx := 0 to |values|
      invariant out.text == old(out.text) + ItemsText(printed[..idx])
    {
      WriteItem(values[idx], idx, out);
      assert Text(printed[idx]) == Canonical(values[idx]) by { SortedItemsAt(values, idx); }
      ItemsTextNext(printed, idx);
      Appended(old(out.text), ItemsText(printed[..idx]), Separator(idx) + Text(printed[idx]));
    }
    assert printed[..|values|] == printed;
  }

  method WriteItem(value: Value, idx: nat, out: Buffer)
    modifies out
    ensures out.text == old(out.text) + (Separator(idx) + Canonical(value))
    decreases value, 2
  {
    if idx > 0 { out.Push(","); }
    WriteCanonicalJson(value, out);
  }

  method WriteEntries(fields: Value, out: Buffer)
    requires fields.Object?
    modifies out
    ensures out.text == old(out.text) + EntriesText(SortByKey(SortedValues(fields.entries)))
    decreases fields, 0
  {
    var entries := SortByKey(fields.entries);
    ghost var printed := SortedValues(entries);
    SortOfSorted(fields.entries);
    SortContents(fields.entries);
    for idx := 0 to |entries|
      invariant out.text == old(out.text) + EntriesText(printed[..idx])
    {
      assert entries[idx] in fields.entries;
      WriteEntry(entries[idx], idx, out);
      SortedValuesAt(entries, idx);
      EntriesTextNext(printed, idx);
      Appended(old(out.text), EntriesText(printed[..idx]), Separator(idx) + EntryText(printed[idx]));
    }
    assert printed[..|entries|] == printed;
  }

  method WriteEntry(entry: Entry, idx: nat, out: Buffer)
    modifies out
    ensures out.text == old(out.text) + (Separator(idx) + EntryText(Entry(entry.key, Sorted(entry.value))))
    decreases entry.value, 2
  {
    if idx > 0 { out.Push(","); }
    assert out.text == old(out.text) + Separator(idx);
    out.Push(Quote(entry.key));
    out.Push(":");
    WriteCanonicalJson(entry.value, out);
    EntryAppended(old(out.text), Separator(idx), Quote(entry.key), Canonical(entry.value));
  }

  lemma EntryAppended(before: string, separator: string, key: string, value: string)
    ensures before + separator + key + ":" + value == before + (separator + (key + ":" + value))
  {
  }

  function Separator(idx: nat): string {
    if idx == 0 then "" else ","
  }

  lemma Appended(before: string, printed: string, more: string)
    ensures before + printed + more == before + (printed + more)
  {
  }

  /** `canonical_json_hash`, over any hash of a text. */
  method CanonicalJsonHash(hash: string -> string, value: Value) returns (digest: string)
    ensures digest == hash(Canonical(value))
  {
    var canonical := new Buffer();
    WriteCanonicalJson(value, canonical);
    digest := hash(canonical.text);
    assert canonical.text == Canonical(value);
  }

  lemma {:induction false} ItemsTextSnoc(items: seq<Value>, last: Value)
    ensures ItemsText(items + [last]) == ItemsText(items) + (if items == [] then "" else ",") + Text(last)
  {
    if |items| > 1 {
      ItemsTextSnoc(items[1..], last);
      assert (items + [last])[1..] == items[1..] + [last];
    }
  }

  lemma {:induction false} EntriesTextSnoc(entries: seq<Entry>, last: Entry)
    ensures EntriesText(entries + [last])
         == EntriesText(entries) + (if entries == [] then "" else ",") + EntryText(last)
  {
    if |entries| > 1 {
      EntriesTextSnoc(entries[1..], last);
      assert (entries + [last])[1..] == entries[1..] + [last];
    }
  }

  lemma ItemsTextNext(items: seq<Value>, idx: nat)
    requires idx < |items|
    ensures ItemsText(items[..idx + 1])
         == ItemsText(items[..idx]) + (Separator(idx) + Text(items[idx]))
  {
    assert items[..idx + 1] == items[..idx] + [items[idx]];
    ItemsTextSnoc(items[..idx], items[idx]);
  }

  lemma EntriesTextNext(entries: seq<Entry>, idx: nat)
    requires idx < |entries|
    ensures EntriesText(entries[..idx + 1])
         == EntriesText(entries[..idx]) + (Separator(idx) + EntryText(entries[idx]))
  {
    assert entries[..idx + 1] == entries[..idx] + [entries[idx]];
    EntriesTextSnoc(entries[..idx], entries[idx]);
  }

  lemma {:induction false} SortedValuesSnoc(entries: seq<Entry>, last: Entry)
    ensures SortedValues(entries + [last])
         == SortedValues(entries) + [Entry(last.key, Sorted(last.value))]
  {
    if entries != [] {
      SortedValuesSnoc(entries[1..], last);
      assert (entries + [last])[1..] == entries[1..] + [last];
    }
  }

  lemma {:induction false} InsertOfSorted(e: Entry, sorted: seq<Entry>)
    ensures SortedValues(Insert(e, sorted))
         == Insert(Entry(e.key, Sorted(e.value)), SortedValues(sorted))
  {
    if sorted != [] && !Below(e.key, sorted[0].key) {
      InsertOfSorted(e, sorted[1..]);
    }
  }

  /** Sorting the entries first and canonicalising their values later gives the same list. */
  lemma {:induction false} SortOfSorted(entries: seq<Entry>)
    ensures SortByKey(SortedValues(entries)) == SortedValues(SortByKey(entries))
  {
    if entries != [] {
      var front, last := entries[..|entries| - 1], entries[|entries| - 1];
      assert entries == front + [last];
      SortedValuesSnoc(front, last);
      var values := SortedValues(entries);
      assert values[..|values| - 1] == SortedValues(front);
      SortOfSorted(front);
      InsertOfSorted(last, SortByKey(front));
    }
  }
}
