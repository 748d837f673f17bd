/** The identity of a cacheable request and the key it is stored under. */
module CacheIdentity {
  import opened Options
  import opened Strings
  import Json
  import opened CanonicalJson
  import opened LabelledText

  datatype Request = Request(
    endpoint: string,
    upstreamEndpoint: string,
    requestedModel: string,
    resolvedModel: string,
    providerId: string,
    account: Option<string>,
    namespace: string,
    path: string,
    clientStream: bool,
    body: Json.Value)
  {
    function AccountOrEmpty(): string {
      match account
      case Some(id) => id
      case None => ""
    }
  }

  datatype Identity = Identity(cacheKey: string, bodyHash: string)

  function BodyHash(hash: string -> string, r: Request): string {
    hash(Canonical(r.body))
  }

  /** The labels of the lines that name the request, in order. */
  const LABELS: seq<string> := ["endpoint=", "upstream_endpoint=", "requested_model=", "resolved_model=",
                                "provider_id=", "provider_account_id=", "namespace=", "path="]

  /** The text under each of them. */
  function Fields(r: Request): seq<string> {
    [r.endpoint, r.upstreamEndpoint, r.requestedModel, r.resolvedModel,
     r.providerId, r.AccountOrEmpty(), r.namespace, r.path]
  }

  function StreamLine(r: Request): string {
    "client_stream=" + if r.clientStream then "true" else "false"
  }

  /** The lines of the key material. */
  function KeyLines(hash: string -> string, r: Request): seq<string> {
    ["v1"] + Labelled(LABELS, Fields(r)) + [StreamLine(r), "body=" + BodyHash(hash, r)]
  }

  /** `build_identity`. */
  function BuildIdentity(hash: string -> string, r: Request): Identity {
    Identity(hash(Join(KeyLines(hash, r), "\n")), BodyHash(hash, r))
  }

  /** No two texts share a digest, and a digest is one line, as hexadecimal text is. */
  ghost predicate CollisionFree(hash: string -> string) {
    (forall a, b :: hash(a) == hash(b) ==> a == b) && forall a :: OneLine(hash(a))
  }

  /** No field before `path` holds the line feed and label of the line after it; the body is a JSON value. */
  predicate WellFormed(r: Request) {
    Clean(Fields(r), Separators(LABELS)) && Json.Valid(r.body)
  }

  /** Same request: equal fields, no account counting as the empty account, bodies equal as maps. */
  predicate SameRequest(a: Request, b: Request) {
    a.endpoint == b.endpoint && a.upstreamEndpoint == b.upstreamEndpoint
    && a.requestedModel == b.requestedModel && a.resolvedModel == b.resolvedModel
    && a.providerId == b.providerId && a.AccountOrEmpty() == b.AccountOrEmpty()
    && a.namespace == b.namespace && a.path == b.path && a.clientStream == b.clientStream
    && MeaningOf(a.body) == MeaningOf(b.body)
  }

  lemma SameFields(a: Request, b: Request)
    ensures SameRequest(a, b) <==>
            Fields(a) == Fields(b) && a.clientStream == b.clientStream && MeaningOf(a.body) == MeaningOf(b.body)
  {
    var f, g := Fields(a), Fields(b);
    if f == g {
      assert f[0] == g[0] && f[1] == g[1] && f[2] == g[2] && f[3] == g[3];
      assert f[4] == g[4] && f[5] == g[5] && f[6] == g[6] && f[7] == g[7];
    }
  }

  lemma LabelsAreLines()
    ensures forall i | 0 <= i < |LABELS| :: '\n' !in LABELS[i]
  {
    assert '\n' !in LABELS[0] && '\n' !in LABELS[1] && '\n' !in LABELS[2] && '\n' !in LABELS[3];
    assert '\n' !in LABELS[4] && '\n' !in LABELS[5] && '\n' !in LABELS[6] && '\n' !in LABELS[7];
  }

  /** The key material: a fixed start, the woven fields, and two lines that can be read from the end. */
  lemma KeyText(hash: string -> string, r: Request) returns (start: string)
    ensures start == "v1" + "\n" + LABELS[0]
    ensures Join(KeyLines(hash, r), "\n")
         == start + Weave(Fields(r), Separators(LABELS)) + "\n" + StreamLine(r) + "\n" + ("body=" + BodyHash(hash, r))
  {
    start := "v1" + "\n" + LABELS[0];
    var tail := [StreamLine(r), "body=" + BodyHash(hash, r)];
    JoinTwo(tail);
    JoinLabelled(LABELS, Fields(r), tail);
    JoinFirst("v1", Labelled(LABELS, Fields(r)) + tail);
    assert KeyLines(hash, r) == ["v1"] + (Labelled(LABELS, Fields(r)) + tail);
    KeyTextParts("v1", LABELS[0], Weave(Fields(r), Separators(LABELS)), tail[0], tail[1]);
  }

  lemma KeyTextParts(first: string, l: string, woven: string, s: string, b: string)
    ensures first + "\n" + (l + woven + "\n" + (s + "\n" + b)) == first + "\n" + l + woven + "\n" + s + "\n" + b
  {
  }

  lemma StreamLines(a: Request, b: Request)
    ensures OneLine(StreamLine(a))
    ensures StreamLine(a) == StreamLine(b) <==> a.clientStream == b.clientStream
  {
    var yes, no := "client_stream=" + "true", "client_stream=" + "false";
    assert |yes| != |no|;
    assert '\n' !in "client_stream=" && '\n' !in "true" && '\n' !in "false";
  }

  lemma BodyLine(hash: string -> string, r: Request)
    requires CollisionFree(hash)
    ensures OneLine("body=" + BodyHash(hash, r))
  {
    var h := BodyHash(hash, r);
    assert OneLine(h) && '\n' !in "body=";
  }

  /** Equal key material means equal woven fields, stream flag and body digest. */
  lemma MaterialDetermines(hash: string -> string, a: Request, b: Request)
    requires CollisionFree(hash) && Join(KeyLines(hash, a), "\n") == Join(KeyLines(hash, b), "\n")
    ensures Weave(Fields(a), Separators(LABELS)) == Weave(Fields(b), Separators(LABELS))
    ensures a.clientStream == b.clientStream && BodyHash(hash, a) == BodyHash(hash, b)
  {
    var start := KeyText(hash, a);
    var _ := KeyText(hash, b);
    var wa, wb := start + Weave(Fields(a), Separators(LABELS)), start + Weave(Fields(b), Separators(LABELS));
    BodyLine(hash, a);
    BodyLine(hash, b);
    StreamLines(a, b);
    StreamLines(b, a);
    LastLine(wa + "\n" + StreamLine(a), "body=" + BodyHash(hash, a),
             wb + "\n" + StreamLine(b), "body=" + BodyHash(hash, b));
    LastLine(wa, StreamLine(a), wb, StreamLine(b));
    PrefixCancels(start, Weave(Fields(a), Separators(LABELS)), Weave(Fields(b), Separators(LABELS)));
    PrefixCancels("body=", BodyHash(hash, a), BodyHash(hash, b));
  }

  lemma MaterialIsDetermined(hash: string -> string, a: Request, b: Request)
    requires Weave(Fields(a), Separators(LABELS)) == Weave(Fields(b), Separators(LABELS))
    requires a.clientStream == b.clientStream && BodyHash(hash, a) == BodyHash(hash, b)
    ensures BuildIdentity(hash, a) == BuildIdentity(hash, b)
  {
    var _ := KeyText(hash, a);
    var _ := KeyText(hash, b);
  }

  /** Two requests that keep their labels apart have the same cache key exactly when they are the same request. */
  lemma KeyIdentifiesRequest(hash: string -> string, a: Request, b: Request)
    requires CollisionFree(hash)
    requires WellFormed(a) && WellFormed(b)
    ensures BuildIdentity(hash, a).cacheKey == BuildIdentity(hash, b).cacheKey <==> SameRequest(a, b)
    ensures SameRequest(a, b) ==> BuildIdentity(hash, a) == BuildIdentity(hash, b)
  {
    CanonicalInjective(a.body, b.body);
    SameFields(a, b);
    if BuildIdentity(hash, a).cacheKey == BuildIdentity(hash, b).cacheKey {
      MaterialDetermines(hash, a, b);
      LabelsAreLines();
      SeparatorsSeparate(LABELS);
      WeaveInjective(Fields(a), Fields(b), Separators(LABELS));
    }
    if SameRequest(a, b) {
      MaterialIsDetermined(hash, a, b);
    }
  }

  lemma {:induction false} LabelledAt(l: seq<string>, f: seq<string>)
    requires |l| == |f|
    ensures |Labelled(l, f)| == |l| && forall i | 0 <= i < |l| :: Labelled(l, f)[i] == l[i] + f[i]
  {
    if l != [] { LabelledAt(l[1..], f[1..]); }
  }

  lemma LabelsAre()
    ensures |LABELS| == 8
    ensures LABELS[0] == "endpoint=" && LABELS[1] == "upstream_endpoint=" && LABELS[2] == "requested_model="
    ensures LABELS[3] == "resolved_model=" && LABELS[4] == "provider_id=" && LABELS[5] == "provider_account_id="
    ensures LABELS[6] == "namespace=" && LABELS[7] == "path="
  {
  }

  /** The key is the digest of eleven lines: a version, the fields by name, the stream flag and the body's digest. */
  lemma KeyIsDigestOf(hash: string -> string, r: Request) returns (lines: seq<string>)
    ensures BuildIdentity(hash, r).bodyHash == hash(Canonical(r.body))
    ensures BuildIdentity(hash, r).cacheKey == hash(Join(lines, "\n"))
    ensures lines == [
      "v1", "endpoint=" + r.endpoint, "upstream_endpoint=" + r.upstreamEndpoint,
      "requested_model=" + r.requestedModel, "resolved_model=" + r.resolvedModel, "provider_id=" + r.providerId,
      "provider_account_id=" + (if r.account.Some? then r.account.value else ""), "namespace=" + r.namespace,
      "path=" + r.path, "client_stream=" + (if r.clientStream then "true" else "false"),
      "body=" + hash(Canonical(r.body))]
  {
    lines := KeyLines(hash, r);
    var named := Labelled(LABELS, Fields(r));
    LabelledAt(LABELS, Fields(r));
    LabelsAre();
    assert |lines| == 11;
    assert lines[0] == "v1" && forall i | 0 <= i < 8 :: lines[i + 1] == named[i];
    assert lines[9] == StreamLine(r) && lines[10] == "body=" + BodyHash(hash, r);
  }

  // ----- requests whose fields hold a label -----

  function WithFields(r: Request, f: seq<string>): Request
    requires |f| == 8
  {
    Request(f[0], f[1], f[2], f[3], f[4], Some(f[5]), f[6], f[7], r.clientStream, r.body)
  }

  /** The request a reader of the key material would see: each field ends at the next line's label. */
  function AsRead(r: Request): Request {
    WithFields(r, Tidy(Fields(r), Separators(LABELS)))
  }

  lemma AsReadFields(r: Request)
    ensures Fields(AsRead(r)) == Tidy(Fields(r), Separators(LABELS))
    ensures Clean(Fields(AsRead(r)), Separators(LABELS))
    ensures Weave(Fields(AsRead(r)), Separators(LABELS)) == Weave(Fields(r), Separators(LABELS))
    ensures Fields(AsRead(r)) == Fields(r) <==> Clean(Fields(r), Separators(LABELS))
  {
    var tidy := Tidy(Fields(r), Separators(LABELS));
    LabelsAreLines();
    SeparatorsSeparate(LABELS);
    TidyIsClean(Fields(r), Separators(LABELS));
    FieldsAreThose(r, tidy);
  }

  lemma FieldsAreThose(r: Request, f: seq<string>)
    requires |f| == 8
    ensures Fields(WithFields(r, f)) == f
  {
  }

  /** For all requests: keys are equal exactly when both read as the same request. */
  lemma KeysEqualExactly(hash: string -> string, a: Request, b: Request)
    requires CollisionFree(hash) && Json.Valid(a.body) && Json.Valid(b.body)
    ensures BuildIdentity(hash, a).cacheKey == BuildIdentity(hash, b).cacheKey <==> SameRequest(AsRead(a), AsRead(b))
    ensures SameRequest(AsRead(a), AsRead(b)) ==> BuildIdentity(hash, a) == BuildIdentity(hash, b)
  {
    AsReadFields(a);
    AsReadFields(b);
    MaterialIsDetermined(hash, a, AsRead(a));
    MaterialIsDetermined(hash, b, AsRead(b));
    KeyIdentifiesRequest(hash, AsRead(a), AsRead(b));
  }

  /** A request whose fields hold no label reads as itself. */
  lemma CleanReadsAsItself(r: Request)
    requires Clean(Fields(r), Separators(LABELS))
    ensures SameRequest(AsRead(r), r)
  {
    AsReadFields(r);
    SameFields(AsRead(r), r);
  }

  /**
   Every request with a field that holds the line feed and label of the line after it shares its key,
   whatever the hash, with a different request: the one its key reads as, which has no such field.
   */
  lemma LineFeedsMergeRequests(hash: string -> string, r: Request)
    requires !Clean(Fields(r), Separators(LABELS))
    ensures var other := AsRead(r);
            && !SameRequest(r, other) && Clean(Fields(other), Separators(LABELS))
            && BuildIdentity(hash, r) == BuildIdentity(hash, other)
  {
    AsReadFields(r);
    SameFields(r, AsRead(r));
    MaterialIsDetermined(hash, r, AsRead(r));
  }
}

/** The table of stored responses. */
module ResponseCache {
  import opened Options
  import Json
  import opened CacheIdentity

  type Time = int

  datatype Stored = Stored(body: string, headers: seq<(string, string)>, status: int, isStream: bool)

  datatype Row = Row(
    namespace: string,
    bodyHash: string,
    response: Stored,
    expiresAt: Time,
    hitCount: nat)

  type Rows = map<string, Row>

  // ----- one statement each -----

  /** The row a SELECT by key, namespace and body hash finds while it is unexpired. */
  function FindRow(rows: Rows, id: Identity, namespace: string, now: Time): Option<Row> {
    if id.cacheKey in rows && rows[id.cacheKey].namespace == namespace
       && rows[id.cacheKey].bodyHash == id.bodyHash && rows[id.cacheKey].expiresAt > now
    then Some(rows[id.cacheKey])
    else None
  }

  /** A hit is counted on the row. */
  function CountHit(rows: Rows, id: Identity, namespace: string, now: Time): Rows {
    match FindRow(rows, id, namespace, now)
    case Some(row) => rows[id.cacheKey := row.(hitCount := row.hitCount + 1)]
    case None => rows
  }

  /** INSERT, or on a key conflict overwrite everything but the hit count. */
  function UpsertRow(rows: Rows, id: Identity, namespace: string, response: Stored, expiresAt: Time): Rows {
    var hits := if id.cacheKey in rows then rows[id.cacheKey].hitCount else 0;
    rows[id.cacheKey := Row(namespace, id.bodyHash, response, expiresAt, hits)]
  }

  function Unexpired(rows: Rows, now: Time): Rows {
    map k | k in rows && rows[k].expiresAt > now :: rows[k]
  }

  /** `llm_response_cache` and the three repository methods on it. */
  class Table {
    var rows: Rows

    constructor ()
      ensures rows == map[]
    {
      rows := map[];
    }

    /** `find_response_cache_entry`: the row as it was read, before its hit is counted. */
    method Find(id: Identity, namespace: string, now: Time) returns (row: Option<Row>)
      modifies this
      ensures row == old(FindRow(rows, id, namespace, now))
      ensures rows == old(CountHit(rows, id, namespace, now))
    {
      row := FindRow(rows, id, namespace, now);
      if row == None { return; }
      var hit := rows[id.cacheKey];
      rows := rows[id.cacheKey := hit.(hitCount := hit.hitCount + 1)];
    }

    /** `upsert_response_cache_entry`. */
    method Upsert(id: Identity, namespace: string, response: Stored, expiresAt: Time)
      modifies this
      ensures rows == old(UpsertRow(rows, id, namespace, response, expiresAt))
    {
      if id.cacheKey in rows {
        var row := rows[id.cacheKey];
        rows := rows[id.cacheKey := row.(namespace := namespace, bodyHash := id.bodyHash,
                                         response := response, expiresAt := expiresAt)];
      } else {
        rows := rows[id.cacheKey := Row(namespace, id.bodyHash, response, expiresAt, 0)];
      }
    }

    /** `purge_expired_response_cache_entries`: how many rows were deleted. */
    method Purge(now: Time) returns (affected: nat)
      modifies this
      ensures rows == old(Unexpired(rows, now))
      ensures affected == old(|rows|) - |rows|
    {
      var kept := Unexpired(rows, now);
      KeptIsSmaller(rows, now);
      affected := |rows| - |kept|;
      rows := kept;
    }
  }

  lemma KeptIsSmaller(rows: Rows, now: Time)
    ensures |Unexpired(rows, now)| <= |rows|
  {
    assert Unexpired(rows, now).Keys <= rows.Keys;
    SubsetIsSmaller(Unexpired(rows, now).Keys, rows.Keys);
    assert |Unexpired(rows, now).Keys| == |Unexpired(rows, now)| && |rows.Keys| == |rows|;
  }

  lemma {:induction false} SubsetIsSmaller(a: set<string>, b: set<string>)
    requires a <= b
    ensures |a| <= |b|
  {
    if a != {} {
      var x :| x in a;
      SubsetIsSmaller(a - {x}, b - {x});
    }
  }

  // ----- every run of the table -----

  datatype Op =
    | Store(request: Request, response: Stored, expiresAt: Time)
    | Read(request: Request, at: Time)
    | PurgeExpired(at: Time)

  function Apply(hash: string -> string, rows: Rows, op: Op): Rows {
    match op
    case Store(r, response, expiresAt) =>
      UpsertRow(rows, BuildIdentity(hash, r), r.namespace, response, expiresAt)
    case Read(r, at) => CountHit(rows, BuildIdentity(hash, r), r.namespace, at)
    case PurgeExpired(at) => Unexpired(rows, at)
  }

  /** The rows after a history of operations on an empty table. */
  function Run(hash: string -> string, ops: seq<Op>): Rows {
    if ops == [] then map[] else Apply(hash, Run(hash, ops[..|ops| - 1]), ops[|ops| - 1])
  }

  /** What `route` gets back for a request. */
  function Lookup(hash: string -> string, rows: Rows, r: Request, now: Time): Option<Stored> {
    match FindRow(rows, BuildIdentity(hash, r), r.namespace, now)
    case Some(row) => Some(row.response)
    case None => None
  }

  /** How often the row under a key has answered since it was inserted. */
  function Answers(hash: string -> string, ops: seq<Op>, key: string): nat {
    if ops == [] || key !in Run(hash, ops) then 0
    else
      var before, op := ops[..|ops| - 1], ops[|ops| - 1];
      var found := op.Read? && BuildIdentity(hash, op.request).cacheKey == key
                   && Lookup(hash, Run(hash, before), op.request, op.at).Some?;
      Answers(hash, before, key) + if found then 1 else 0
  }

  /** A row's hit count is how often it has answered since it was inserted, through every overwrite. */
  lemma {:induction false} HitsAreAnswers(hash: string -> string, ops: seq<Op>, key: string)
    ensures key in Run(hash, ops) ==> Run(hash, ops)[key].hitCount == Answers(hash, ops, key)
  {
    if ops != [] { HitsAreAnswers(hash, ops[..|ops| - 1], key); }
  }

  /** A response as it was stored. */
  datatype Entry = Entry(namespace: string, response: Stored, expiresAt: Time)

  /** The plain map the table stands for: the last response stored under such a request. */
  function Latest(ops: seq<Op>, same: Request -> bool): Option<Entry> {
    if ops == [] then None
    else
      var op := ops[|ops| - 1];
      if op.Store? && same(op.request) then Some(Entry(op.request.namespace, op.response, op.expiresAt))
      else Latest(ops[..|ops| - 1], same)
  }

  /** The requests whose keys read as the key of `r` does. */
  function ReadsLike(r: Request): Request -> bool {
    s => SameRequest(AsRead(s), AsRead(r))
  }

  function IsSame(r: Request): Request -> bool {
    s => SameRequest(s, r)
  }

  /** The bodies of a history are JSON values. */
  predicate ValidOps(ops: seq<Op>) {
    forall op | op in ops && !op.PurgeExpired? :: Json.Valid(op.request.body)
  }

  predicate WellFormedOps(ops: seq<Op>) {
    forall op | op in ops && !op.PurgeExpired? :: WellFormed(op.request)
  }

  /** A monotone clock: nothing was purged at a time after `now`. */
  predicate PurgedBefore(ops: seq<Op>, now: Time) {
    forall op | op in ops && op.PurgeExpired? :: op.at <= now
  }

  /** The row under a key agrees with the plain map, except that an expired one may be gone. */
  predicate RowAgrees(rows: Rows, id: Identity, latest: Option<Entry>, now: Time) {
    match latest
    case None => id.cacheKey !in rows
    case Some(Entry(namespace, response, expiresAt)) =>
      if id.cacheKey in rows then
        var row := rows[id.cacheKey];
        row.namespace == namespace && row.bodyHash == id.bodyHash
        && row.response == response && row.expiresAt == expiresAt
      else expiresAt <= now
  }

  lemma StoreAgrees(rows: Rows, id: Identity, latest: Option<Entry>, now: Time, stored: Identity, e: Entry)
    requires RowAgrees(rows, id, latest, now)
    ensures var t := UpsertRow(rows, stored, e.namespace, e.response, e.expiresAt);
            && (stored.cacheKey != id.cacheKey ==> RowAgrees(t, id, latest, now))
            && (stored == id ==> RowAgrees(t, id, Some(e), now))
  {
  }

  lemma ReadAgrees(rows: Rows, id: Identity, latest: Option<Entry>, now: Time, read: Identity, from: string, at: Time)
    requires RowAgrees(rows, id, latest, now)
    ensures RowAgrees(CountHit(rows, read, from, at), id, latest, now)
  {
  }

  lemma PurgeAgrees(rows: Rows, id: Identity, latest: Option<Entry>, now: Time, at: Time)
    requires RowAgrees(rows, id, latest, now) && at <= now
    ensures RowAgrees(Unexpired(rows, at), id, latest, now)
  {
  }

  predicate PickedRight(hash: string -> string, s: Request, id: Identity, same: Request -> bool) {
    if same(s) then BuildIdentity(hash, s) == id else BuildIdentity(hash, s).cacheKey != id.cacheKey
  }

  /** `same` picks the requests of a history that are stored under an identity. */
  ghost predicate Picks(hash: string -> string, ops: seq<Op>, id: Identity, same: Request -> bool) {
    forall op | op in ops && op.Store? :: PickedRight(hash, op.request, id, same)
  }

  lemma {:induction false} RowIsLatest(hash: string -> string, ops: seq<Op>, id: Identity, same: Request -> bool,
                                       now: Time)
    requires Picks(hash, ops, id, same) && PurgedBefore(ops, now)
    ensures RowAgrees(Run(hash, ops), id, Latest(ops, same), now)
  {
    if ops != [] {
      var before, op := ops[..|ops| - 1], ops[|ops| - 1];
      assert op in ops;
      assert forall o | o in before :: o in ops;
      RowIsLatest(hash, before, id, same, now);
      var rows, latest := Run(hash, before), Latest(before, same);
      match op
      case Store(s, response, expiresAt) =>
        StoreAgrees(rows, id, latest, now, BuildIdentity(hash, s), Entry(s.namespace, response, expiresAt));
      case Read(s, at) =>
        ReadAgrees(rows, id, latest, now, BuildIdentity(hash, s), s.namespace, at);
      case PurgeExpired(at) =>
        PurgeAgrees(rows, id, latest, now, at);
    }
  }

  lemma ReadersArePicked(hash: string -> string, ops: seq<Op>, r: Request)
    requires CollisionFree(hash) && Json.Valid(r.body) && ValidOps(ops)
    ensures Picks(hash, ops, BuildIdentity(hash, r), ReadsLike(r))
  {
    var id, same := BuildIdentity(hash, r), ReadsLike(r);
    forall op | op in ops && op.Store? ensures PickedRight(hash, op.request, id, same) {
      ReaderIsPicked(hash, op.request, r);
    }
  }

  lemma ReaderIsPicked(hash: string -> string, s: Request, r: Request)
    requires CollisionFree(hash) && Json.Valid(r.body) && Json.Valid(s.body)
    ensures PickedRight(hash, s, BuildIdentity(hash, r), ReadsLike(r))
  {
    KeysEqualExactly(hash, s, r);
  }

  /**
   The table refines a map, for all requests: after any history a lookup gives exactly the latest
   response stored under a request that reads as this one, if that was stored in this namespace and is
   unexpired, and nothing otherwise.
   */
  lemma LookupIsLatest(hash: string -> string, ops: seq<Op>, r: Request, now: Time)
    requires CollisionFree(hash) && Json.Valid(r.body) && ValidOps(ops) && PurgedBefore(ops, now)
    ensures Lookup(hash, Run(hash, ops), r, now)
         == match Latest(ops, ReadsLike(r))
            case Some(Entry(namespace, response, expiresAt)) =>
              if namespace == r.namespace && expiresAt > now then Some(response) else None
            case None => None
  {
    ReadersArePicked(hash, ops, r);
    RowIsLatest(hash, ops, BuildIdentity(hash, r), ReadsLike(r), now);
  }

  predicate Alike(s: Request, same: Request -> bool, alike: Request -> bool, namespace: string) {
    same(s) == alike(s) && (same(s) ==> s.namespace == namespace)
  }

  lemma {:induction false} LatestAlike(ops: seq<Op>, same: Request -> bool, alike: Request -> bool, namespace: string)
    requires forall op | op in ops && op.Store? :: Alike(op.request, same, alike, namespace)
    ensures Latest(ops, same) == Latest(ops, alike)
    ensures Latest(ops, same).Some? ==> Latest(ops, same).value.namespace == namespace
  {
    if ops != [] {
      assert ops[|ops| - 1] in ops;
      assert forall o | o in ops[..|ops| - 1] :: o in ops;
      LatestAlike(ops[..|ops| - 1], same, alike, namespace);
    }
  }

  lemma SameReadsLike(r: Request, s: Request)
    requires WellFormed(r) && WellFormed(s)
    ensures Alike(s, IsSame(r), ReadsLike(r), r.namespace)
  {
    CleanReadsAsItself(r);
    CleanReadsAsItself(s);
  }

  lemma SameLatest(ops: seq<Op>, r: Request)
    requires WellFormed(r) && WellFormedOps(ops)
    ensures Latest(ops, IsSame(r)) == Latest(ops, ReadsLike(r))
    ensures Latest(ops, IsSame(r)).Some? ==> Latest(ops, IsSame(r)).value.namespace == r.namespace
  {
    var same, alike := IsSame(r), ReadsLike(r);
    forall op | op in ops && op.Store? ensures Alike(op.request, same, alike, r.namespace) {
      SameReadsLike(r, op.request);
    }
    LatestAlike(ops, same, alike, r.namespace);
  }

  /** Where no request holds a label, that is the latest response stored under the same request. */
  lemma CleanLookupIsLatest(hash: string -> string, ops: seq<Op>, r: Request, now: Time)
    requires CollisionFree(hash) && WellFormed(r) && WellFormedOps(ops) && PurgedBefore(ops, now)
    ensures Lookup(hash, Run(hash, ops), r, now)
         == match Latest(ops, IsSame(r))
            case Some(Entry(_, response, expiresAt)) => if expiresAt > now then Some(response) else None
            case None => None
  {
    LookupIsLatest(hash, ops, r, now);
    SameLatest(ops, r);
  }

  // ----- purges -----

  function WithoutPurges(ops: seq<Op>): seq<Op> {
    if ops == [] then []
    else
      var rest := WithoutPurges(ops[..|ops| - 1]);
      if ops[|ops| - 1].PurgeExpired? then rest else rest + [ops[|ops| - 1]]
  }

  /** Under each key the same row, hit count aside, except that an expired one may be gone from the first table. */
  ghost predicate Purged(rows: Rows, unpurged: Rows, now: Time) {
    && (forall k | k in rows :: k in unpurged && rows[k] == unpurged[k].(hitCount := rows[k].hitCount))
    && (forall k | k in unpurged && k !in rows :: unpurged[k].expiresAt <= now)
  }

  lemma ApplyPurged(hash: string -> string, rows: Rows, unpurged: Rows, op: Op, now: Time)
    requires Purged(rows, unpurged, now) && (op.PurgeExpired? ==> op.at <= now)
    ensures Purged(Apply(hash, rows, op), if op.PurgeExpired? then unpurged else Apply(hash, unpurged, op), now)
  {
  }

  lemma {:induction false} RunPurged(hash: string -> string, ops: seq<Op>, now: Time)
    requires PurgedBefore(ops, now)
    ensures Purged(Run(hash, ops), Run(hash, WithoutPurges(ops)), now)
  {
    if ops != [] {
      var before, op := ops[..|ops| - 1], ops[|ops| - 1];
      assert op in ops;
      assert forall o | o in before :: o in ops;
      RunPurged(hash, before, now);
      var rest := WithoutPurges(before);
      ApplyPurged(hash, Run(hash, before), Run(hash, rest), op, now);
      assert (rest + [op])[..|rest|] == rest;
    }
  }

  /** Purging expired rows, at any times up to now, changes no later lookup, whatever the requests and the hash. */
  lemma PurgesAreInvisible(hash: string -> string, ops: seq<Op>, r: Request, now: Time)
    requires PurgedBefore(ops, now)
    ensures Lookup(hash, Run(hash, ops), r, now) == Lookup(hash, Run(hash, WithoutPurges(ops)), r, now)
  {
    RunPurged(hash, ops, now);
  }

  /** What a purge takes from a reader, after any history: the row it would have found, if expired at the purge. */
  lemma PurgeTakesExactly(hash: string -> string, ops: seq<Op>, r: Request, p: Time, now: Time)
    ensures var found := FindRow(Run(hash, ops), BuildIdentity(hash, r), r.namespace, now);
            Lookup(hash, Run(hash, ops + [PurgeExpired(p)]), r, now)
            == if found.Some? && found.value.expiresAt <= p then None else Lookup(hash, Run(hash, ops), r, now)
  {
    assert (ops + [PurgeExpired(p)])[..|ops|] == ops;
  }

  /** A response that expires at e, purged at p, is lost to a reader at `now` exactly if now < e <= p. */
  lemma EarlyPurgeIsVisible(hash: string -> string, r: Request, response: Stored, e: Time, p: Time, now: Time)
    ensures Lookup(hash, Run(hash, [Store(r, response, e)] + [PurgeExpired(p)]), r, now)
            != Lookup(hash, Run(hash, [Store(r, response, e)]), r, now)
       <==> now < e <= p
  {
    var store := [Store(r, response, e)];
    PurgeTakesExactly(hash, store, r, p, now);
    assert store[..0] == [];
    assert Run(hash, store) == Apply(hash, map[], store[0]);
  }
}
