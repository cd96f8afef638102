/** `CacheIndex`: the SQLite table that speeds discovery up and can be rebuilt from it. */
module CacheIndexes {
  import opened Wrappers
  import opened CacheContracts
  import opened CacheFiles
  import opened Ordering
  import opened CacheStores

  datatype CacheIndexRecord = CacheIndexRecord(
    cacheKey: string,
    artifactKind: ArtifactKind,
    taskIdentity: string,
    status: string,
    payloadPath: string,
    manifestPath: string,
    payloadSha256: string,
    payloadSizeBytes: int,
    createdAt: string,
    validatedAt: string,
    sourceImplementationSha256: string)

  /** `_values`: the row for an artifact, with paths relative to the cache root. */
  function Values(a: CacheArtifact, now: string): CacheIndexRecord {
    var directory := Prefix(a.cacheKey) + "/" + a.cacheKey + "/";
    CacheIndexRecord(a.cacheKey, a.artifactKind, a.producingTaskIdentity, "COMPLETE",
                     directory + "payload.bin", directory + "manifest.json",
                     a.payloadSha256, a.payloadSizeBytes, a.createdAt, now, a.sourceImplementationSha256)
  }

  /** `INSERT ... ON CONFLICT(cache_key) DO UPDATE`. */
  function Upsert(rows: seq<CacheIndexRecord>, row: CacheIndexRecord): seq<CacheIndexRecord> {
    if rows == [] then [row]
    else if rows[0].cacheKey == row.cacheKey then [row] + rows[1..]
    else [rows[0]] + Upsert(rows[1..], row)
  }

  /** `executemany`. */
  function UpsertAll(rows: seq<CacheIndexRecord>, news: seq<CacheIndexRecord>): seq<CacheIndexRecord>
    decreases |news|
  {
    if news == [] then rows else UpsertAll(Upsert(rows, news[0]), news[1..])
  }

  ghost predicate OneRowPerKey(rows: seq<CacheIndexRecord>) {
    forall i, j :: 0 <= i < j < |rows| ==> rows[i].cacheKey != rows[j].cacheKey
  }

  /** The row stored under a key. */
  function RowFor(rows: seq<CacheIndexRecord>, key: string): Option<CacheIndexRecord> {
    if rows == [] then None
    else if rows[0].cacheKey == key then Some(rows[0])
    else RowFor(rows[1..], key)
  }

  lemma {:induction false} UpsertStores(rows: seq<CacheIndexRecord>, row: CacheIndexRecord)
    requires OneRowPerKey(rows)
    ensures OneRowPerKey(Upsert(rows, row))
    ensures forall key :: RowFor(Upsert(rows, row), key) == if key == row.cacheKey then Some(row) else RowFor(rows, key)
    ensures forall r :: r in Upsert(rows, row) ==> r == row || r in rows
  {
    if rows != [] && rows[0].cacheKey != row.cacheKey {
      UpsertStores(rows[1..], row);
      var tail := Upsert(rows[1..], row);
      assert Upsert(rows, row) == [rows[0]] + tail && ([rows[0]] + tail)[1..] == tail;
      forall r | r in tail
        ensures r.cacheKey != rows[0].cacheKey
      {
      }
    } else if rows != [] {
      assert ([row] + rows[1..])[1..] == rows[1..];
    }
  }

  /** The last of the rows added for a key. */
  function LastFor(news: seq<CacheIndexRecord>, key: string): Option<CacheIndexRecord> {
    if news == [] then None
    else if LastFor(news[1..], key).Some? then LastFor(news[1..], key)
    else if news[0].cacheKey == key then Some(news[0])
    else None
  }

  /** Any sequence of adds keeps one row per key, and that row is the last one added, or the
      old one for a key nobody added. */
  lemma {:induction false} AddsKeepOneRowPerKey(rows: seq<CacheIndexRecord>, news: seq<CacheIndexRecord>, key: string)
    requires OneRowPerKey(rows)
    ensures OneRowPerKey(UpsertAll(rows, news))
    ensures RowFor(UpsertAll(rows, news), key) == if LastFor(news, key).Some? then LastFor(news, key) else RowFor(rows, key)
    decreases |news|
  {
    if news != [] {
      UpsertStores(rows, news[0]);
      AddsKeepOneRowPerKey(Upsert(rows, news[0]), news[1..], key);
    }
  }

  // ----- lookup -----

  /** The four optional filters of `lookup`. */
  datatype Filters = Filters(cacheKey: Option<string>, artifactKind: Option<ArtifactKind>,
                             taskIdentity: Option<string>, status: Option<string>)

  predicate Accepts(f: Filters, r: CacheIndexRecord) {
    && (f.cacheKey.Some? ==> f.cacheKey.value == r.cacheKey)
    && (f.artifactKind.Some? ==> f.artifactKind.value == r.artifactKind)
    && (f.taskIdentity.Some? ==> f.taskIdentity.value == r.taskIdentity)
    && (f.status.Some? ==> f.status.value == r.status)
  }

  /** The `WHERE` clause. */
  function Select(f: Filters, rows: seq<CacheIndexRecord>): (r: seq<CacheIndexRecord>)
    ensures forall x :: x in r <==> x in rows && Accepts(f, x)
  {
    if rows == [] then []
    else (if Accepts(f, rows[0]) then [rows[0]] else []) + Select(f, rows[1..])
  }

  const keyOf := (r: CacheIndexRecord) => r.cacheKey

  /** A database file, as SQLite sees it. */
  datatype Database = Missing | Unreadable(bytes: Bytes) | Healthy(rows: seq<CacheIndexRecord>)

  /** `SELECT ... WHERE ... ORDER BY cache_key`; no rows when the file cannot be read. */
  function Answer(db: Database, f: Filters): seq<CacheIndexRecord> {
    match db
    case Healthy(rows) => SortBy(keyOf, Select(f, rows))
    case _ => []
  }

  ghost predicate InKeyOrder(rows: seq<CacheIndexRecord>) {
    forall i, j :: 0 <= i < j < |rows| ==> Less(rows[i].cacheKey, rows[j].cacheKey)
  }

  lemma {:induction false} SelectKeepsOrder(f: Filters, rows: seq<CacheIndexRecord>)
    requires InKeyOrder(rows)
    ensures InKeyOrder(Select(f, rows))
  {
    if rows != [] {
      SelectKeepsOrder(f, rows[1..]);
      var rest := Select(f, rows[1..]);
      forall j | 0 <= j < |rest|
        ensures Less(rows[0].cacheKey, rest[j].cacheKey)
      {
        assert rest[j] in rows[1..];
      }
    }
  }

  lemma SortOfOrdered(rows: seq<CacheIndexRecord>)
    requires InKeyOrder(rows)
    ensures SortBy(keyOf, rows) == rows
  {
    forall i, j | 0 <= i < |rows| && 0 <= j < |rows| && i != j
      ensures keyOf(rows[i]) != keyOf(rows[j]) && (i < j ==> !Less(keyOf(rows[j]), keyOf(rows[i])))
    {
      LessTotal(rows[i].cacheKey, rows[j].cacheKey);
    }
    SortIsSorted(keyOf, rows);
    SortedIsUnique(keyOf, rows, SortBy(keyOf, rows));
  }

  lemma UpsertOfNewKey(rows: seq<CacheIndexRecord>, row: CacheIndexRecord)
    requires forall r :: r in rows ==> r.cacheKey != row.cacheKey
    ensures Upsert(rows, row) == rows + [row]
  {
    if rows != [] {
      UpsertOfNewKey(rows[1..], row);
      assert rows == [rows[0]] + rows[1..];
    }
  }

  /** Into an emptied table, rows with increasing keys go as they are. */
  lemma {:induction false} UpsertsOfOrdered(rows: seq<CacheIndexRecord>, news: seq<CacheIndexRecord>)
    requires InKeyOrder(rows + news)
    ensures UpsertAll(rows, news) == rows + news
    decreases |news|
  {
    if news != [] {
      forall r | r in rows
        ensures r.cacheKey != news[0].cacheKey
      {
        var i :| 0 <= i < |rows| && rows[i] == r;
        assert Less((rows + news)[i].cacheKey, (rows + news)[|rows|].cacheKey);
        LessTotal(r.cacheKey, news[0].cacheKey);
      }
      UpsertOfNewKey(rows, news[0]);
      assert rows + news == (rows + [news[0]]) + news[1..];
      UpsertsOfOrdered(rows + [news[0]], news[1..]);
    }
  }

  /** The rows of discovered entries; `clock` gives each its `validated_at`. */
  function RowsOf(entries: seq<CacheArtifact>, clock: string -> string): (r: seq<CacheIndexRecord>)
    ensures |r| == |entries|
    ensures forall i :: 0 <= i < |r| ==> r[i] == Values(entries[i], clock(entries[i].cacheKey))
  {
    seq(|entries|, i requires 0 <= i < |entries| => Values(entries[i], clock(entries[i].cacheKey)))
  }

  /** After a rebuild every query, whatever its filters, is answered as a key-ordered filter
      of the discovered entries. */
  lemma RebuiltIndexAnswersFromDiscovery(pf: Platform, tree: Tree, entries: seq<CacheArtifact>, clock: string -> string, f: Filters)
    requires IsDiscovery(pf, tree, entries)
    ensures Answer(Healthy(UpsertAll([], RowsOf(entries, clock))), f) == Select(f, RowsOf(entries, clock))
    ensures InKeyOrder(Select(f, RowsOf(entries, clock)))
  {
    var rows := RowsOf(entries, clock);
    assert InKeyOrder(rows);
    assert [] + rows == rows;
    UpsertsOfOrdered([], rows);
    SelectKeepsOrder(f, rows);
    SortOfOrdered(Select(f, rows));
  }

  /** The row of an artifact carries its own metadata, and its place under the cache root. */
  lemma RowOfArtifact(a: CacheArtifact, now: string)
    ensures var r := Values(a, now);
            && r.cacheKey == a.cacheKey && r.artifactKind == a.artifactKind && r.taskIdentity == a.producingTaskIdentity
            && r.status == "COMPLETE" && r.payloadSha256 == a.payloadSha256 && r.payloadSizeBytes == a.payloadSizeBytes
            && r.createdAt == a.createdAt && r.validatedAt == now && r.sourceImplementationSha256 == a.sourceImplementationSha256
            && r.payloadPath == EntryPath(a.cacheKey).parent + "/" + EntryPath(a.cacheKey).name + "/payload.bin"
            && r.manifestPath == EntryPath(a.cacheKey).parent + "/" + EntryPath(a.cacheKey).name + "/manifest.json"
  {
    var d := Prefix(a.cacheKey) + "/" + a.cacheKey + "/";
    assert d + "payload.bin" == Prefix(a.cacheKey) + "/" + a.cacheKey + "/payload.bin";
    assert d + "manifest.json" == Prefix(a.cacheKey) + "/" + a.cacheKey + "/manifest.json";
  }

  lemma {:induction false} RowForIsRow(rows: seq<CacheIndexRecord>, key: string)
    ensures RowFor(rows, key).Some? ==> RowFor(rows, key).value in rows && RowFor(rows, key).value.cacheKey == key
  {
    if rows != [] && rows[0].cacheKey != key {
      RowForIsRow(rows[1..], key);
    }
  }

  /** A lookup gives exactly the rows that pass its filters. */
  lemma AnswerMeans(rows: seq<CacheIndexRecord>, f: Filters, r: CacheIndexRecord)
    ensures r in Answer(Healthy(rows), f) <==> r in rows && Accepts(f, r)
  {
    hide Accepts, SortBy;
    var chosen := Select(f, rows);
    var sorted := SortBy(keyOf, chosen);
    assert multiset(sorted) == multiset(chosen);
    assert r in sorted <==> r in multiset(sorted);
    assert r in chosen <==> r in multiset(chosen);
  }

  lemma RowIsStored(rows: seq<CacheIndexRecord>, row: CacheIndexRecord)
    requires OneRowPerKey(rows)
    ensures row in Upsert(rows, row)
  {
    UpsertStores(rows, row);
    RowForIsRow(Upsert(rows, row), row.cacheKey);
  }

  /** An added artifact is found by any combination of its own key, kind, task identity and
      status, and by no filter that asks for another key, kind, task identity or status. */
  lemma AddedArtifactIsFoundIff(rows: seq<CacheIndexRecord>, a: CacheArtifact, now: string, f: Filters)
    requires OneRowPerKey(rows)
    ensures Values(a, now) in Answer(Healthy(Upsert(rows, Values(a, now))), f) <==>
            (&& (f.cacheKey == None || f.cacheKey == Some(a.cacheKey)) && (f.artifactKind == None || f.artifactKind == Some(a.artifactKind))
             && (f.taskIdentity == None || f.taskIdentity == Some(a.producingTaskIdentity)) && (f.status == None || f.status == Some("COMPLETE")))
  {
    hide Upsert, Answer, OneRowPerKey, Values;
    RowOfArtifact(a, now);
    RowIsStored(rows, Values(a, now));
    AnswerMeans(Upsert(rows, Values(a, now)), f, Values(a, now));
  }

  class CacheIndex {
    var database: Database
    var backups: seq<Database>

    constructor (database: Database)
      ensures this.database == database && backups == []
    {
      this.database := database;
      backups := [];
    }

    ghost predicate Valid()
      reads this
    {
      database.Healthy? ==> OneRowPerKey(database.rows)
    }

    /** `add`: fails, changing nothing, exactly when SQLite cannot read the file. */
    method Add(a: CacheArtifact, now: string) returns (ok: bool)
      requires Valid()
      modifies this`database
      ensures Valid() && ok == !old(database).Unreadable?
      ensures !ok ==> database == old(database)
      ensures ok ==> database.Healthy? && RowFor(database.rows, a.cacheKey) == Some(Values(a, now))
      ensures ok && old(database).Healthy? ==>
                forall key :: key != a.cacheKey ==> RowFor(database.rows, key) == RowFor(old(database).rows, key)
    {
      if database.Unreadable? {
        return false;
      }
      var rows := if database.Healthy? then database.rows else [];
      UpsertStores(rows, Values(a, now));
      database := Healthy(Upsert(rows, Values(a, now)));
      return true;
    }

    method Lookup(f: Filters) returns (rows: seq<CacheIndexRecord>)
      ensures rows == Answer(database, f)
      ensures database.Healthy? ==> Sorted(keyOf, rows) && forall r :: r in rows <==> r in database.rows && Accepts(f, r)
      ensures !database.Healthy? ==> rows == []
    {
      if database.Healthy? {
        SortIsSorted(keyOf, Select(f, database.rows));
        assert forall r :: r in SortBy(keyOf, Select(f, database.rows)) <==> r in multiset(Select(f, database.rows));
        return SortBy(keyOf, Select(f, database.rows));
      }
      return [];
    }

    /** `_quarantine_corrupt_index`. */
    method QuarantineCorruptIndex()
      modifies this
      ensures database.Missing?
      ensures backups == if old(database).Missing? then old(backups) else old(backups) + [old(database)]
    {
      if !database.Missing? {
        backups := backups + [database];
      }
      database := Missing;
    }

    /** `rebuild`: it fails, changing nothing, exactly when discovery raises; otherwise, whatever
        the index held before, afterwards every lookup is answered from the manifests; an
        unreadable file is kept aside. */
    method Rebuild(store: CacheStore, clock: string -> string) returns (count: Result<nat, CacheError>, ghost entries: seq<CacheArtifact>)
      modifies this
      ensures count.Err? <==> exists p :: p in store.tree && EndsDiscovery(store.pf, p, store.tree[p])
      ensures count.Err? ==> database == old(database) && backups == old(backups)
      ensures count.Ok? ==> Valid()
      ensures count.Ok? ==> IsDiscovery(store.pf, store.tree, entries) && count.value == |entries| && database.Healthy?
      ensures count.Ok? ==> forall f :: Answer(database, f) == Select(f, RowsOf(entries, clock))
      ensures count.Ok? ==> backups == if old(database).Unreadable? then old(backups) + [old(database)] else old(backups)
    {
      entries := [];
      var walk := store.IterValidated();
      if walk.Err? {
        return Err(walk.error), entries;
      }
      var found := walk.value;
      entries := found;
      if database.Unreadable? {
        QuarantineCorruptIndex();
      }
      database := Healthy(UpsertAll([], RowsOf(found, clock)));
      forall f
        ensures Answer(database, f) == Select(f, RowsOf(found, clock))
      {
        RebuiltIndexAnswersFromDiscovery(store.pf, store.tree, found, clock, f);
      }
      AddsKeepOneRowPerKey([], RowsOf(found, clock), "");
      count := Ok(|found|);
    }
  }
}
