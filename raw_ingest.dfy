/** Loading parsed rows into the raw table: one record per row with its JSON text and payload
    hash, written by one bulk upsert. `ingest_rows_page` leaves the transaction to its caller;
    `ingest_provider_result` commits or rolls back itself. */
module RawIngest {
  import opened Wrappers
  import opened CivilTime
  import opened Records
  import opened Store
  import opened PayloadHash
  import opened SeoulSubway

  /** The dictionary both ingest functions return. */
  datatype IngestCounts = IngestCounts(attemptedRows: int, insertedRows: int, skippedDuplicates: int)

  /** The `RuntimeError` raised when the bulk insert fails. */
  datatype IngestError = RawInsertFailed

  /** How a row becomes its `raw_payload` text and its `payload_hash`. The source fixes both:
      `SourceEncoding(sha256)`; the ingest functions are stated for any encoding so that
      their proofs do not depend on the JSON text. */
  datatype RowEncoding = RowEncoding(payload: Row -> string, hash: Row -> Hex64)

  /** `json.dumps(row, ensure_ascii=False)` and `compute_payload_hash(row)`. */
  function SourceEncoding(sha256: string -> Hex64): (enc: RowEncoding)
    ensures enc.payload == RawPayloadJson
    ensures forall row :: enc.hash(row) == ComputePayloadHash(sha256, row)
  {
    RowEncoding(RawPayloadJson, (row: Row) => ComputePayloadHash(sha256, row))
  }

  /** The insert values for one row of a page. */
  function PageRecord(enc: RowEncoding, snapshotId: string, collectedAt: DateTime, start: int, end: int, row: Row)
    : RawRecord
  {
    RawRecord(snapshotId, collectedAt, start, end, enc.payload(row), enc.hash(row))
  }

  /** `insert_rows` for a page: one record per row, in row order. */
  function PageRecords(enc: RowEncoding, snapshotId: string, collectedAt: DateTime, start: int, end: int, rows: seq<Row>)
    : (rs: seq<RawRecord>)
    ensures |rs| == |rows|
    decreases |rows|
  {
    if rows == [] then []
    else
      PageRecords(enc, snapshotId, collectedAt, start, end, rows[..|rows| - 1])
        + [PageRecord(enc, snapshotId, collectedAt, start, end, rows[|rows| - 1])]
  }

  /** Record `i` of a page is the record of row `i`. */
  lemma {:induction false} PageRecordsAt(
    enc: RowEncoding, snapshotId: string, collectedAt: DateTime, start: int, end: int, rows: seq<Row>)
    ensures forall i :: 0 <= i < |rows| ==>
      PageRecords(enc, snapshotId, collectedAt, start, end, rows)[i] == PageRecord(enc, snapshotId, collectedAt, start, end, rows[i])
    decreases |rows|
  {
    if rows != [] {
      PageRecordsAt(enc, snapshotId, collectedAt, start, end, rows[..|rows| - 1]);
    }
  }

  /** The result of `ingest_rows_page` and the connection state it leaves. */
  function IngestRowsPageSpec(
    db: Db, fails: seq<RawRecord> -> bool, enc: RowEncoding, snapshotId: string, collectedAt: DateTime,
    start: int, end: int, rows: seq<Row>): (Result<IngestCounts, IngestError>, Db)
  {
    var recs := PageRecords(enc, snapshotId, collectedAt, start, end, rows);
    if recs == [] then (Success(IngestCounts(0, 0, 0)), db)
    else if fails(recs) then (Failure(RawInsertFailed), db)
    else
      var res := BulkUpsert(db.raw, recs);
      (Success(IngestCounts(|recs|, res.1, |recs| - res.1)), db.(raw := res.0))
  }

  /** `ingest_rows_page(mysql_conn=..., snapshot_id=..., collected_at=..., page_start=..., page_end=..., rows=...)`. */
  method IngestRowsPage(
    conn: Connection, enc: RowEncoding, snapshotId: string, collectedAt: DateTime,
    start: int, end: int, rows: seq<Row>)
    returns (r: Result<IngestCounts, IngestError>)
    modifies conn
    ensures (r, conn.State()) == IngestRowsPageSpec(old(conn.State()), conn.rawWriteFails, enc, snapshotId, collectedAt, start, end, rows)
  {
    var insertRows: seq<RawRecord> := [];
    var i := 0;
    while i < |rows|
      invariant 0 <= i <= |rows|
      invariant insertRows == PageRecords(enc, snapshotId, collectedAt, start, end, rows[..i])
    {
      var payloadHash := enc.hash(rows[i]);
      insertRows := insertRows + [RawRecord(snapshotId, collectedAt, start, end, enc.payload(rows[i]), payloadHash)];
      assert rows[..i + 1][..i] == rows[..i];
      i := i + 1;
    }
    assert rows[..i] == rows;
    if insertRows == [] {
      return Success(IngestCounts(0, 0, 0));
    }
    var attemptedRows := |insertRows|;
    var ok, rowcount := conn.ExecuteMany(insertRows);
    if !ok {
      return Failure(RawInsertFailed);
    }
    var insertedRows := rowcount;
    var skippedDuplicates := attemptedRows - insertedRows;
    return Success(IngestCounts(attemptedRows, insertedRows, skippedDuplicates));
  }

  /** An empty page inserts nothing and leaves the connection alone. */
  lemma IngestEmptyPage(
    db: Db, fails: seq<RawRecord> -> bool, enc: RowEncoding, snapshotId: string, collectedAt: DateTime,
    start: int, end: int)
    ensures IngestRowsPageSpec(db, fails, enc, snapshotId, collectedAt, start, end, [])
      == (Success(IngestCounts(0, 0, 0)), db)
  {
  }

  /** Every row is attempted; the inserted ones are the page's keys not yet in the table and
      the rest are duplicates. */
  lemma IngestCountsBalance(
    db: Db, fails: seq<RawRecord> -> bool, enc: RowEncoding, snapshotId: string, collectedAt: DateTime,
    start: int, end: int, rows: seq<Row>)
    ensures var (r, _) := IngestRowsPageSpec(db, fails, enc, snapshotId, collectedAt, start, end, rows);
      var recs := PageRecords(enc, snapshotId, collectedAt, start, end, rows);
      r.Success? ==>
        r.value.attemptedRows == |rows|
        && r.value.insertedRows + r.value.skippedDuplicates == r.value.attemptedRows
        && 0 <= r.value.insertedRows <= r.value.attemptedRows
        && r.value.insertedRows == |RawKeys(recs) - db.raw.Keys|
  {
    var recs := PageRecords(enc, snapshotId, collectedAt, start, end, rows);
    BulkUpsertBound(db.raw, recs);
    BulkUpsertCount(db.raw, recs);
    if recs == [] {
      assert RawKeys(recs) == {};
    }
  }

  /** `ingest_rows_page` touches only the pending raw rows: no commit, no rollback, no ledger
      change; a failed insert changes nothing; existing rows are kept and the page's keys added. */
  lemma IngestRowsPageEffect(
    db: Db, fails: seq<RawRecord> -> bool, enc: RowEncoding, snapshotId: string, collectedAt: DateTime,
    start: int, end: int, rows: seq<Row>)
    ensures var (r, d) := IngestRowsPageSpec(db, fails, enc, snapshotId, collectedAt, start, end, rows);
      d.ledger == db.ledger && d.committedLedger == db.committedLedger && d.committedRaw == db.committedRaw
      && d.commits == db.commits && d.rollbacks == db.rollbacks
      && (r.Failure? ==> d == db)
      && (r.Success? ==> d.raw.Keys == db.raw.Keys + RawKeys(PageRecords(enc, snapshotId, collectedAt, start, end, rows)))
      && (forall k :: k in db.raw ==> k in d.raw && d.raw[k] == db.raw[k])
  {
    var recs := PageRecords(enc, snapshotId, collectedAt, start, end, rows);
    BulkUpsertKeepsAndAdds(db.raw, recs);
    var (r, d) := IngestRowsPageSpec(db, fails, enc, snapshotId, collectedAt, start, end, rows);
    if recs == [] {
      assert RawKeys(recs) == {};
    } else if r.Failure? {
      assert fails(recs);
    }
  }

  /** Ingesting the same page again, on the same connection, inserts nothing: every row is a
      duplicate and the table stays as the first run left it. */
  lemma ReingestInsertsNothing(
    db: Db, fails: seq<RawRecord> -> bool, enc: RowEncoding, snapshotId: string, collectedAt: DateTime,
    start: int, end: int, rows: seq<Row>)
    requires IngestRowsPageSpec(db, fails, enc, snapshotId, collectedAt, start, end, rows).0.Success?
    ensures var d1 := IngestRowsPageSpec(db, fails, enc, snapshotId, collectedAt, start, end, rows).1;
      IngestRowsPageSpec(d1, fails, enc, snapshotId, collectedAt, start, end, rows)
        == (Success(IngestCounts(|rows|, 0, |rows|)), d1)
  {
    var recs := PageRecords(enc, snapshotId, collectedAt, start, end, rows);
    if recs != [] {
      BulkUpsertIdempotent(db.raw, recs);
    }
  }

  /** With the source's encoding, two rows holding the same mapping, in any insertion order,
      get one raw-table key on a page; rows with different mappings get different keys unless
      SHA-256 collides on their canonical texts. */
  lemma SameMappingSameKey(
    sha256: string -> Hex64, snapshotId: string, collectedAt: DateTime, start: int, end: int, a: Row, b: Row)
    ensures var enc := SourceEncoding(sha256);
      var ka := RawKeyOf(PageRecord(enc, snapshotId, collectedAt, start, end, a));
      var kb := RawKeyOf(PageRecord(enc, snapshotId, collectedAt, start, end, b));
      (AsMap(a) == AsMap(b) ==> ka == kb)
      && (AsMap(a) != AsMap(b) && (sha256(CanonicalJson(a)) == sha256(CanonicalJson(b)) ==> CanonicalJson(a) == CanonicalJson(b))
          ==> ka != kb)
  {
    if AsMap(a) == AsMap(b) {
      HashIgnoresOrder(sha256, a, b);
    } else if sha256(CanonicalJson(a)) == sha256(CanonicalJson(b)) ==> CanonicalJson(a) == CanonicalJson(b) {
      HashSeparatesMaps(sha256, a, b);
    }
  }

  /** A page of two rows with the same payload hash, whose key is new to the table, inserts
      one row and counts the other as a duplicate. */
  lemma SameHashIsSkipped(
    db: Db, fails: seq<RawRecord> -> bool, enc: RowEncoding, snapshotId: string, collectedAt: DateTime,
    start: int, end: int, a: Row, b: Row)
    requires enc.hash(a) == enc.hash(b)
    requires !fails(PageRecords(enc, snapshotId, collectedAt, start, end, [a, b]))
    requires RawKey(snapshotId, start, end, enc.hash(a)) !in db.raw
    ensures IngestRowsPageSpec(db, fails, enc, snapshotId, collectedAt, start, end, [a, b]).0
      == Success(IngestCounts(2, 1, 1))
  {
    var recs := PageRecords(enc, snapshotId, collectedAt, start, end, [a, b]);
    PageRecordsAt(enc, snapshotId, collectedAt, start, end, [a, b]);
    var ka := RawKey(snapshotId, start, end, enc.hash(a));
    assert RawKeyOf(recs[0]) == ka && RawKeyOf(recs[1]) == ka;
    assert recs[0] in recs && recs[1] in recs;
    assert RawKeys(recs) == {ka};
    assert RawKeys(recs) - db.raw.Keys == {ka};
    IngestCountsBalance(db, fails, enc, snapshotId, collectedAt, start, end, [a, b]);
  }

  /** With the source's encoding, a page carrying the same mapping twice, in any insertion
      order, inserts it once and counts the other copy as a duplicate. */
  lemma RepeatedMappingIsSkipped(
    db: Db, fails: seq<RawRecord> -> bool, sha256: string -> Hex64, snapshotId: string, collectedAt: DateTime,
    start: int, end: int, a: Row, b: Row)
    requires AsMap(a) == AsMap(b)
    requires !fails(PageRecords(SourceEncoding(sha256), snapshotId, collectedAt, start, end, [a, b]))
    requires RawKey(snapshotId, start, end, ComputePayloadHash(sha256, a)) !in db.raw
    ensures IngestRowsPageSpec(db, fails, SourceEncoding(sha256), snapshotId, collectedAt, start, end, [a, b]).0
      == Success(IngestCounts(2, 1, 1))
  {
    HashIgnoresOrder(sha256, a, b);
    SameHashIsSkipped(db, fails, SourceEncoding(sha256), snapshotId, collectedAt, start, end, a, b);
  }

  // ---------------------------------------------------------------------------
  // ingest_provider_result

  /** `insert_rows` for a whole provider result: each page's records, pages in order. */
  function ProviderRecords(enc: RowEncoding, snapshotId: string, collectedAt: DateTime, pages: seq<PageResult>)
    : seq<RawRecord>
    decreases |pages|
  {
    if pages == [] then []
    else
      var p := pages[|pages| - 1];
      ProviderRecords(enc, snapshotId, collectedAt, pages[..|pages| - 1])
        + PageRecords(enc, snapshotId, collectedAt, p.start, p.end, p.rows)
  }

  /** The result of `ingest_provider_result` and the connection state it leaves: committed
      after a successful insert, rolled back after a failed one. */
  function IngestProviderSpec(
    db: Db, fails: seq<RawRecord> -> bool, enc: RowEncoding, result: ProviderResult, snapshotId: string,
    collectedAt: DateTime): (Result<IngestCounts, IngestError>, Db)
  {
    var recs := ProviderRecords(enc, snapshotId, collectedAt, result.pages);
    if recs == [] then (Success(IngestCounts(0, 0, 0)), db)
    else if fails(recs) then (Failure(RawInsertFailed), db.Rollback())
    else
      var res := BulkUpsert(db.raw, recs);
      (Success(IngestCounts(|recs|, res.1, |recs| - res.1)), db.(raw := res.0).Commit())
  }

  /** The two nested loops that turn every row of every page into its insert values. */
  method BuildInsertRows(enc: RowEncoding, pages: seq<PageResult>, snapshotId: string, collectedAt: DateTime)
    returns (insertRows: seq<RawRecord>)
    ensures insertRows == ProviderRecords(enc, snapshotId, collectedAt, pages)
  {
    insertRows := [];
    var p := 0;
    while p < |pages|
      invariant 0 <= p <= |pages|
      invariant insertRows == ProviderRecords(enc, snapshotId, collectedAt, pages[..p])
    {
      var page := pages[p];
      ghost var before := insertRows;
      var i := 0;
      while i < |page.rows|
        invariant 0 <= i <= |page.rows|
        invariant insertRows == before + PageRecords(enc, snapshotId, collectedAt, page.start, page.end, page.rows[..i])
      {
        var row := page.rows[i];
        var payloadHash := enc.hash(row);
        insertRows := insertRows + [RawRecord(snapshotId, collectedAt, page.start, page.end, enc.payload(row), payloadHash)];
        assert page.rows[..i + 1][..i] == page.rows[..i];
        i := i + 1;
      }
      assert page.rows[..i] == page.rows;
      assert pages[..p + 1][..p] == pages[..p];
      p := p + 1;
    }
    assert pages[..p] == pages;
  }

  /** `ingest_provider_result(provider_result, snapshot_id, mysql_conn)`, with the collection
      time it reads from the clock passed in. */
  method IngestProviderResult(
    conn: Connection, enc: RowEncoding, result: ProviderResult, snapshotId: string, collectedAt: DateTime)
    returns (r: Result<IngestCounts, IngestError>)
    modifies conn
    ensures (r, conn.State()) == IngestProviderSpec(old(conn.State()), conn.rawWriteFails, enc, result, snapshotId, collectedAt)
  {
    var insertRows := BuildInsertRows(enc, result.pages, snapshotId, collectedAt);
    if insertRows == [] {
      return Success(IngestCounts(0, 0, 0));
    }
    var attemptedRows := |insertRows|;
    var ok, rowcount := conn.ExecuteMany(insertRows);
    if !ok {
      conn.Rollback();
      return Failure(RawInsertFailed);
    }
    var insertedRows := rowcount;
    var skippedDuplicates := attemptedRows - insertedRows;
    conn.Commit();
    return Success(IngestCounts(attemptedRows, insertedRows, skippedDuplicates));
  }

  /** The records inserted for a provider result are those of `all_rows`, in order, each
      tagged with the range of the page it came from. */
  lemma {:induction false} ProviderRecordsFollowAllRows(
    enc: RowEncoding, snapshotId: string, collectedAt: DateTime, pages: seq<PageResult>)
    ensures var recs, rows := ProviderRecords(enc, snapshotId, collectedAt, pages), AllRows(pages);
      |recs| == |rows|
      && forall i :: 0 <= i < |rows| ==>
        recs[i].rawPayload == enc.payload(rows[i]) && recs[i].payloadHash == enc.hash(rows[i])
        && recs[i].snapshotId == snapshotId && recs[i].collectedAt == collectedAt
    decreases |pages|
  {
    if pages != [] {
      var init := pages[..|pages| - 1];
      var p := pages[|pages| - 1];
      ProviderRecordsFollowAllRows(enc, snapshotId, collectedAt, init);
      var a: seq<RawRecord>, ra: seq<Row> := ProviderRecords(enc, snapshotId, collectedAt, init), AllRows(init);
      var b: seq<RawRecord> := PageRecords(enc, snapshotId, collectedAt, p.start, p.end, p.rows);
      PageRecordsAt(enc, snapshotId, collectedAt, p.start, p.end, p.rows);
      forall i | 0 <= i < |ra| + |p.rows|
        ensures (a + b)[i].rawPayload == enc.payload((ra + p.rows)[i])
          && (a + b)[i].payloadHash == enc.hash((ra + p.rows)[i])
          && (a + b)[i].snapshotId == snapshotId && (a + b)[i].collectedAt == collectedAt
      {
        if i >= |ra| {
          assert (a + b)[i] == b[i - |ra|];
          assert (ra + p.rows)[i] == p.rows[i - |ra|];
        } else {
          assert (a + b)[i] == a[i];
          assert (ra + p.rows)[i] == ra[i];
        }
      }
    }
  }

  /** After `ingest_provider_result` nothing is pending as soon as there was a row: a
      successful insert is committed, a failed one rolled back; attempted rows are all rows of
      all pages. */
  lemma IngestProviderSettles(
    db: Db, fails: seq<RawRecord> -> bool, enc: RowEncoding, result: ProviderResult, snapshotId: string,
    collectedAt: DateTime)
    ensures var (r, d) := IngestProviderSpec(db, fails, enc, result, snapshotId, collectedAt);
      var recs := ProviderRecords(enc, snapshotId, collectedAt, result.pages);
      (r.Success? ==>
         (r.value.attemptedRows == |AllRows(result.pages)|
          && r.value.insertedRows + r.value.skippedDuplicates == r.value.attemptedRows))
      && (recs != [] ==> d.Settled())
      && (r.Failure? ==>
           (d.committedRaw == db.committedRaw && d.committedLedger == db.committedLedger
            && d.rollbacks == db.rollbacks + 1 && d.commits == db.commits))
      && (r.Success? && recs != [] ==> d.committedRaw == BulkUpsert(db.raw, recs).0 && d.commits == db.commits + 1)
  {
    ProviderRecordsFollowAllRows(enc, snapshotId, collectedAt, result.pages);
  }
}
