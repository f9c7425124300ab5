/** The MySQL connection the pipeline writes through, reduced to its two tables and its
    transaction. Each table is a map from its unique key to its row; the connection holds a
    working view (what its own statements see) and the committed state, and `rollback`
    returns the working view to the committed one. */
module Store {
  import opened CivilTime

  // ---------------------------------------------------------------------------
  // subway_api_call_log

  datatype CallStatus = StatusSuccess | StatusError

  /** The ledger's unique key `(snapshot_id, page_start, page_end)`. */
  datatype PageKey = PageKey(snapshotId: string, pageStart: int, pageEnd: int)

  datatype LedgerEntry = LedgerEntry(
    callDate: Date, snapshotId: string, pageStart: int, pageEnd: int, calledAt: DateTime, status: CallStatus)

  function KeyOf(e: LedgerEntry): PageKey {
    PageKey(e.snapshotId, e.pageStart, e.pageEnd)
  }

  type Ledger = map<PageKey, LedgerEntry>

  /** Every entry is filed under its own key. */
  predicate WellKeyed(l: Ledger) {
    forall k :: k in l ==> KeyOf(l[k]) == k
  }

  /** `INSERT ... ON DUPLICATE KEY UPDATE status = VALUES(status), called_at = VALUES(called_at)`:
      a new key gets the whole entry; an existing key keeps its `call_date` and takes the new
      status and call time. */
  function UpsertEntry(l: Ledger, e: LedgerEntry): (r: Ledger)
    ensures r.Keys == l.Keys + {KeyOf(e)}
    ensures forall k :: k in l && k != KeyOf(e) ==> r[k] == l[k]
    ensures WellKeyed(l) ==> WellKeyed(r)
  {
    var k := KeyOf(e);
    if k in l then l[k := l[k].(status := e.status, calledAt := e.calledAt)] else l[k := e]
  }

  // ---------------------------------------------------------------------------
  // subway_arrival_raw

  datatype RawRecord = RawRecord(
    snapshotId: string, collectedAt: DateTime, pageStart: int, pageEnd: int, rawPayload: string, payloadHash: string)

  /** The unique key assumed for the raw table: one page's copy of one payload. */
  datatype RawKey = RawKey(snapshotId: string, pageStart: int, pageEnd: int, payloadHash: string)

  function RawKeyOf(r: RawRecord): RawKey {
    RawKey(r.snapshotId, r.pageStart, r.pageEnd, r.payloadHash)
  }

  function RawKeys(rs: seq<RawRecord>): set<RawKey> {
    set r | r in rs :: RawKeyOf(r)
  }

  type RawTable = map<RawKey, RawRecord>

  /** `executemany` of `INSERT ... ON DUPLICATE KEY UPDATE payload_hash = payload_hash`: rows are
      taken in order; a row whose key is already present, in the table or earlier in the batch,
      changes nothing and adds nothing to `rowcount`. */
  function BulkUpsert(t: RawTable, rs: seq<RawRecord>): (res: (RawTable, nat))
    decreases |rs|
  {
    if rs == [] then (t, 0)
    else
      var k := RawKeyOf(rs[0]);
      var next := if k in t then (t, 0) else (t[k := rs[0]], 1);
      var rest := BulkUpsert(next.0, rs[1..]);
      (rest.0, next.1 + rest.1)
  }

  lemma RawKeysUncons(rs: seq<RawRecord>)
    requires rs != []
    ensures RawKeys(rs) == {RawKeyOf(rs[0])} + RawKeys(rs[1..])
  {
    assert forall r :: r in rs <==> r == rs[0] || r in rs[1..];
  }

  /** The table afterwards holds its old keys plus the batch's keys, and every old row is kept
      unchanged. */
  lemma {:induction false} BulkUpsertKeepsAndAdds(t: RawTable, rs: seq<RawRecord>)
    ensures BulkUpsert(t, rs).0.Keys == t.Keys + RawKeys(rs)
    ensures forall k :: k in t ==> BulkUpsert(t, rs).0[k] == t[k]
    decreases |rs|
  {
    if rs != [] {
      var k := RawKeyOf(rs[0]);
      var next := if k in t then t else t[k := rs[0]];
      BulkUpsertKeepsAndAdds(next, rs[1..]);
      RawKeysUncons(rs);
    }
  }

  lemma BulkUpsertUnfold(t: RawTable, rs: seq<RawRecord>)
    requires rs != []
    ensures RawKeyOf(rs[0]) in t ==> BulkUpsert(t, rs) == BulkUpsert(t, rs[1..])
    ensures RawKeyOf(rs[0]) !in t ==>
      var rest := BulkUpsert(t[RawKeyOf(rs[0]) := rs[0]], rs[1..]);
      BulkUpsert(t, rs) == (rest.0, 1 + rest.1)
  {
  }

  lemma NewKeysStep(batch: set<RawKey>, k: RawKey, tail: set<RawKey>, present: set<RawKey>)
    requires batch == {k} + tail
    ensures k in present ==> batch - present == tail - present
    ensures k !in present ==> |batch - present| == 1 + |tail - (present + {k})|
  {
    if k !in present {
      var added := tail - (present + {k});
      assert batch - present == {k} + added;
      assert k !in added;
    }
  }

  lemma CountStepAbsent(t: RawTable, rs: seq<RawRecord>)
    requires rs != [] && RawKeyOf(rs[0]) !in t
    requires BulkUpsert(t[RawKeyOf(rs[0]) := rs[0]], rs[1..]).1
      == |RawKeys(rs[1..]) - t[RawKeyOf(rs[0]) := rs[0]].Keys|
    ensures BulkUpsert(t, rs).1 == |RawKeys(rs) - t.Keys|
  {
    var k := RawKeyOf(rs[0]);
    RawKeysUncons(rs);
    BulkUpsertUnfold(t, rs);
    assert t[k := rs[0]].Keys == t.Keys + {k};
    NewKeysStep(RawKeys(rs), k, RawKeys(rs[1..]), t.Keys);
  }

  /** `rowcount` is the number of distinct keys of the batch that were not yet in the table. */
  lemma {:induction false} BulkUpsertCount(t: RawTable, rs: seq<RawRecord>)
    ensures BulkUpsert(t, rs).1 == |RawKeys(rs) - t.Keys|
    decreases |rs|
  {
    if rs != [] {
      var k := RawKeyOf(rs[0]);
      if k in t {
        RawKeysUncons(rs);
        BulkUpsertUnfold(t, rs);
        NewKeysStep(RawKeys(rs), k, RawKeys(rs[1..]), t.Keys);
        BulkUpsertCount(t, rs[1..]);
      } else {
        BulkUpsertCount(t[k := rs[0]], rs[1..]);
        CountStepAbsent(t, rs);
      }
    }
  }

  /** At most one row per statement row is inserted. */
  lemma {:induction false} BulkUpsertBound(t: RawTable, rs: seq<RawRecord>)
    ensures BulkUpsert(t, rs).1 <= |rs|
    decreases |rs|
  {
    if rs != [] {
      var k := RawKeyOf(rs[0]);
      BulkUpsertBound(if k in t then t else t[k := rs[0]], rs[1..]);
    }
  }

  /** A batch whose keys are all present already inserts nothing and changes nothing. */
  lemma {:induction false} BulkUpsertAllPresent(t: RawTable, rs: seq<RawRecord>)
    requires RawKeys(rs) <= t.Keys
    ensures BulkUpsert(t, rs) == (t, 0)
    decreases |rs|
  {
    if rs != [] {
      RawKeysUncons(rs);
      BulkUpsertAllPresent(t, rs[1..]);
    }
  }

  /** Running the same batch twice: the second run inserts nothing and leaves the table as the
      first run left it. */
  lemma BulkUpsertIdempotent(t: RawTable, rs: seq<RawRecord>)
    ensures BulkUpsert(BulkUpsert(t, rs).0, rs) == (BulkUpsert(t, rs).0, 0)
  {
    BulkUpsertKeepsAndAdds(t, rs);
    BulkUpsertAllPresent(BulkUpsert(t, rs).0, rs);
  }

  // ---------------------------------------------------------------------------
  // The connection

  /** The state of a connection: working and committed copies of both tables, and how often
      the transaction was committed and rolled back. */
  datatype Db = Db(
    ledger: Ledger, committedLedger: Ledger, raw: RawTable, committedRaw: RawTable, commits: nat, rollbacks: nat)
  {
    /** No statement is pending. */
    predicate Settled() {
      ledger == committedLedger && raw == committedRaw
    }

    function Commit(): (d: Db)
      ensures d.Settled() && d.ledger == ledger && d.raw == raw
      ensures d.commits == commits + 1 && d.rollbacks == rollbacks
    {
      this.(committedLedger := ledger, committedRaw := raw, commits := commits + 1)
    }

    function Rollback(): (d: Db)
      ensures d.Settled() && d.committedLedger == committedLedger && d.committedRaw == committedRaw
      ensures d.rollbacks == rollbacks + 1 && d.commits == commits
    {
      this.(ledger := committedLedger, raw := committedRaw, rollbacks := rollbacks + 1)
    }
  }

  /** `mysql_conn` with `autocommit=False`. Which statements the server rejects is not
      visible to the code; it is fixed per connection by the two oracles. */
  class Connection {
    var ledger: Ledger
    var committedLedger: Ledger
    var raw: RawTable
    var committedRaw: RawTable
    var commits: nat
    var rollbacks: nat
    const ledgerWriteFails: LedgerEntry -> bool
    const rawWriteFails: seq<RawRecord> -> bool

    function State(): Db
      reads this
    {
      Db(ledger, committedLedger, raw, committedRaw, commits, rollbacks)
    }

    constructor (ledger: Ledger, raw: RawTable, ledgerWriteFails: LedgerEntry -> bool, rawWriteFails: seq<RawRecord> -> bool)
      ensures State() == Db(ledger, ledger, raw, raw, 0, 0)
      ensures this.ledgerWriteFails == ledgerWriteFails && this.rawWriteFails == rawWriteFails
    {
      this.ledger, this.committedLedger := ledger, ledger;
      this.raw, this.committedRaw := raw, raw;
      commits, rollbacks := 0, 0;
      this.ledgerWriteFails, this.rawWriteFails := ledgerWriteFails, rawWriteFails;
    }

    method Commit()
      modifies this
      ensures State() == old(State()).Commit()
    {
      committedLedger, committedRaw := ledger, raw;
      commits := commits + 1;
    }

    method Rollback()
      modifies this
      ensures State() == old(State()).Rollback()
    {
      ledger, raw := committedLedger, committedRaw;
      rollbacks := rollbacks + 1;
    }

    /** `cursor.execute` of the call-log upsert; a rejected statement changes nothing. */
    method ExecuteUpsert(e: LedgerEntry) returns (ok: bool)
      modifies this
      ensures ok == !ledgerWriteFails(e)
      ensures State() == if ok then old(State()).(ledger := UpsertEntry(old(ledger), e)) else old(State())
    {
      ok := !ledgerWriteFails(e);
      if ok {
        ledger := UpsertEntry(ledger, e);
      }
    }

    /** `cursor.executemany` of the raw insert, returning `cursor.rowcount`; a rejected batch
      changes nothing. */
    method ExecuteMany(rs: seq<RawRecord>) returns (ok: bool, rowcount: nat)
      modifies this
      ensures ok == !rawWriteFails(rs)
      ensures ok ==> State() == old(State()).(raw := BulkUpsert(old(raw), rs).0) && rowcount == BulkUpsert(old(raw), rs).1
      ensures !ok ==> State() == old(State())
    {
      ok := !rawWriteFails(rs);
      rowcount := 0;
      if ok {
        var res := BulkUpsert(raw, rs);
        raw, rowcount := res.0, res.1;
      }
    }
  }
}
