/** `insert_call_log`: one ledger line per API call, keyed by snapshot and page range,
    written into the caller's open transaction. */
module CallLog {
  import opened CivilTime
  import opened Store

  /** The effect of `insert_call_log` on a connection state, and whether the statement went
      through (`false` where the Python raises). The date written is the calendar date of
      `calledAt`. */
  function InsertCallLogSpec(
    db: Db, fails: LedgerEntry -> bool, snapshotId: string, pageStart: int, pageEnd: int,
    calledAt: DateTime, status: CallStatus): (bool, Db)
  {
    var e := LedgerEntry(calledAt.date, snapshotId, pageStart, pageEnd, calledAt, status);
    if fails(e) then (false, db) else (true, db.(ledger := UpsertEntry(db.ledger, e)))
  }

  /** `insert_call_log(mysql_conn=..., snapshot_id=..., page_start=..., page_end=..., called_at=..., status=...)`. */
  method InsertCallLog(
    conn: Connection, snapshotId: string, pageStart: int, pageEnd: int, calledAt: DateTime, status: CallStatus)
    returns (ok: bool)
    modifies conn
    ensures (ok, conn.State()) == InsertCallLogSpec(old(conn.State()), conn.ledgerWriteFails, snapshotId, pageStart, pageEnd, calledAt, status)
    ensures conn.committedLedger == old(conn.committedLedger) && conn.committedRaw == old(conn.committedRaw)
    ensures conn.commits == old(conn.commits) && conn.rollbacks == old(conn.rollbacks)
  {
    var callDate := calledAt.date;
    ok := conn.ExecuteUpsert(LedgerEntry(callDate, snapshotId, pageStart, pageEnd, calledAt, status));
  }

  /** A call for a page not yet in the ledger adds exactly that one entry. */
  lemma NewKeyAddsOneEntry(l: Ledger, e: LedgerEntry)
    requires KeyOf(e) !in l
    ensures |UpsertEntry(l, e)| == |l| + 1
    ensures UpsertEntry(l, e)[KeyOf(e)] == e
  {
  }

  /** A repeated call for the same page adds no entry; it keeps the first call's date and takes
      the new status and call time. */
  lemma ReinsertKeepsDate(l: Ledger, e: LedgerEntry)
    requires WellKeyed(l) && KeyOf(e) in l
    ensures |UpsertEntry(l, e)| == |l|
    ensures var before, after := l[KeyOf(e)], UpsertEntry(l, e)[KeyOf(e)];
      after == LedgerEntry(before.callDate, e.snapshotId, e.pageStart, e.pageEnd, e.calledAt, e.status)
  {
    assert UpsertEntry(l, e).Keys == l.Keys;
  }

  /** Whatever happens, `insert_call_log` leaves the pending raw rows and the committed state
      alone: it neither commits nor rolls back. */
  lemma InsertCallLogNeverCommits(
    db: Db, fails: LedgerEntry -> bool, snapshotId: string, pageStart: int, pageEnd: int,
    calledAt: DateTime, status: CallStatus)
    ensures var d := InsertCallLogSpec(db, fails, snapshotId, pageStart, pageEnd, calledAt, status).1;
      d.committedLedger == db.committedLedger && d.committedRaw == db.committedRaw && d.raw == db.raw
      && d.commits == db.commits && d.rollbacks == db.rollbacks
  {
  }
}
