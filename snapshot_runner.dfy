/** `run_snapshot_once`: one snapshot of the arrival feed. Without supplied ranges it first
    probes the page `(0, 999)` and decides, once, whether three or four pages are read; it
    then fetches the remaining ranges in order. Every page is its own transaction: the call is
    logged and the rows ingested, then the page is committed, or on any failure an error call
    is logged and the page is rolled back. */
module SnapshotRunner {
  import opened Wrappers
  import opened CivilTime
  import opened Store
  import opened CallLog
  import opened RawIngest
  import opened SeoulSubway

  // ---------------------------------------------------------------------------
  // Results

  /** Why a page ended in the `except` branch. */
  datatype PageFailure = FetchFailed(cause: ProviderError) | CallLogFailed | IngestFailed(ingestError: IngestError)

  /** One element of `pages`: `status` is `"ok"` exactly when `ok`. */
  datatype PageOutcome = PageOutcome(
    start: int, end: int, ok: bool, attemptedRows: int, insertedRows: int, skippedDuplicates: int,
    error: Option<PageFailure>)

  datatype RunStatus = RunOk | RunPartial | RunError

  /** The dictionary `run_snapshot_once` returns. */
  datatype RunResult = RunResult(
    snapshotId: string, ranges: seq<(int, int)>, pages: seq<PageOutcome>,
    attemptedTotal: int, insertedTotal: int, duplicatesTotal: int, errorsTotal: nat, status: RunStatus,
    totalCount: Option<int>, decidedPageCount: Option<int>)

  // ---------------------------------------------------------------------------
  // What the runner works against

  /** The injected collaborators: the provider's `fetch_page`, the row encoding of the ingest
      step, the successive `clock()` readings and the statements the database rejects. */
  datatype World = World(
    fetch: Fetch, enc: RowEncoding, readings: nat -> DateTime,
    ledgerFails: LedgerEntry -> bool, rawFails: seq<RawRecord> -> bool)

  /** The collaborators together with the snapshot's id and its `snapshot_collected_at`. */
  datatype Env = Env(
    fetch: Fetch, enc: RowEncoding, readings: nat -> DateTime,
    ledgerFails: LedgerEntry -> bool, rawFails: seq<RawRecord> -> bool,
    snapshotId: string, collectedAt: DateTime)

  /** The connection's state and the number of clock readings taken so far. */
  datatype Sim = Sim(db: Db, ticks: nat)

  // ---------------------------------------------------------------------------
  // One page

  /** The `except` branch: a best-effort error call log, whose own failure is ignored, then
      `rollback()`. */
  function ErrorPath(env: Env, s: Sim, start: int, end: int, failure: PageFailure): (PageOutcome, Sim) {
    var calledAt := env.readings(s.ticks);
    var logged := InsertCallLogSpec(s.db, env.ledgerFails, env.snapshotId, start, end, calledAt, StatusError);
    (PageOutcome(start, end, false, 0, 0, 0, Some(failure)), Sim(logged.1.Rollback(), s.ticks + 1))
  }

  /** The body of the `try` for one range, and its `except` branch; the second component is
      the page's `total_count`, kept only when the page succeeded. */
  function PageStep(env: Env, s: Sim, start: int, end: int): (PageOutcome, Option<int>, Sim) {
    match env.fetch(start, end)
    case Failure(e) =>
      var failed := ErrorPath(env, s, start, end, FetchFailed(e));
      (failed.0, None, failed.1)
    case Success(data) =>
      var calledAt := env.readings(s.ticks);
      var logged := InsertCallLogSpec(s.db, env.ledgerFails, env.snapshotId, start, end, calledAt, StatusSuccess);
      var s1 := Sim(logged.1, s.ticks + 1);
      if !logged.0 then
        var failed := ErrorPath(env, s1, start, end, CallLogFailed);
        (failed.0, None, failed.1)
      else
        var ingested :=
          IngestRowsPageSpec(logged.1, env.rawFails, env.enc, env.snapshotId, env.collectedAt, start, end, data.rows);
        match ingested.0
        case Failure(err) =>
          var failed := ErrorPath(env, Sim(ingested.1, s1.ticks), start, end, IngestFailed(err));
          (failed.0, None, failed.1)
        case Success(counts) =>
          (PageOutcome(start, end, true, |data.rows|, counts.insertedRows, counts.skippedDuplicates, None),
           data.totalCount, Sim(ingested.1.Commit(), s1.ticks))
  }


  /** The remaining ranges, in order, each as one page. */
  function RunPages(env: Env, s: Sim, ranges: seq<(int, int)>): (seq<PageOutcome>, Sim)
    decreases |ranges|
  {
    if ranges == [] then ([], s)
    else
      var (done, s1) := RunPages(env, s, ranges[..|ranges| - 1]);
      var (start, end) := ranges[|ranges| - 1];
      var (o, _, s2) := PageStep(env, s1, start, end);
      (done + [o], s2)
  }

  // ---------------------------------------------------------------------------
  // The page-count decision

  /** `decided_page_count` from the probe's `total_count`. */
  function DecidePageCount(total: Option<int>): int {
    if total.Some? && total.value > 3000 then 4 else 3
  }

  /** The ranges still to fetch after the probe. */
  function RemainingRanges(decided: int): seq<(int, int)> {
    if decided == 4 then [(1000, 1999), (2000, 2999), (3000, 3999)] else [(1000, 1999), (2000, 2999)]
  }

  /** Before the loop: the probe's page (if any), `total_count`, `decided_page_count`, the
      ranges still to fetch and the state they start from. */
  function Plan(env: Env, s: Sim, callRanges: Option<seq<(int, int)>>)
    : (seq<PageOutcome>, Option<int>, Option<int>, seq<(int, int)>, Sim)
  {
    match callRanges
    case None =>
      var (probe, total, s1) := PageStep(env, s, 0, 999);
      var decided := DecidePageCount(total);
      ([probe], total, Some(decided), RemainingRanges(decided), s1)
    case Some(ranges) => ([], None, None, ranges, s)
  }

  // ---------------------------------------------------------------------------
  // The summary

  function AttemptedTotal(ps: seq<PageOutcome>): int
    decreases |ps|
  {
    if ps == [] then 0 else AttemptedTotal(ps[..|ps| - 1]) + ps[|ps| - 1].attemptedRows
  }

  function InsertedTotal(ps: seq<PageOutcome>): int
    decreases |ps|
  {
    if ps == [] then 0 else InsertedTotal(ps[..|ps| - 1]) + ps[|ps| - 1].insertedRows
  }

  function DuplicatesTotal(ps: seq<PageOutcome>): int
    decreases |ps|
  {
    if ps == [] then 0 else DuplicatesTotal(ps[..|ps| - 1]) + ps[|ps| - 1].skippedDuplicates
  }

  /** The number of pages whose status is `"error"`. */
  function ErrorsTotal(ps: seq<PageOutcome>): nat
    decreases |ps|
  {
    if ps == [] then 0 else ErrorsTotal(ps[..|ps| - 1]) + (if ps[|ps| - 1].ok then 0 else 1)
  }

  function StatusOf(errors: nat, pageCount: nat): RunStatus {
    if errors == 0 then RunOk else if errors == pageCount then RunError else RunPartial
  }

  /** The returned dictionary. Its `ranges` is `call_ranges if call_ranges else []`, which is
      the list of ranges fetched by the loop on both paths. */
  function Summary(
    snapshotId: string, ranges: seq<(int, int)>, pages: seq<PageOutcome>, totalCount: Option<int>,
    decided: Option<int>): RunResult
  {
    var errors := ErrorsTotal(pages);
    RunResult(
      snapshotId, ranges, pages, AttemptedTotal(pages), InsertedTotal(pages), DuplicatesTotal(pages),
      errors, StatusOf(errors, |pages|), totalCount, decided)
  }

  /** `run_snapshot_once(snapshot_id=..., call_ranges=..., provider=..., mysql_conn=..., clock=...)`
      as a function of the starting state. */
  function RunSpec(w: World, s: Sim, snapshotId: string, callRanges: Option<seq<(int, int)>>): (RunResult, Sim) {
    var env := Env(w.fetch, w.enc, w.readings, w.ledgerFails, w.rawFails, snapshotId, w.readings(s.ticks));
    var plan := Plan(env, Sim(s.db, s.ticks + 1), callRanges);
    var rest := RunPages(env, plan.4, plan.3);
    (Summary(snapshotId, plan.3, plan.0 + rest.0, plan.1, plan.2), rest.1)
  }

  // ---------------------------------------------------------------------------
  // The imperative runner

  /** The `except` branch of one page. */
  method ErrorPage(
    conn: Connection, clock: Clock, ghost env: Env, snapshotId: string, start: int, end: int, failure: PageFailure)
    returns (o: PageOutcome)
    requires env.readings == clock.readings && env.ledgerFails == conn.ledgerWriteFails && env.snapshotId == snapshotId
    modifies conn, clock
    ensures (o, Sim(conn.State(), clock.ticks)) == ErrorPath(env, old(Sim(conn.State(), clock.ticks)), start, end, failure)
  {
    var calledAt := clock.Now();
    var _ := InsertCallLog(conn, snapshotId, start, end, calledAt, StatusError);
    conn.Rollback();
    o := PageOutcome(start, end, false, 0, 0, 0, Some(failure));
  }

  /** One page: fetch, success call log, ingest, commit; any failure goes to the `except`
      branch. */
  method RunPage(
    conn: Connection, clock: Clock, fetch: Fetch, enc: RowEncoding, snapshotId: string, collectedAt: DateTime,
    start: int, end: int)
    returns (o: PageOutcome, total: Option<int>)
    modifies conn, clock
    ensures (o, total, Sim(conn.State(), clock.ticks)) ==
      PageStep(Env(fetch, enc, clock.readings, conn.ledgerWriteFails, conn.rawWriteFails, snapshotId, collectedAt),
               old(Sim(conn.State(), clock.ticks)), start, end)
  {
    ghost var env := Env(fetch, enc, clock.readings, conn.ledgerWriteFails, conn.rawWriteFails, snapshotId, collectedAt);
    var pageData := fetch(start, end);
    if pageData.Failure? {
      o := ErrorPage(conn, clock, env, snapshotId, start, end, FetchFailed(pageData.error));
      return o, None;
    }
    var rows := pageData.value.rows;
    var calledAt := clock.Now();
    var logged := InsertCallLog(conn, snapshotId, start, end, calledAt, StatusSuccess);
    if !logged {
      o := ErrorPage(conn, clock, env, snapshotId, start, end, CallLogFailed);
      return o, None;
    }
    var ingest := IngestRowsPage(conn, enc, snapshotId, collectedAt, start, end, rows);
    if ingest.Failure? {
      o := ErrorPage(conn, clock, env, snapshotId, start, end, IngestFailed(ingest.error));
      return o, None;
    }
    conn.Commit();
    o := PageOutcome(start, end, true, |rows|, ingest.value.insertedRows, ingest.value.skippedDuplicates, None);
    total := pageData.value.totalCount;
  }

  /** Everything before the loop: the probe and the decision, or the supplied ranges. */
  method PlanRun(
    conn: Connection, clock: Clock, fetch: Fetch, enc: RowEncoding, snapshotId: string, collectedAt: DateTime,
    callRanges: Option<seq<(int, int)>>)
    returns (pages: seq<PageOutcome>, totalCount: Option<int>, decided: Option<int>, remaining: seq<(int, int)>)
    modifies conn, clock
    ensures (pages, totalCount, decided, remaining, Sim(conn.State(), clock.ticks)) ==
      Plan(Env(fetch, enc, clock.readings, conn.ledgerWriteFails, conn.rawWriteFails, snapshotId, collectedAt),
           old(Sim(conn.State(), clock.ticks)), callRanges)
  {
    if callRanges.None? {
      var probe, total := RunPage(conn, clock, fetch, enc, snapshotId, collectedAt, 0, 999);
      pages, totalCount := [probe], total;
      var count := if total.Some? && total.value > 3000 then 4 else 3;
      decided := Some(count);
      if count == 4 {
        remaining := [(1000, 1999), (2000, 2999), (3000, 3999)];
      } else {
        remaining := [(1000, 1999), (2000, 2999)];
      }
    } else {
      pages, totalCount, decided, remaining := [], None, None, callRanges.value;
    }
  }

  /** The loop over the remaining ranges: every range gives one page, and no failure stops it. */
  method FetchRemaining(
    conn: Connection, clock: Clock, fetch: Fetch, enc: RowEncoding, snapshotId: string, collectedAt: DateTime,
    remaining: seq<(int, int)>)
    returns (pages: seq<PageOutcome>)
    modifies conn, clock
    ensures (pages, Sim(conn.State(), clock.ticks)) ==
      RunPages(Env(fetch, enc, clock.readings, conn.ledgerWriteFails, conn.rawWriteFails, snapshotId, collectedAt),
               old(Sim(conn.State(), clock.ticks)), remaining)
  {
    ghost var env := Env(fetch, enc, clock.readings, conn.ledgerWriteFails, conn.rawWriteFails, snapshotId, collectedAt);
    ghost var s0 := Sim(conn.State(), clock.ticks);
    pages := [];
    var i := 0;
    while i < |remaining|
      invariant 0 <= i <= |remaining|
      invariant (pages, Sim(conn.State(), clock.ticks)) == RunPages(env, s0, remaining[..i])
    {
      var (start, end) := remaining[i];
      var page, _ := RunPage(conn, clock, fetch, enc, snapshotId, collectedAt, start, end);
      assert remaining[..i + 1][..i] == remaining[..i];
      pages := pages + [page];
      i := i + 1;
    }
    assert remaining[..i] == remaining;
  }

  /** `run_snapshot_once`; `clock` gives `snapshot_collected_at` first and then every
      `called_at`. */
  method RunSnapshotOnce(
    conn: Connection, clock: Clock, fetch: Fetch, enc: RowEncoding, snapshotId: string,
    callRanges: Option<seq<(int, int)>>)
    returns (r: RunResult)
    modifies conn, clock
    ensures (r, Sim(conn.State(), clock.ticks)) ==
      RunSpec(World(fetch, enc, clock.readings, conn.ledgerWriteFails, conn.rawWriteFails),
              old(Sim(conn.State(), clock.ticks)), snapshotId, callRanges)
  {
    ghost var s := Sim(conn.State(), clock.ticks);
    ghost var w := World(fetch, enc, clock.readings, conn.ledgerWriteFails, conn.rawWriteFails);
    var collectedAt := clock.Now();
    ghost var env := Env(fetch, enc, clock.readings, conn.ledgerWriteFails, conn.rawWriteFails, snapshotId, collectedAt);
    assert env == Env(w.fetch, w.enc, w.readings, w.ledgerFails, w.rawFails, snapshotId, w.readings(s.ticks));
    assert Sim(conn.State(), clock.ticks) == Sim(s.db, s.ticks + 1);
    var probePages, totalCount, decided, remaining := PlanRun(conn, clock, fetch, enc, snapshotId, collectedAt, callRanges);
    ghost var plan := (probePages, totalCount, decided, remaining, Sim(conn.State(), clock.ticks));
    assert plan == Plan(env, Sim(s.db, s.ticks + 1), callRanges);
    var rest := FetchRemaining(conn, clock, fetch, enc, snapshotId, collectedAt, remaining);
    assert (rest, Sim(conn.State(), clock.ticks)) == RunPages(env, plan.4, plan.3);
    var pages := probePages + rest;
    var errorsTotal := ErrorsTotal(pages);
    var status := if errorsTotal == 0 then RunOk else if errorsTotal == |pages| then RunError else RunPartial;
    r := RunResult(
      snapshotId, remaining, pages, AttemptedTotal(pages), InsertedTotal(pages), DuplicatesTotal(pages),
      errorsTotal, status, totalCount, decided);
    assert r == Summary(snapshotId, plan.3, plan.0 + rest, plan.1, plan.2);
    RunSpecSteps(w, s, snapshotId, callRanges, env, plan, rest, Sim(conn.State(), clock.ticks));
  }

  /** `RunSpec` is the plan, then the loop, then the summary. */
  lemma RunSpecSteps(
    w: World, s: Sim, snapshotId: string, callRanges: Option<seq<(int, int)>>, env: Env,
    plan: (seq<PageOutcome>, Option<int>, Option<int>, seq<(int, int)>, Sim), rest: seq<PageOutcome>, after: Sim)
    requires env == Env(w.fetch, w.enc, w.readings, w.ledgerFails, w.rawFails, snapshotId, w.readings(s.ticks))
    requires plan == Plan(env, Sim(s.db, s.ticks + 1), callRanges)
    requires rest == RunPages(env, plan.4, plan.3).0 && after == RunPages(env, plan.4, plan.3).1
    ensures RunSpec(w, s, snapshotId, callRanges) == (Summary(snapshotId, plan.3, plan.0 + rest, plan.1, plan.2), after)
  {
  }

  // ---------------------------------------------------------------------------
  // Properties of one page

  /** The call-log entry a fetched page writes before its rows. */
  function SuccessEntry(env: Env, s: Sim, start: int, end: int): LedgerEntry {
    var calledAt := env.readings(s.ticks);
    LedgerEntry(calledAt.date, env.snapshotId, start, end, calledAt, StatusSuccess)
  }

  /** The raw records of a fetched page. */
  function FetchedRecords(env: Env, start: int, end: int, data: PageData): seq<RawRecord> {
    PageRecords(env.enc, env.snapshotId, env.collectedAt, start, end, data.rows)
  }

  /** The `except` branch leaves no trace of its error call log, whether that write failed or
      not: the state is the rolled-back state, and the page reports zero rows. */
  lemma ErrorPathLeavesNoTrace(env: Env, s: Sim, start: int, end: int, failure: PageFailure)
    ensures ErrorPath(env, s, start, end, failure)
      == (PageOutcome(start, end, false, 0, 0, 0, Some(failure)), Sim(s.db.Rollback(), s.ticks + 1))
  {
  }

  /** A page is `"ok"` exactly when its fetch, its success call log and (for a non-empty page)
      its insert all go through; it then reports the fetched rows and its `total_count`, and
      otherwise zero rows, no total and the cause of its failure. */
  lemma PageStepOutcome(env: Env, s: Sim, start: int, end: int)
    ensures var (o, total, _) := PageStep(env, s, start, end);
      var f := env.fetch(start, end);
      o.start == start && o.end == end && (o.ok <==> o.error.None?)
      && (o.ok <==>
            (f.Success? && !env.ledgerFails(SuccessEntry(env, s, start, end))
             && (FetchedRecords(env, start, end, f.value) != [] ==> !env.rawFails(FetchedRecords(env, start, end, f.value)))))
      && o.insertedRows + o.skippedDuplicates == o.attemptedRows && 0 <= o.insertedRows <= o.attemptedRows
      && (o.ok ==> o.attemptedRows == |f.value.rows| && total == f.value.totalCount)
      && (!o.ok ==> o.attemptedRows == 0 && total == None)
      && (f.Failure? ==> o.error == Some(FetchFailed(f.error)))
      && (f.Success? && env.ledgerFails(SuccessEntry(env, s, start, end)) ==> o.error == Some(CallLogFailed))
  {
    var f := env.fetch(start, end);
    if f.Success? {
      var db1 := InsertCallLogSpec(s.db, env.ledgerFails, env.snapshotId, start, end, env.readings(s.ticks), StatusSuccess).1;
      IngestCountsBalance(db1, env.rawFails, env.enc, env.snapshotId, env.collectedAt, start, end, f.value.rows);
    }
  }

  /** Every page ends its transaction. A successful page commits once: its success call log
      and its rows become committed. A failed page rolls back once and is left exactly as the
      rollback leaves it, so nothing of it is committed, not even its error call log. */
  lemma PageStepState(env: Env, s: Sim, start: int, end: int)
    ensures var (o, _, s2) := PageStep(env, s, start, end);
      s2.db.Settled()
      && (!o.ok ==> s2.db == s.db.Rollback())
      && (o.ok ==> env.fetch(start, end).Success?)
      && (o.ok ==>
            (s2.db.commits == s.db.commits + 1 && s2.db.rollbacks == s.db.rollbacks
             && s2.db.committedLedger == UpsertEntry(s.db.ledger, SuccessEntry(env, s, start, end))
             && s2.db.committedRaw == BulkUpsert(s.db.raw, FetchedRecords(env, start, end, env.fetch(start, end).value)).0
             && s2.ticks == s.ticks + 1))
  {
    var f := env.fetch(start, end);
    if f.Success? {
      var db1 := InsertCallLogSpec(s.db, env.ledgerFails, env.snapshotId, start, end, env.readings(s.ticks), StatusSuccess).1;
      IngestRowsPageEffect(db1, env.rawFails, env.enc, env.snapshotId, env.collectedAt, start, end, f.value.rows);
    }
  }

  // ---------------------------------------------------------------------------
  // Properties of the loop

  /** What every page outcome satisfies, for the range it was fetched for. */
  predicate PageShaped(env: Env, range: (int, int), o: PageOutcome) {
    o.start == range.0 && o.end == range.1 && (o.ok <==> o.error.None?)
    && o.insertedRows + o.skippedDuplicates == o.attemptedRows && 0 <= o.insertedRows <= o.attemptedRows
    && (!o.ok ==> o.attemptedRows == 0)
    && (o.ok ==> env.fetch(range.0, range.1).Success?)
    && (env.fetch(range.0, range.1).Failure? ==> o.error == Some(FetchFailed(env.fetch(range.0, range.1).error)))
  }

  lemma PageStepShaped(env: Env, s: Sim, range: (int, int))
    ensures PageShaped(env, range, PageStep(env, s, range.0, range.1).0)
  {
    PageStepOutcome(env, s, range.0, range.1);
  }

  /** Every page of `ps` is shaped for the range at the same position. */
  predicate AllShaped(env: Env, ranges: seq<(int, int)>, ps: seq<PageOutcome>)
    decreases |ranges|
  {
    |ps| == |ranges|
    && (ranges != [] ==>
          AllShaped(env, ranges[..|ranges| - 1], ps[..|ps| - 1])
          && PageShaped(env, ranges[|ranges| - 1], ps[|ps| - 1]))
  }

  lemma {:induction false} AllShapedAt(env: Env, ranges: seq<(int, int)>, ps: seq<PageOutcome>)
    requires AllShaped(env, ranges, ps)
    ensures |ps| == |ranges| && forall i :: 0 <= i < |ranges| ==> PageShaped(env, ranges[i], ps[i])
    decreases |ranges|
  {
    if ranges != [] {
      var n := |ranges| - 1;
      AllShapedAt(env, ranges[..n], ps[..n]);
      forall i | 0 <= i < n ensures PageShaped(env, ranges[i], ps[i]) {
        assert ranges[..n][i] == ranges[i] && ps[..n][i] == ps[i];
      }
    }
  }

  lemma {:induction false} RunPagesAllShaped(env: Env, s: Sim, ranges: seq<(int, int)>)
    ensures AllShaped(env, ranges, RunPages(env, s, ranges).0)
    decreases |ranges|
  {
    if ranges != [] {
      var n := |ranges| - 1;
      RunPagesAllShaped(env, s, ranges[..n]);
      var (done, s1) := RunPages(env, s, ranges[..n]);
      PageStepShaped(env, s1, ranges[n]);
      var ps := RunPages(env, s, ranges).0;
      assert ps[..|ps| - 1] == done;
    }
  }

  /** One page per range, in range order; a failed page does not stop the loop. */
  lemma RunPagesShape(env: Env, s: Sim, ranges: seq<(int, int)>)
    ensures var ps := RunPages(env, s, ranges).0;
      |ps| == |ranges| && forall i :: 0 <= i < |ranges| ==> PageShaped(env, ranges[i], ps[i])
  {
    RunPagesAllShaped(env, s, ranges);
    AllShapedAt(env, ranges, RunPages(env, s, ranges).0);
  }

  /** The loop commits once per successful page and rolls back once per failed page, ends with
      nothing pending, and commits nothing at all when every page fails. */
  lemma {:induction false} RunPagesCounters(env: Env, s: Sim, ranges: seq<(int, int)>)
    ensures var (ps, s2) := RunPages(env, s, ranges);
      s2.db.commits + ErrorsTotal(ps) == s.db.commits + |ps|
      && s2.db.rollbacks == s.db.rollbacks + ErrorsTotal(ps)
      && (ranges != [] ==> s2.db.Settled())
      && (ErrorsTotal(ps) == |ps| ==>
            s2.db.committedLedger == s.db.committedLedger && s2.db.committedRaw == s.db.committedRaw)
    decreases |ranges|
  {
    if ranges != [] {
      var n := |ranges| - 1;
      RunPagesCounters(env, s, ranges[..n]);
      var (done, s1) := RunPages(env, s, ranges[..n]);
      PageStepState(env, s1, ranges[n].0, ranges[n].1);
      ErrorsTotalCounts(done);
      var ps := RunPages(env, s, ranges).0;
      assert ps[..|ps| - 1] == done;
    }
  }

  // ---------------------------------------------------------------------------
  // Properties of the summary

  /** The totals of pages that each balance balance too. */
  lemma {:induction false} TotalsBalance(ps: seq<PageOutcome>)
    requires forall i :: 0 <= i < |ps| ==>
      ps[i].insertedRows + ps[i].skippedDuplicates == ps[i].attemptedRows && 0 <= ps[i].insertedRows <= ps[i].attemptedRows
    ensures InsertedTotal(ps) + DuplicatesTotal(ps) == AttemptedTotal(ps) && 0 <= InsertedTotal(ps) <= AttemptedTotal(ps)
    decreases |ps|
  {
    if ps != [] {
      TotalsBalance(ps[..|ps| - 1]);
    }
  }

  /** `errors_total` counts the failed pages: it is zero exactly when every page is `"ok"`, and
      the number of pages exactly when none is. */
  lemma {:induction false} ErrorsTotalCounts(ps: seq<PageOutcome>)
    ensures ErrorsTotal(ps) <= |ps|
    ensures ErrorsTotal(ps) == 0 <==> forall i :: 0 <= i < |ps| ==> ps[i].ok
    ensures ErrorsTotal(ps) == |ps| <==> forall i :: 0 <= i < |ps| ==> !ps[i].ok
    decreases |ps|
  {
    if ps != [] {
      var init := ps[..|ps| - 1];
      ErrorsTotalCounts(init);
      assert forall i :: 0 <= i < |init| ==> init[i] == ps[i];
    }
  }

  lemma {:induction false} ErrorsTotalConcat(a: seq<PageOutcome>, b: seq<PageOutcome>)
    ensures ErrorsTotal(a + b) == ErrorsTotal(a) + ErrorsTotal(b)
    decreases |b|
  {
    if b == [] {
      assert a + b == a;
    } else {
      assert (a + b)[..|a + b| - 1] == a + b[..|b| - 1];
      assert (a + b)[|a + b| - 1] == b[|b| - 1];
      ErrorsTotalConcat(a, b[..|b| - 1]);
    }
  }

  // ---------------------------------------------------------------------------
  // Properties of a run

  /** The environment of the pages of a run started in state `s`. */
  function RunEnv(w: World, s: Sim, snapshotId: string): Env {
    Env(w.fetch, w.enc, w.readings, w.ledgerFails, w.rawFails, snapshotId, w.readings(s.ticks))
  }

  /** Without supplied ranges the probe `(0, 999)` is the first page and the remaining ranges
      follow it. `decided_page_count` is 4 exactly when the probe succeeded with a
      `total_count` above 3000, and 3 otherwise, a failed probe included; the remaining ranges
      are pages two and three, plus page four when 4 was decided, and never `(0, 999)` again. */
  lemma DynamicRun(w: World, s: Sim, snapshotId: string)
    ensures var r := RunSpec(w, s, snapshotId, None).0;
      |r.pages| == |r.ranges| + 1
      && r.pages[0].start == 0 && r.pages[0].end == 999
      && (r.pages[0].ok ==> w.fetch(0, 999).Success?)
      && r.totalCount == (if r.pages[0].ok then w.fetch(0, 999).value.totalCount else None)
      && (r.decidedPageCount == Some(4) <==>
            (r.pages[0].ok && w.fetch(0, 999).value.totalCount.Some? && w.fetch(0, 999).value.totalCount.value > 3000))
      && (r.decidedPageCount == Some(3) || r.decidedPageCount == Some(4))
      && r.ranges == (if r.decidedPageCount == Some(4) then [(1000, 1999), (2000, 2999), (3000, 3999)]
                      else [(1000, 1999), (2000, 2999)])
      && (0, 999) !in r.ranges
      && forall i :: 0 <= i < |r.ranges| ==> r.pages[i + 1].start == r.ranges[i].0 && r.pages[i + 1].end == r.ranges[i].1
  {
    var env := RunEnv(w, s, snapshotId);
    var s0 := Sim(s.db, s.ticks + 1);
    var plan := Plan(env, s0, None);
    ProbePlan(env, s0);
    var rest := RunPages(env, plan.4, plan.3);
    RunPagesShape(env, plan.4, plan.3);
    ProbeThenRest(env, plan.0, plan.3, rest.0);
    RunSpecSteps(w, s, snapshotId, None, env, plan, rest.0, rest.1);
    var r := Summary(snapshotId, plan.3, plan.0 + rest.0, plan.1, plan.2);
    assert RunSpec(w, s, snapshotId, None).0 == r;
  }

  /** One probe page followed by the loop's pages: the probe first, then one page per range,
      each at its own range. */
  lemma ProbeThenRest(env: Env, probe: seq<PageOutcome>, ranges: seq<(int, int)>, rest: seq<PageOutcome>)
    requires |probe| == 1 && |rest| == |ranges|
    requires forall i :: 0 <= i < |ranges| ==> PageShaped(env, ranges[i], rest[i])
    ensures var pages := probe + rest;
      |pages| == |ranges| + 1 && pages[0] == probe[0]
      && forall i :: 0 <= i < |ranges| ==> pages[i + 1].start == ranges[i].0 && pages[i + 1].end == ranges[i].1
  {
    var pages := probe + rest;
    forall i | 0 <= i < |ranges| ensures pages[i + 1] == rest[i] {
    }
  }

  /** The plan of a run without supplied ranges: the probe page, its `total_count` when it
      succeeded, and the decision taken from that. */
  lemma ProbePlan(env: Env, s: Sim)
    ensures var plan := Plan(env, s, None);
      var f := env.fetch(0, 999);
      |plan.0| == 1 && plan.0[0].start == 0 && plan.0[0].end == 999
      && (plan.0[0].ok ==> f.Success?)
      && plan.1 == (if plan.0[0].ok then f.value.totalCount else None)
      && plan.2 == Some(DecidePageCount(plan.1))
      && plan.3 == RemainingRanges(DecidePageCount(plan.1))
  {
    PageStepOutcome(env, s, 0, 999);
  }

  /** With supplied ranges there is no probe: every supplied range, and only those, is fetched
      once in the order given, and `total_count` and `decided_page_count` are `None`. */
  lemma SuppliedRun(w: World, s: Sim, snapshotId: string, ranges: seq<(int, int)>)
    ensures var r := RunSpec(w, s, snapshotId, Some(ranges)).0;
      r.ranges == ranges && |r.pages| == |ranges| && r.totalCount == None && r.decidedPageCount == None
      && forall i :: 0 <= i < |ranges| ==> r.pages[i].start == ranges[i].0 && r.pages[i].end == ranges[i].1
  {
    var env := RunEnv(w, s, snapshotId);
    var s0 := Sim(s.db, s.ticks + 1);
    RunPagesShape(env, s0, ranges);
    var rest := RunPages(env, s0, ranges);
    RunSpecSteps(w, s, snapshotId, Some(ranges), env, Plan(env, s0, Some(ranges)), rest.0, rest.1);
    assert [] + rest.0 == rest.0;
    forall i | 0 <= i < |ranges| ensures PageShaped(env, ranges[i], rest.0[i]) {
    }
  }

  /** An empty supplied list fetches nothing and reports `"ok"`. */
  lemma NoRangesIsOk(w: World, s: Sim, snapshotId: string)
    ensures RunSpec(w, s, snapshotId, Some([]))
      == (RunResult(snapshotId, [], [], 0, 0, 0, 0, RunOk, None, None), Sim(s.db, s.ticks + 1))
  {
    var env := RunEnv(w, s, snapshotId);
    var s0 := Sim(s.db, s.ticks + 1);
    RunSpecSteps(w, s, snapshotId, Some([]), env, Plan(env, s0, Some([])), [], s0);
  }

  /** A page whose counts balance. */
  predicate Balanced(o: PageOutcome) {
    o.insertedRows + o.skippedDuplicates == o.attemptedRows && 0 <= o.insertedRows <= o.attemptedRows
  }

  /** What a sequence of pages did to the connection, taking it from `d0` to `d1`: every page
      balances, one commit per successful page, one rollback per failed page, nothing pending
      after the last page, and nothing newly committed when every page failed. */
  predicate Accounted(ps: seq<PageOutcome>, d0: Db, d1: Db) {
    (forall i :: 0 <= i < |ps| ==> Balanced(ps[i]))
    && d1.commits + ErrorsTotal(ps) == d0.commits + |ps|
    && d1.rollbacks == d0.rollbacks + ErrorsTotal(ps)
    && (ps != [] ==> d1.Settled())
    && (ps == [] ==> d1 == d0)
    && (ErrorsTotal(ps) == |ps| ==> d1.committedLedger == d0.committedLedger && d1.committedRaw == d0.committedRaw)
  }

  lemma AccountedConcat(a: seq<PageOutcome>, b: seq<PageOutcome>, d0: Db, d1: Db, d2: Db)
    requires Accounted(a, d0, d1) && Accounted(b, d1, d2)
    ensures Accounted(a + b, d0, d2)
  {
    ErrorsTotalConcat(a, b);
    ErrorsTotalCounts(a);
    ErrorsTotalCounts(b);
    forall i | 0 <= i < |a + b| ensures Balanced((a + b)[i]) {
      if i < |a| {
        assert (a + b)[i] == a[i];
      } else {
        assert (a + b)[i] == b[i - |a|];
      }
    }
  }

  lemma PlanAccounted(env: Env, s: Sim, callRanges: Option<seq<(int, int)>>)
    ensures var plan := Plan(env, s, callRanges); Accounted(plan.0, s.db, plan.4.db)
  {
    if callRanges.None? {
      PageStepOutcome(env, s, 0, 999);
      PageStepState(env, s, 0, 999);
      var step := PageStep(env, s, 0, 999);
      assert Plan(env, s, callRanges).0 == [step.0] && Plan(env, s, callRanges).4 == step.2;
      OnePageAccounted(step.0, s.db, step.2.db);
    }
  }

  /** One page's outcome against the database before and after it. */
  lemma OnePageAccounted(o: PageOutcome, d0: Db, d1: Db)
    requires Balanced(o) && d1.Settled()
    requires !o.ok ==> d1 == d0.Rollback()
    requires o.ok ==> d1.commits == d0.commits + 1 && d1.rollbacks == d0.rollbacks
    ensures Accounted([o], d0, d1)
  {
    assert [o][..0] == [];
  }

  lemma RunPagesAccounted(env: Env, s: Sim, ranges: seq<(int, int)>)
    ensures var (ps, s2) := RunPages(env, s, ranges); Accounted(ps, s.db, s2.db)
  {
    RunPagesShape(env, s, ranges);
    RunPagesCounters(env, s, ranges);
    var ps := RunPages(env, s, ranges).0;
    assert forall i :: 0 <= i < |ps| ==> PageShaped(env, ranges[i], ps[i]);
  }

  /** The pages of a run and the state it ends in. */
  lemma RunPagesOfRun(w: World, s: Sim, snapshotId: string, callRanges: Option<seq<(int, int)>>)
    ensures var (r, s2) := RunSpec(w, s, snapshotId, callRanges);
      (forall i :: 0 <= i < |r.pages| ==>
         r.pages[i].insertedRows + r.pages[i].skippedDuplicates == r.pages[i].attemptedRows
         && 0 <= r.pages[i].insertedRows <= r.pages[i].attemptedRows)
      && s2.db.commits + ErrorsTotal(r.pages) == s.db.commits + |r.pages|
      && s2.db.rollbacks == s.db.rollbacks + ErrorsTotal(r.pages)
      && (r.pages != [] ==> s2.db.Settled())
      && (ErrorsTotal(r.pages) == |r.pages| ==>
            s2.db.committedLedger == s.db.committedLedger && s2.db.committedRaw == s.db.committedRaw)
  {
    var env := RunEnv(w, s, snapshotId);
    var s0 := Sim(s.db, s.ticks + 1);
    var plan := Plan(env, s0, callRanges);
    var rest := RunPages(env, plan.4, plan.3);
    RunSpecSteps(w, s, snapshotId, callRanges, env, plan, rest.0, rest.1);
    PlanAccounted(env, s0, callRanges);
    RunPagesAccounted(env, plan.4, plan.3);
    AccountedConcat(plan.0, rest.0, s.db, plan.4.db, rest.1.db);
    var pages := plan.0 + rest.0;
    assert forall i :: 0 <= i < |pages| ==> Balanced(pages[i]);
  }

  /** The summary of every run: `status` is `"ok"` exactly when no page failed, `"error"`
      exactly when every page of at least one failed, and `"partial"` otherwise; the totals
      balance; the run commits once per successful page and rolls back once per failed one,
      ends with nothing pending, and commits nothing when every page failed. */
  lemma RunSummary(w: World, s: Sim, snapshotId: string, callRanges: Option<seq<(int, int)>>)
    ensures var (r, s2) := RunSpec(w, s, snapshotId, callRanges);
      r.snapshotId == snapshotId
      && r.errorsTotal <= |r.pages|
      && (r.errorsTotal == 0 <==> forall i :: 0 <= i < |r.pages| ==> r.pages[i].ok)
      && (r.errorsTotal == |r.pages| <==> forall i :: 0 <= i < |r.pages| ==> !r.pages[i].ok)
      && (r.status == RunOk <==> r.errorsTotal == 0)
      && (r.status == RunError <==> (r.errorsTotal == |r.pages| && |r.pages| > 0))
      && (r.status == RunPartial <==> (0 < r.errorsTotal < |r.pages|))
      && r.insertedTotal + r.duplicatesTotal == r.attemptedTotal && 0 <= r.insertedTotal <= r.attemptedTotal
      && s2.db.commits + r.errorsTotal == s.db.commits + |r.pages|
      && s2.db.rollbacks == s.db.rollbacks + r.errorsTotal
      && (r.pages != [] ==> s2.db.Settled())
      && (r.status == RunError ==>
            s2.db.committedLedger == s.db.committedLedger && s2.db.committedRaw == s.db.committedRaw)
  {
    var (r, s2) := RunSpec(w, s, snapshotId, callRanges);
    RunPagesOfRun(w, s, snapshotId, callRanges);
    ErrorsTotalCounts(r.pages);
    TotalsBalance(r.pages);
    assert r == Summary(snapshotId, r.ranges, r.pages, r.totalCount, r.decidedPageCount);
  }
}
