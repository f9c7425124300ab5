/** `scripts/step7_run_orchestrator_once.py`: read `--ranges`, count today's successful calls
    in the call log, run the orchestrator once at the clock's current time and exit 0 exactly
    when it executed. */
module OrchestratorScript {
  import opened Wrappers
  import opened CivilTime
  import opened Store
  import opened RangeArgs
  import opened Scheduler
  import opened Budget
  import opened RawIngest
  import opened SeoulSubway
  import opened SnapshotRunner
  import opened Orchestrator

  // ---------------------------------------------------------------------------
  // get_used_calls_today

  /** The keys of the ledger entries that count against the budget of `today`: calls dated
      `today` whose status is `'success'`. */
  function CountedKeys(ledger: Ledger, today: Date): set<PageKey> {
    set k | k in ledger && ledger[k].callDate == today && ledger[k].status == StatusSuccess
  }

  /** `get_used_calls_today(mysql_conn, today)`: `SELECT COUNT(*)` over those entries. */
  function UsedCallsToday(ledger: Ledger, today: Date): (n: nat)
    ensures n <= |ledger|
  {
    assert CountedKeys(ledger, today) <= ledger.Keys;
    CardinalityOfSubset(CountedKeys(ledger, today), ledger.Keys);
    |CountedKeys(ledger, today)|
  }

  lemma CardinalityOfSubset<T>(a: set<T>, b: set<T>)
    requires a <= b
    ensures |a| <= |b|
  {
    assert b == a + (b - a);
  }

  /** A call entered under a new key raises today's count by one exactly when it is a success
      dated today; error entries and other days' calls are never counted. */
  lemma NewEntryCount(l: Ledger, e: LedgerEntry, today: Date)
    requires KeyOf(e) !in l
    ensures UsedCallsToday(UpsertEntry(l, e), today)
      == UsedCallsToday(l, today) + (if e.callDate == today && e.status == StatusSuccess then 1 else 0)
  {
    var k := KeyOf(e);
    var before := CountedKeys(l, today);
    var after := CountedKeys(l[k := e], today);
    assert UpsertEntry(l, e) == l[k := e];
    assert UsedCallsToday(l[k := e], today) == |after|;
    assert UsedCallsToday(l, today) == |before|;
    CountedAfterStore(l, k, e, today);
    assert k !in before;
    CountStep(before, after, k, e.callDate == today && e.status == StatusSuccess);
  }

  /** Removing an absent key, then adding it back or not, grows a set by one or by nothing. */
  lemma CountStep<T>(before: set<T>, after: set<T>, k: T, counted: bool)
    requires k !in before && after == (before - {k}) + (if counted then {k} else {})
    ensures |after| == |before| + (if counted then 1 else 0)
  {
    assert before - {k} == before;
  }

  /** Storing `e` under `k` changes the counted keys only at `k`. */
  lemma CountedAfterStore(l: Ledger, k: PageKey, e: LedgerEntry, today: Date)
    ensures var counted := e.callDate == today && e.status == StatusSuccess;
      CountedKeys(l[k := e], today) == (CountedKeys(l, today) - {k}) + (if counted then {k} else {})
  {
  }

  /** Rewriting an existing call as an error takes it out of the count, if it was counted. */
  lemma ErrorRewriteCount(l: Ledger, e: LedgerEntry, today: Date)
    requires KeyOf(e) in l && e.status == StatusError
    ensures UsedCallsToday(UpsertEntry(l, e), today)
      == UsedCallsToday(l, today) - (if KeyOf(e) in CountedKeys(l, today) then 1 else 0)
  {
    var k := KeyOf(e);
    var e2 := l[k].(status := e.status, calledAt := e.calledAt);
    assert UpsertEntry(l, e) == l[k := e2];
    CountedAfterStore(l, k, e2, today);
  }

  // ---------------------------------------------------------------------------
  // main

  /** The exit status of `main` and the state it leaves; `last` is what
      `get_last_snapshot_at` reads. */
  function ScriptSpec(w: World, s: Sim, rangesArg: Option<string>, apiKey: Option<string>, last: Option<DateTime>)
    : (int, Sim)
  {
    match RangesArgument(rangesArg)
    case Failure(_) => (1, s)
    case Success(callRanges) =>
      if ApiKeyMissing(apiKey) then (1, s)
      else
        var now := Instant(w.readings(s.ticks), true);
        var used := UsedCallsToday(s.db.ledger, now.local.date);
        var run := OrchestratorSpec(w, Sim(s.db, s.ticks + 1), now, callRanges, last, used);
        (if run.0.Success? && run.0.value.executed then 0 else 1, run.1)
  }

  method RunScript(
    conn: Connection, clock: Clock, fetch: Fetch, enc: RowEncoding, rangesArg: Option<string>,
    apiKey: Option<string>, lastSnapshotAt: Option<DateTime>)
    returns (exitCode: int)
    modifies conn, clock
    ensures (exitCode, Sim(conn.State(), clock.ticks)) ==
      ScriptSpec(World(fetch, enc, clock.readings, conn.ledgerWriteFails, conn.rawWriteFails),
                 old(Sim(conn.State(), clock.ticks)), rangesArg, apiKey, lastSnapshotAt)
  {
    ghost var s := Sim(conn.State(), clock.ticks);
    var callRanges := ParseRangesArgument(rangesArg);
    if callRanges.Failure? {
      return 1;
    }
    if apiKey.None? || apiKey.value == "" {
      return 1;
    }
    ghost var w := World(fetch, enc, clock.readings, conn.ledgerWriteFails, conn.rawWriteFails);
    var local := clock.Now();
    var now := Instant(local, true);
    var usedCallsToday := UsedCallsToday(conn.ledger, now.local.date);
    assert Sim(conn.State(), clock.ticks) == Sim(s.db, s.ticks + 1);
    assert now == Instant(w.readings(s.ticks), true);
    assert usedCallsToday == UsedCallsToday(s.db.ledger, w.readings(s.ticks).date);
    var result := RunOrchestratorOnce(conn, clock, fetch, enc, now, callRanges.value, lastSnapshotAt, usedCallsToday);
    if result.Success? && result.value.executed {
      exitCode := 0;
    } else {
      exitCode := 1;
    }
    ScriptSpecSteps(w, s, rangesArg, apiKey, lastSnapshotAt, callRanges.value, result, Sim(conn.State(), clock.ticks));
  }

  /** `ScriptSpec` once the arguments are usable: the orchestrator at the first clock reading. */
  lemma ScriptSpecSteps(
    w: World, s: Sim, rangesArg: Option<string>, apiKey: Option<string>, last: Option<DateTime>,
    callRanges: Option<seq<(int, int)>>, r: Result<OrchestratorResult, PolicyError>, after: Sim)
    requires RangesArgument(rangesArg) == Success(callRanges) && !ApiKeyMissing(apiKey)
    requires var run := OrchestratorSpec(w, Sim(s.db, s.ticks + 1), Instant(w.readings(s.ticks), true), callRanges,
      last, UsedCallsToday(s.db.ledger, w.readings(s.ticks).date));
      r == run.0 && after == run.1
    ensures ScriptSpec(w, s, rangesArg, apiKey, last) == (if r.Success? && r.value.executed then 0 else 1, after)
  {
  }

  /** The script exits 0 exactly when its arguments are usable and every gate of the
      orchestrator passes at the clock's current time: the time policy collects, the interval
      since the last snapshot has elapsed, and at most 996 successful calls are logged for
      today. Otherwise it exits 1. */
  lemma ExitCodeDecision(w: World, s: Sim, rangesArg: Option<string>, apiKey: Option<string>, last: Option<DateTime>)
    ensures var (code, _) := ScriptSpec(w, s, rangesArg, apiKey, last);
      var now := Instant(w.readings(s.ticks), true);
      var policy := DecideCollection(now).value;
      (code == 0 || code == 1)
      && (code == 0 <==>
            (RangesArgument(rangesArg).Success? && !ApiKeyMissing(apiKey) && policy.shouldCollect
             && (last.None? || ElapsedSeconds(now.local, last.value) >= policy.intervalSeconds)
             && UsedCallsToday(s.db.ledger, now.local.date) <= 996))
  {
    var now := Instant(w.readings(s.ticks), true);
    var used := UsedCallsToday(s.db.ledger, now.local.date);
    if RangesArgument(rangesArg).Success? && !ApiKeyMissing(apiKey) {
      ExecutedIffAllGatesPass(w, Sim(s.db, s.ticks + 1), now, RangesArgument(rangesArg).value, last, used);
      FourCallsUnderDefaultLimit(now.local.date, used);
    }
  }

  /** Unusable arguments end the script with 1 before the clock, the database or the
      provider is touched. */
  lemma BadArgumentsTouchNothing(w: World, s: Sim, rangesArg: Option<string>, apiKey: Option<string>, last: Option<DateTime>)
    requires RangesArgument(rangesArg).Failure? || ApiKeyMissing(apiKey)
    ensures ScriptSpec(w, s, rangesArg, apiKey, last) == (1, s)
  {
  }

  /** Without `--ranges` (or with an empty one) the orchestrator gets `None`, so an executed run
      probes `(0, 999)` first; with parsed ranges it gets exactly those. */
  lemma RangesReachOrchestrator(w: World, s: Sim, rangesArg: Option<string>, apiKey: Option<string>, last: Option<DateTime>)
    requires RangesArgument(rangesArg).Success? && !ApiKeyMissing(apiKey)
    ensures var now := Instant(w.readings(s.ticks), true);
      var used := UsedCallsToday(s.db.ledger, now.local.date);
      var callRanges := if rangesArg.None? || rangesArg.value == "" then None else Some(ParseRangesSpec(rangesArg.value).value);
      ScriptSpec(w, s, rangesArg, apiKey, last).1
        == OrchestratorSpec(w, Sim(s.db, s.ticks + 1), now, callRanges, last, used).1
  {
    var callRanges := RangesArgument(rangesArg).value;
    var run := OrchestratorSpec(w, Sim(s.db, s.ticks + 1), Instant(w.readings(s.ticks), true), callRanges,
      last, UsedCallsToday(s.db.ledger, w.readings(s.ticks).date));
    ScriptSpecSteps(w, s, rangesArg, apiKey, last, callRanges, run.0, run.1);
  }
}
