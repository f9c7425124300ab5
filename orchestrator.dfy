/** `run_orchestrator_once`: the time policy, the interval since the last snapshot and the daily
    budget, checked in that order; the first gate that says no ends the call, and when all
    pass the snapshot runner runs once under a snapshot id made from `now`. */
module Orchestrator {
  import opened Wrappers
  import opened CivilTime
  import opened Scheduler
  import opened Budget
  import opened RawIngest
  import opened SeoulSubway
  import opened SnapshotRunner

  /** The budget is always checked for the largest run, four pages, whatever ranges are given. */
  const RequiredCalls := 4

  datatype Reason = TimePolicyBlocked | IntervalNotElapsed | BudgetBlocked | Executed

  /** The dictionary `run_orchestrator_once` returns; `totalCount` and `decidedPageCount` are
      only present (here: only `Some`) on an executed run that reported them. */
  datatype OrchestratorResult = OrchestratorResult(
    executed: bool, reason: Reason, snapshotId: Option<string>, lastSnapshotAt: Option<DateTime>,
    intervalSeconds: Option<int>, elapsedSeconds: Option<int>,
    totalCount: Option<int>, decidedPageCount: Option<int>)

  /** Where the gates leave a call: stopped with its result, or through with the interval the
      time policy recommended. */
  datatype Gate = Stopped(result: OrchestratorResult) | Passed(intervalSeconds: int)

  /** `(now - last_snapshot_at).total_seconds()`, when there is a last snapshot. */
  function ElapsedSince(now: Instant, last: Option<DateTime>): Option<int> {
    if last.Some? then Some(ElapsedSeconds(now.local, last.value)) else None
  }

  /** The three gates; `decide_collection` raising `ValueError` for a naive `now` is the
      failure. */
  function Gates(now: Instant, last: Option<DateTime>, usedCallsToday: int): Result<Gate, PolicyError> {
    match DecideCollection(now)
    case Failure(e) => Failure(e)
    case Success(policy) =>
      if !policy.shouldCollect then
        Success(Stopped(OrchestratorResult(false, TimePolicyBlocked, None, None, None, None, None, None)))
      else
        var interval := policy.intervalSeconds;
        if last.Some? && ElapsedSeconds(now.local, last.value) < interval then
          Success(Stopped(OrchestratorResult(
            false, IntervalNotElapsed, None, last, Some(interval), ElapsedSince(now, last), None, None)))
        else if !CheckBudget(now.local.date, usedCallsToday, RequiredCalls).shouldCollect then
          Success(Stopped(OrchestratorResult(
            false, BudgetBlocked, None, last, Some(interval), ElapsedSince(now, last), None, None)))
        else Success(Passed(interval))
  }

  /** `run_orchestrator_once(now=..., call_ranges=..., provider=..., mysql_conn=..., clock=...,
      used_calls_today=...)`, with `get_last_snapshot_at(mysql_conn)` given as `last`. */
  function OrchestratorSpec(
    w: World, s: Sim, now: Instant, callRanges: Option<seq<(int, int)>>, last: Option<DateTime>, usedCallsToday: int)
    : (Result<OrchestratorResult, PolicyError>, Sim)
  {
    match Gates(now, last, usedCallsToday)
    case Failure(e) => (Failure(e), s)
    case Success(Stopped(result)) => (Success(result), s)
    case Success(Passed(interval)) =>
      var snapshotId := FormatCompact(now.local);
      var (run, s2) := RunSpec(w, s, snapshotId, callRanges);
      (Success(OrchestratorResult(
         true, Executed, Some(snapshotId), last, Some(interval), ElapsedSince(now, last),
         run.totalCount, run.decidedPageCount)), s2)
  }

  method RunOrchestratorOnce(
    conn: Store.Connection, clock: Clock, fetch: Fetch, enc: RowEncoding, now: Instant,
    callRanges: Option<seq<(int, int)>>, lastSnapshotAt: Option<DateTime>, usedCallsToday: int)
    returns (r: Result<OrchestratorResult, PolicyError>)
    modifies conn, clock
    ensures (r, Sim(conn.State(), clock.ticks)) ==
      OrchestratorSpec(World(fetch, enc, clock.readings, conn.ledgerWriteFails, conn.rawWriteFails),
                       old(Sim(conn.State(), clock.ticks)), now, callRanges, lastSnapshotAt, usedCallsToday)
  {
    var timePolicy := DecideCollection(now);
    if timePolicy.Failure? {
      return Failure(timePolicy.error);
    }
    if !timePolicy.value.shouldCollect {
      return Success(OrchestratorResult(false, TimePolicyBlocked, None, None, None, None, None, None));
    }
    var intervalSeconds := timePolicy.value.intervalSeconds;
    if lastSnapshotAt.Some? {
      var elapsedSeconds := ElapsedSeconds(now.local, lastSnapshotAt.value);
      if elapsedSeconds < intervalSeconds {
        return Success(OrchestratorResult(
          false, IntervalNotElapsed, None, lastSnapshotAt, Some(intervalSeconds), Some(elapsedSeconds), None, None));
      }
    }
    var budget := CheckBudget(now.local.date, usedCallsToday, RequiredCalls);
    var elapsed := if lastSnapshotAt.Some? then Some(ElapsedSeconds(now.local, lastSnapshotAt.value)) else None;
    if !budget.shouldCollect {
      return Success(OrchestratorResult(
        false, BudgetBlocked, None, lastSnapshotAt, Some(intervalSeconds), elapsed, None, None));
    }
    var snapshotId := FormatCompact(now.local);
    var snapshotResult := RunSnapshotOnce(conn, clock, fetch, enc, snapshotId, callRanges);
    return Success(OrchestratorResult(
      true, Executed, Some(snapshotId), lastSnapshotAt, Some(intervalSeconds), elapsed,
      snapshotResult.totalCount, snapshotResult.decidedPageCount));
  }

  // ---------------------------------------------------------------------------
  // The gates

  /** The runner runs exactly when `now` is aware and every gate passes: the time policy says
      to collect, the recommended interval has elapsed since the last snapshot (or there is
      none), and the budget allows four more calls today. */
  lemma ExecutedIffAllGatesPass(
    w: World, s: Sim, now: Instant, callRanges: Option<seq<(int, int)>>, last: Option<DateTime>, usedCallsToday: int)
    ensures var r := OrchestratorSpec(w, s, now, callRanges, last, usedCallsToday).0;
      var policy := DecideCollection(now);
      (r.Success? && r.value.executed) <==>
        (now.aware && policy.value.shouldCollect
         && (last.None? || ElapsedSeconds(now.local, last.value) >= policy.value.intervalSeconds)
         && CheckBudget(now.local.date, usedCallsToday, 4).shouldCollect)
    ensures var r := OrchestratorSpec(w, s, now, callRanges, last, usedCallsToday).0;
      r.Success? ==> (r.value.executed <==> r.value.reason == Executed)
  {
    if now.aware {
      var policy := DecideCollection(now).value;
      if policy.shouldCollect && (last.None? || ElapsedSeconds(now.local, last.value) >= policy.intervalSeconds)
        && CheckBudget(now.local.date, usedCallsToday, 4).shouldCollect
      {
        assert Gates(now, last, usedCallsToday) == Success(Passed(policy.intervalSeconds));
      }
    }
  }

  /** A naive `now` raises before anything else happens. */
  lemma NaiveNowRejected(
    w: World, s: Sim, now: Instant, callRanges: Option<seq<(int, int)>>, last: Option<DateTime>, usedCallsToday: int)
    requires !now.aware
    ensures OrchestratorSpec(w, s, now, callRanges, last, usedCallsToday) == (Failure(NaiveDateTime), s)
  {
  }

  /** When the time policy says no, nothing else is looked at: every other field is empty
      and the runner does not run. */
  lemma TimePolicyGateFirst(
    w: World, s: Sim, now: Instant, callRanges: Option<seq<(int, int)>>, last: Option<DateTime>, usedCallsToday: int)
    requires now.aware && !DecideCollection(now).value.shouldCollect
    ensures OrchestratorSpec(w, s, now, callRanges, last, usedCallsToday)
      == (Success(OrchestratorResult(false, TimePolicyBlocked, None, None, None, None, None, None)), s)
  {
  }

  /** With a last snapshot closer than the interval, the call stops with the last snapshot,
      the interval and the elapsed time; an elapsed time equal to the interval passes this
      gate. */
  lemma IntervalGate(
    w: World, s: Sim, now: Instant, callRanges: Option<seq<(int, int)>>, last: DateTime, usedCallsToday: int)
    requires now.aware && DecideCollection(now).value.shouldCollect
    ensures var interval := DecideCollection(now).value.intervalSeconds;
      var elapsed := ElapsedSeconds(now.local, last);
      var (r, s2) := OrchestratorSpec(w, s, now, callRanges, Some(last), usedCallsToday);
      (elapsed < interval ==>
         (r == Success(OrchestratorResult(false, IntervalNotElapsed, None, Some(last), Some(interval), Some(elapsed), None, None))
          && s2 == s))
      && (elapsed >= interval ==> r.Success? && r.value.reason != IntervalNotElapsed)
  {
  }

  /** Without a last snapshot the interval gate is skipped: the call either runs or stops at
      the budget, and reports no elapsed time. */
  lemma NoLastSnapshotSkipsInterval(
    w: World, s: Sim, now: Instant, callRanges: Option<seq<(int, int)>>, usedCallsToday: int)
    requires now.aware && DecideCollection(now).value.shouldCollect
    ensures var r := OrchestratorSpec(w, s, now, callRanges, None, usedCallsToday).0;
      r.Success? && (r.value.reason == Executed || r.value.reason == BudgetBlocked)
      && r.value.elapsedSeconds == None && r.value.lastSnapshotAt == None
  {
  }

  /** Past the first two gates, the budget stops the call exactly when more than 996 calls were
      used today (four required under the default limit of 1000), whatever ranges were asked
      for; it then reports no snapshot id and the runner does not run. */
  lemma BudgetGate(
    w: World, s: Sim, now: Instant, callRanges: Option<seq<(int, int)>>, last: Option<DateTime>, usedCallsToday: int)
    requires now.aware && DecideCollection(now).value.shouldCollect
    requires last.None? || ElapsedSeconds(now.local, last.value) >= DecideCollection(now).value.intervalSeconds
    ensures var (r, s2) := OrchestratorSpec(w, s, now, callRanges, last, usedCallsToday);
      r.Success?
      && (r.value.reason == BudgetBlocked <==> usedCallsToday > 996)
      && (r.value.reason == BudgetBlocked ==>
            r.value.snapshotId == None && s2 == s
            && r.value.intervalSeconds == Some(DecideCollection(now).value.intervalSeconds)
            && r.value.lastSnapshotAt == last && r.value.elapsedSeconds == ElapsedSince(now, last))
  {
    FourCallsUnderDefaultLimit(now.local.date, usedCallsToday);
  }

  /** An executed call ran the snapshot runner once, under the compact id of `now` and with the
      ranges it was given, and reports the runner's `total_count` and `decided_page_count`. */
  lemma ExecutedRunsRunnerOnce(
    w: World, s: Sim, now: Instant, callRanges: Option<seq<(int, int)>>, last: Option<DateTime>, usedCallsToday: int)
    requires OrchestratorSpec(w, s, now, callRanges, last, usedCallsToday).0.Success?
    requires OrchestratorSpec(w, s, now, callRanges, last, usedCallsToday).0.value.executed
    ensures var (r, s2) := OrchestratorSpec(w, s, now, callRanges, last, usedCallsToday);
      var (run, s3) := RunSpec(w, s, FormatCompact(now.local), callRanges);
      r.value.snapshotId == Some(FormatCompact(now.local)) && s2 == s3
      && r.value.totalCount == run.totalCount && r.value.decidedPageCount == run.decidedPageCount
      && r.value.intervalSeconds == Some(DecideCollection(now).value.intervalSeconds)
      && r.value.lastSnapshotAt == last && r.value.elapsedSeconds == ElapsedSince(now, last)
  {
    ExecutedIffAllGatesPass(w, s, now, callRanges, last, usedCallsToday);
    assert Gates(now, last, usedCallsToday) == Success(Passed(DecideCollection(now).value.intervalSeconds));
  }

  /** A call that did not run the runner left the connection and the clock alone. */
  lemma StoppedChangesNothing(
    w: World, s: Sim, now: Instant, callRanges: Option<seq<(int, int)>>, last: Option<DateTime>, usedCallsToday: int)
    ensures var (r, s2) := OrchestratorSpec(w, s, now, callRanges, last, usedCallsToday);
      (r.Failure? || !r.value.executed) ==> s2 == s
  {
  }

  /** The snapshot ids of two executed calls at different instants differ. */
  lemma SnapshotIdsDistinct(a: Instant, b: Instant)
    requires a.local != b.local
    ensures FormatCompact(a.local) != FormatCompact(b.local)
  {
    if FormatCompact(a.local) == FormatCompact(b.local) {
      FormatCompactInjective(a.local, b.local);
    }
  }

  /** 2026-01-04 10:00:00 runs as snapshot `20260104_100000`. */
  lemma SnapshotIdOfNow()
    ensures FormatCompact(LocalDateTime(Date(2026, 1, 4), 10, 0, 0)) == "20260104_100000"
  {
  }
}
