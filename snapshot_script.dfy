/** `scripts/step4_run_snapshot_once.py`: read `--ranges` and `--snapshot-id`, run the snapshot
    runner once over the parsed ranges (or the three default ranges) and turn the run's status
    into the exit code. */
module SnapshotScript {
  import opened Wrappers
  import opened CivilTime
  import opened Store
  import opened RangeArgs
  import opened RawIngest
  import opened SeoulSubway
  import opened SnapshotRunner

  /** `args.snapshot_id or generate_snapshot_id()`: an empty or absent argument yields the
      generated id. */
  function SnapshotIdOf(snapshotIdArg: Option<string>, generatedId: string): (id: string)
    ensures snapshotIdArg.Some? && snapshotIdArg.value != "" ==> id == snapshotIdArg.value
    ensures snapshotIdArg.None? || snapshotIdArg.value == "" ==> id == generatedId
  {
    if snapshotIdArg.Some? && snapshotIdArg.value != "" then snapshotIdArg.value else generatedId
  }

  /** The exit code for the status of a finished run: `"ok"` and `"partial"` exit 0, `"error"`
      exits 2. */
  function ExitCodeOf(status: RunStatus): (code: int)
    ensures code == 0 || code == 2
    ensures code == 2 <==> status == RunError
  {
    match status
    case RunOk => 0
    case RunPartial => 0
    case RunError => 2
  }

  /** The exit status of `main`, the result it prints and the state it leaves;
      `generatedId` is what `generate_snapshot_id()` returns. */
  function ScriptSpec(
    w: World, s: Sim, rangesArg: Option<string>, snapshotIdArg: Option<string>, generatedId: string,
    apiKey: Option<string>)
    : (int, Option<RunResult>, Sim)
  {
    match RangesArgument(rangesArg)
    case Failure(_) => (1, None, s)
    case Success(parsed) =>
      if ApiKeyMissing(apiKey) then (1, None, s)
      else
        var snapshotId := SnapshotIdOf(snapshotIdArg, generatedId);
        var run := RunSpec(w, s, snapshotId, Some(parsed.GetOr(DefaultCallRanges)));
        (ExitCodeOf(run.0.status), Some(run.0), run.1)
  }

  method RunScript(
    conn: Connection, clock: Clock, fetch: Fetch, enc: RowEncoding, rangesArg: Option<string>,
    snapshotIdArg: Option<string>, generatedId: string, apiKey: Option<string>)
    returns (exitCode: int, result: Option<RunResult>)
    modifies conn, clock
    ensures (exitCode, result, Sim(conn.State(), clock.ticks)) ==
      ScriptSpec(World(fetch, enc, clock.readings, conn.ledgerWriteFails, conn.rawWriteFails),
                 old(Sim(conn.State(), clock.ticks)), rangesArg, snapshotIdArg, generatedId, apiKey)
  {
    ghost var s := Sim(conn.State(), clock.ticks);
    ghost var w := World(fetch, enc, clock.readings, conn.ledgerWriteFails, conn.rawWriteFails);
    var parsed := ParseRangesArgument(rangesArg);
    if parsed.Failure? {
      return 1, None;
    }
    var snapshotId := if snapshotIdArg.Some? && snapshotIdArg.value != "" then snapshotIdArg.value else generatedId;
    var callRanges := if parsed.value.None? then DefaultCallRanges else parsed.value.value;
    if apiKey.None? || apiKey.value == "" {
      return 1, None;
    }
    assert snapshotId == SnapshotIdOf(snapshotIdArg, generatedId);
    assert callRanges == parsed.value.GetOr(DefaultCallRanges);
    var r := RunSnapshotOnce(conn, clock, fetch, enc, snapshotId, Some(callRanges));
    if r.status == RunOk || r.status == RunPartial {
      exitCode := 0;
    } else {
      exitCode := 2;
    }
    result := Some(r);
    ScriptSpecSteps(w, s, rangesArg, snapshotIdArg, generatedId, apiKey, parsed.value, r, Sim(conn.State(), clock.ticks));
  }

  /** `ScriptSpec` once the arguments are usable: one run over the parsed or default ranges. */
  lemma ScriptSpecSteps(
    w: World, s: Sim, rangesArg: Option<string>, snapshotIdArg: Option<string>, generatedId: string,
    apiKey: Option<string>, parsed: Option<seq<(int, int)>>, r: RunResult, after: Sim)
    requires RangesArgument(rangesArg) == Success(parsed) && !ApiKeyMissing(apiKey)
    requires var run := RunSpec(w, s, SnapshotIdOf(snapshotIdArg, generatedId), Some(parsed.GetOr(DefaultCallRanges)));
      r == run.0 && after == run.1
    ensures ScriptSpec(w, s, rangesArg, snapshotIdArg, generatedId, apiKey) == (ExitCodeOf(r.status), Some(r), after)
  {
  }

  /** Exit 1 exactly for unusable arguments, which touch neither the clock nor the database;
      otherwise exit 2 exactly when every page failed, and 0 when at least one page was
      stored. */
  lemma ExitCodes(
    w: World, s: Sim, rangesArg: Option<string>, snapshotIdArg: Option<string>, generatedId: string,
    apiKey: Option<string>)
    ensures var (code, r, s2) := ScriptSpec(w, s, rangesArg, snapshotIdArg, generatedId, apiKey);
      var badArgs := RangesArgument(rangesArg).Failure? || ApiKeyMissing(apiKey);
      (code == 1 <==> badArgs)
      && (badArgs ==> r == None && s2 == s)
      && (!badArgs ==>
            r.Some?
            && (code == 2 <==> |r.value.pages| > 0 && forall i :: 0 <= i < |r.value.pages| ==> !r.value.pages[i].ok)
            && (code == 0 <==> exists i :: 0 <= i < |r.value.pages| && r.value.pages[i].ok))
  {
    if !(RangesArgument(rangesArg).Failure? || ApiKeyMissing(apiKey)) {
      var parsed := RangesArgument(rangesArg).value;
      var snapshotId := SnapshotIdOf(snapshotIdArg, generatedId);
      RunSummary(w, s, snapshotId, Some(parsed.GetOr(DefaultCallRanges)));
      DefaultsAreNonEmpty(rangesArg);
    }
  }

  /** Whatever `--ranges` says, the runner is given a non-empty list: the parsed ranges, or
      the three defaults. */
  lemma DefaultsAreNonEmpty(rangesArg: Option<string>)
    requires RangesArgument(rangesArg).Success?
    ensures |RangesArgument(rangesArg).value.GetOr(DefaultCallRanges)| >= 1
  {
    RangesArgumentNonEmpty(rangesArg);
  }

  /** Without `--ranges` the run fetches exactly the three default ranges, in order, with no
      probe and no page-count decision, under the supplied or generated id. */
  lemma DefaultRangesUsed(
    w: World, s: Sim, snapshotIdArg: Option<string>, generatedId: string, apiKey: Option<string>)
    requires !ApiKeyMissing(apiKey)
    ensures var (_, r, _) := ScriptSpec(w, s, None, snapshotIdArg, generatedId, apiKey);
      r.Some? && r.value.snapshotId == SnapshotIdOf(snapshotIdArg, generatedId)
      && r.value.ranges == [(0, 999), (1000, 1999), (2000, 2999)]
      && |r.value.pages| == 3 && r.value.totalCount == None && r.value.decidedPageCount == None
      && r.value.pages[0].start == 0 && r.value.pages[0].end == 999
      && r.value.pages[1].start == 1000 && r.value.pages[1].end == 1999
      && r.value.pages[2].start == 2000 && r.value.pages[2].end == 2999
  {
    var snapshotId := SnapshotIdOf(snapshotIdArg, generatedId);
    SuppliedRun(w, s, snapshotId, DefaultCallRanges);
    RunSummary(w, s, snapshotId, Some(DefaultCallRanges));
  }

  /** Parsed ranges reach the runner unchanged, one page per range. */
  lemma SuppliedRangesUsed(
    w: World, s: Sim, rangesArg: Option<string>, snapshotIdArg: Option<string>, generatedId: string,
    apiKey: Option<string>)
    requires RangesArgument(rangesArg).Success? && RangesArgument(rangesArg).value.Some? && !ApiKeyMissing(apiKey)
    ensures var ranges := ParseRangesSpec(rangesArg.value).value;
      var (_, r, _) := ScriptSpec(w, s, rangesArg, snapshotIdArg, generatedId, apiKey);
      r.Some? && r.value.ranges == ranges && |r.value.pages| == |ranges|
      && forall i :: 0 <= i < |ranges| ==> r.value.pages[i].start == ranges[i].0 && r.value.pages[i].end == ranges[i].1
  {
    var snapshotId := SnapshotIdOf(snapshotIdArg, generatedId);
    SuppliedRun(w, s, snapshotId, RangesArgument(rangesArg).value.value);
  }
}
