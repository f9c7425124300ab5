# Seoul subway arrival collector — a verified model of its ingestion core

The collector calls the Seoul real-time subway arrival API page by page. It stores every
returned `<row>` in a raw table and logs every API call in a ledger. A one-shot orchestrator
decides whether a snapshot may run now; it checks three gates in order:

- the time-of-day policy (night is never collected; commute hours and normal hours have
  different recommended intervals);
- the interval since the last snapshot;
- a daily call budget read from the ledger.

When all three gates pass, the snapshot runner runs once. It may first probe page `(0, 999)`
and decide from its `total_count` whether three or four pages are fetched. Each remaining
page is then fetched, logged and ingested in its own transaction: a successful page commits
and a failed one rolls back. The runner reports totals and a status of `ok`, `partial` or
`error`. Two command-line scripts drive the orchestrator (step 7) and the runner (step 4) and
turn the outcome into an exit code.

## Structure of the model

Pure code is modelled as functions and imperative code as methods, module by module:

- `Scheduler` holds `decide_collection` and `Budget` holds `check_budget`. Both are pure
  functions.
- `Store` models the MySQL connection with `autocommit=False` as the class `Connection`.
  - It holds a working and a committed copy of the call-log ledger (a map keyed by
    `(snapshot_id, page_start, page_end)`) and of the raw table (a map keyed by
    `(snapshot_id, page_start, page_end, payload_hash)`).
  - It counts commits and rollbacks.
  - Two fixed oracles say which statements the server rejects.
- `CallLog` holds `insert_call_log`, a method on the connection.
- `RawIngest` holds `ingest_rows_page` and `ingest_provider_result`. They are methods with
  the source's loops, proved equal to specification functions.
- `PayloadHash` holds the canonical form behind `compute_payload_hash`: sorted keys and
  compact `json.dumps`. SHA-256 is a parameter.
- `SeoulSubway` holds the provider:
  - `_parse_row_element`, a recursive method mutating a dictionary object, with its
    collision-counter `while` loop;
  - `parse_xml` over an element tree;
  - `_build_url` and `fetch_page` over an HTTP oracle;
  - `fetch_fixed_pages` over a `fetch_page` oracle.
- `SnapshotRunner` holds `run_snapshot_once`. It is a method over a `Connection` and a
  `Clock`, proved equal to `RunSpec`, a function of the starting state. The properties are
  lemmas about `RunSpec`.
- `Orchestrator` holds `run_orchestrator_once`, as the method `RunOrchestratorOnce` and the
  function `OrchestratorSpec`.
- `RangeArgs` holds `parse_ranges`. Both scripts carry identical copies of it
  (`scripts/step7_run_orchestrator_once.py:28-42` and
  `scripts/step4_run_snapshot_once.py:29-43`), so it is modelled once.
- `OrchestratorScript` holds `get_used_calls_today` and the `main` of step 7.
- `SnapshotScript` holds the `main` of step 4.
- `Text`, `Records`, `CivilTime` and `Wrappers` hold the Python built-ins the core relies on:
  `str.strip`, `str.split`, `int()`, `dict`, `date`/`datetime` and `strftime`.

Collaborators are parameters:

- The provider's `fetch_page` is the oracle `Fetch` from a page range to a page or an error.
- The injected `clock` is a `Clock` object whose k-th call returns `readings(k)`.
- How a row becomes its `raw_payload` text and its hash is a `RowEncoding`.
  `SourceEncoding(sha256)` is the source's own choice of encoding.
- `get_last_snapshot_at` is an input.

Every state-changing method is proved against a specification function of the old state:
`(result, Sim(conn.State(), clock.ticks)) == RunSpec(World(...), old(Sim(...)), ...)`. The
properties the code promises are then proved as lemmas about those functions.

In the runner, the error call log of a failed page is written into the page's own
transaction and then rolled back with it (`ingestion/runner/snapshot_runner.py:233-250`).
The comments disagree with the code here. Line 234 says the failed call is recorded with
status `error`, and line 249 says the rollback undoes only that page's insert. The code
rolls back at line 250 everything the page wrote since the last commit: its success log,
its rows and the error log just written. The model follows the code as written. The
outcome is stated and proved by `ErrorPathLeavesNoTrace` and `PageStepState`: a failed page
leaves no ledger entry, so error calls never reach the call log and never count against
the budget.

## Model

| member | source | states |
|---|---|---|
| Budget.CheckBudget | ingestion/budget.py:41-62 | `remaining_calls` is `max(0, daily_limit - used)`, never negative; collecting is allowed exactly when `remaining_calls >= required_calls`; the reason is `budget_ok` exactly then and `budget_exceeded` otherwise |
| Budget.NothingRequiredAlwaysPasses | ingestion/budget.py:44-55 | a run needing 0 calls passes, even past the limit |
| Budget.IndependentOfToday | ingestion/budget.py:36-39 | the decision is the same for every `today` |
| Budget.FourCallsUnderDefaultLimit | ingestion/budget.py:11-49 | with the default limit of 1000 and four calls, collecting is allowed iff at most 996 calls were used |
| Budget.MoreUsageNeverUnblocks | ingestion/budget.py:42-49 | if a larger usage passes, every smaller usage passes too |
| Scheduler.DecideCollection | ingestion/scheduler.py:44-116 | fails exactly for a naive `now`; collects exactly outside the night bucket; a night wait lasts until 05:00:01 and is at least 1 second; commute buckets give 120 and normal gives 900 |
| Scheduler.SecondsOfDayOrder | ingestion/scheduler.py:49-52 | comparing `hour*3600+minute*60+second` with a threshold is comparing `(hour, minute, second)` lexicographically |
| Scheduler.BucketMatchesWallClock | ingestion/scheduler.py:54-116 | for every aware instant the thresholds in seconds select the buckets of the clock-face table (night 00:30:00-05:00:00, morning 07:00:00-09:30:00, evening 17:30:00-20:00:00, inclusive, night first) |
| Scheduler.ShouldCollectIffNotNight | ingestion/scheduler.py:69-116 | collection is refused iff `1800 <= t <= 18000` |
| Scheduler.NightWaitsUntilFiveOhOne | ingestion/scheduler.py:73-79 | in the night bucket `t + interval == 18001` and `1 <= interval <= 16201`, so the next-day branch is never taken |
| Scheduler.BoundaryInstantsAreNormal | ingestion/scheduler.py:109-116 | 00:29:59, 05:00:01, 09:30:01 and 20:00:01 are normal, collected, 900 |
| Scheduler.WindowEndsAreInclusive | ingestion/scheduler.py:69-106 | 00:30:00 and 05:00:00 are night (waits 16201 and 1); 07:00:00 and 09:30:00 are morning; 17:30:00 and 20:00:00 are evening (120) |
| CivilTime.SecondsOfDay | ingestion/scheduler.py:49-52 | the seconds of the day lie in `0..86399` |
| CivilTime.SameDayElapsed | ingestion/orchestrator.py:114 | the elapsed seconds between two instants of one day are the difference of their seconds of day |
| CivilTime.NextDay | ingestion/orchestrator.py:114 | the day after any date but `date.max` is a valid date |
| CivilTime.DaysInYear | ingestion/orchestrator.py:114 | the months of a year add up to 365 days, 366 in a leap year |
| CivilTime.LeapDaysStep | ingestion/orchestrator.py:114 | the leap-day count grows from year `y - 1` to `y` exactly when `y` is a leap year |
| CivilTime.NextDayNumber | ingestion/orchestrator.py:114 | consecutive calendar days have consecutive day numbers, across month and year ends |
| CivilTime.MidnightElapsed | ingestion/orchestrator.py:114 | across midnight the elapsed seconds are 86400 plus the difference of the seconds of day |
| CivilTime.FormatCompact | ingestion/orchestrator.py:151 | `%Y%m%d_%H%M%S` is 15 characters, digits everywhere except `_` at index 8 |
| CivilTime.FormatCompactInjective | ingestion/orchestrator.py:151 | different instants give different snapshot ids |
| CivilTime.Clock.Now | ingestion/runner/snapshot_runner.py:60 | a `clock()` call returns the next reading and advances the clock by one |
| CivilTime.Clock.constructor | scripts/step7_run_orchestrator_once.py:138-139 | a fresh clock starts at its first reading |
| Store.UpsertEntry | ingestion/pipeline/call_log.py:42-52 | the ledger gains the entry's key and nothing else; other keys keep their entries; entries stay filed under their own key |
| Store.BulkUpsertKeepsAndAdds | ingestion/pipeline/raw_ingest.py:190-205 | after `executemany` the table holds its old keys plus the batch's keys, and every old row is unchanged |
| Store.BulkUpsertCount | ingestion/pipeline/raw_ingest.py:204-205 | `rowcount` is the number of distinct batch keys not yet in the table |
| Store.BulkUpsertBound | ingestion/pipeline/raw_ingest.py:204-206 | `rowcount` never exceeds the number of statement rows |
| Store.BulkUpsertAllPresent | ingestion/pipeline/raw_ingest.py:190-196 | a batch whose keys are all present inserts nothing and changes nothing |
| Store.BulkUpsertIdempotent | ingestion/pipeline/raw_ingest.py:190-196 | running the same batch again inserts nothing and leaves the table unchanged |
| Store.Db.Commit | ingestion/runner/snapshot_runner.py:231 | after a commit nothing is pending, the working copies are kept, and the commit count grows by one with the rollback count unchanged |
| Store.Db.Rollback | ingestion/runner/snapshot_runner.py:250 | after a rollback nothing is pending, the committed copies are kept, and the rollback count grows by one with the commit count unchanged |
| Store.Connection.constructor | scripts/step7_run_orchestrator_once.py:125-133 | a new connection has nothing pending and counts no commits or rollbacks |
| Store.Connection.Commit | ingestion/runner/snapshot_runner.py:231 | `mysql_conn.commit()` moves the state to `Db.Commit` of the old state |
| Store.Connection.Rollback | ingestion/runner/snapshot_runner.py:250 | `mysql_conn.rollback()` moves the state to `Db.Rollback` of the old state |
| Store.Connection.ExecuteUpsert | ingestion/pipeline/call_log.py:50-53 | an accepted statement upserts the pending ledger; a rejected one changes nothing |
| Store.Connection.ExecuteMany | ingestion/pipeline/raw_ingest.py:204-205 | an accepted batch bulk-upserts the pending raw table and reports `rowcount`; a rejected one changes nothing |
| CallLog.InsertCallLog | ingestion/pipeline/call_log.py:12-56 | the new state is `InsertCallLogSpec` of the old one: the entry carries `called_at.date()` and the given key, time and status; it neither commits nor rolls back |
| CallLog.NewKeyAddsOneEntry | ingestion/pipeline/call_log.py:38-52 | a call for a new key adds exactly one entry, the one given |
| CallLog.ReinsertKeepsDate | ingestion/pipeline/call_log.py:46-48 | re-inserting a key adds no entry; it keeps the first `call_date` and takes the new status and `called_at` |
| CallLog.InsertCallLogNeverCommits | ingestion/pipeline/call_log.py:54 | the raw rows, the committed state and the commit and rollback counts are untouched |
| PayloadHash.SortByKey | ingestion/pipeline/raw_ingest.py:28 | the sorted payload holds the same entries |
| PayloadHash.SortSorted | ingestion/pipeline/raw_ingest.py:28 | a dictionary's entries come out in strictly ascending key order |
| PayloadHash.SortedUnique | ingestion/pipeline/raw_ingest.py:28 | two strictly sorted entry lists with the same members are equal |
| PayloadHash.JsonObjectInjective | ingestion/pipeline/raw_ingest.py:31 | `json.dumps` writes distinct entry lists as distinct texts |
| PayloadHash.CanonicalIgnoresOrder | ingestion/pipeline/raw_ingest.py:27-31 | payloads equal as mappings have one canonical text, whatever their insertion order |
| PayloadHash.CanonicalSeparatesMaps | ingestion/pipeline/raw_ingest.py:27-31 | payloads that differ as mappings have different canonical texts |
| PayloadHash.EmptyPayloadCanonical | ingestion/pipeline/raw_ingest.py:28-31 | the empty payload is hashed as the text `{}` |
| PayloadHash.HashIgnoresOrder | ingestion/pipeline/raw_ingest.py:11-35 | equal mappings get equal 64-hex-digit hashes |
| PayloadHash.HashSeparatesMaps | ingestion/pipeline/raw_ingest.py:11-35 | different mappings get different hashes unless SHA-256 collides on their canonical texts |
| RawIngest.PageRecords | ingestion/pipeline/raw_ingest.py:165-178 | one insert row per page row |
| RawIngest.PageRecordsAt | ingestion/pipeline/raw_ingest.py:165-178 | insert row `i` carries the snapshot, time, range, payload and hash of row `i` |
| RawIngest.IngestRowsPage | ingestion/pipeline/raw_ingest.py:130-217 | the result and new state are `IngestRowsPageSpec` of the old state |
| RawIngest.IngestEmptyPage | ingestion/pipeline/raw_ingest.py:180-185 | an empty page returns `(0, 0, 0)` and leaves the connection alone |
| RawIngest.IngestCountsBalance | ingestion/pipeline/raw_ingest.py:198-206 | attempted is `len(rows)`; inserted plus skipped is attempted; inserted is the number of the page's new keys |
| RawIngest.IngestRowsPageEffect | ingestion/pipeline/raw_ingest.py:202-211 | only the pending raw rows change: no commit, no rollback, no ledger change; a failure changes nothing; old rows are kept and the page's keys added |
| RawIngest.ReingestInsertsNothing | ingestion/pipeline/raw_ingest.py:190-206 | ingesting the same page again inserts 0 rows, reports all of them as duplicates and leaves the table unchanged |
| RawIngest.SameMappingSameKey | ingestion/pipeline/raw_ingest.py:167-177 | rows with equal mappings get one raw key on a page; different mappings get different keys without a SHA-256 collision |
| RawIngest.SameHashIsSkipped | ingestion/pipeline/raw_ingest.py:190-206 | two rows with one new hash on a page count as 1 inserted and 1 duplicate |
| RawIngest.RepeatedMappingIsSkipped | ingestion/pipeline/raw_ingest.py:165-206 | the same mapping twice on a page, in any key order, is inserted once |
| RawIngest.BuildInsertRows | ingestion/pipeline/raw_ingest.py:71-87 | the loops build exactly `ProviderRecords` of the pages: every row of every page, in order |
| RawIngest.IngestProviderResult | ingestion/pipeline/raw_ingest.py:50-127 | the result and new state are `IngestProviderSpec` of the old state |
| RawIngest.ProviderRecordsFollowAllRows | ingestion/pipeline/raw_ingest.py:73-87 | the insert rows are the rows of all pages in order, with their payloads and hashes |
| RawIngest.IngestProviderSettles | ingestion/pipeline/raw_ingest.py:89-119 | attempted is the number of all rows; when there are rows a success commits once and a failure rolls back once, leaving the committed state unchanged |
| Records.Put | ingestion/providers/seoul_subway.py:122 | `row_dict[key] = value` for a new key: as a mapping the row becomes the old one with `key` bound to `value`, a lookup of `key` gives `value`, and in insertion order the key comes last |
| Records.InRowIffMapped | ingestion/providers/seoul_subway.py:88-122 | an entry is in a row exactly when the row's mapping holds it |
| SeoulSubway.FirstFreeCounter | ingestion/providers/seoul_subway.py:116-120 | the counter search ends at the first unused suffix number, every smaller one being in use |
| SeoulSubway.FreeKey | ingestion/providers/seoul_subway.py:114-121 | a leaf gets its own key when free, else `key__N` for the smallest unused `N >= 1`, never a key in use |
| SeoulSubway.ParseRowElement | ingestion/providers/seoul_subway.py:95-122 | the dictionary afterwards is `FlattenFrom` of the old one |
| SeoulSubway.AvoidCollision | ingestion/providers/seoul_subway.py:114-121 | the loop ends at `FreeKey`: the key itself when free, else the first `key__n` the row lacks, every `key__m` before it being taken |
| SeoulSubway.RowKeepsEveryLeaf | ingestion/providers/seoul_subway.py:103-122 | each leaf adds exactly one entry, in document order, with its value under its `_`-joined path or a `__N` variant |
| SeoulSubway.FlattenFromLeaves | ingestion/providers/seoul_subway.py:103-122 | flattening from any dictionary keeps its entries and appends one entry per leaf |
| SeoulSubway.FreeLeafKeepsItsTag | ingestion/providers/seoul_subway.py:104-122 | a childless element whose key `prefix + tag` is not yet in the row is appended under that key, with its text stripped or `""` when absent |
| SeoulSubway.FirstCollisionGetsOne | ingestion/providers/seoul_subway.py:114-122 | a leaf whose key is taken while `key__1` is free is appended as `key__1`, with its text stripped |
| SeoulSubway.SecondCollisionGetsTwo | ingestion/providers/seoul_subway.py:114-122 | with `key` and `key__1` taken and `key__2` free, the leaf is appended as `key__2`; a missing text is `""` |
| SeoulSubway.CollidingLeavesGetSuffixes | ingestion/providers/seoul_subway.py:103-122 | three leaves with one tag, over a row where `key`, `key__1` and `key__2` are free, are appended in document order as `key`, `key__1`, `key__2` with their texts |
| SeoulSubway.NestedTagsJoinWithUnderscore | ingestion/providers/seoul_subway.py:104-109 | a nested leaf is keyed by its parent's tag, `_`, then its own tag |
| SeoulSubway.FirstWithTag | ingestion/providers/seoul_subway.py:51 | `find` picks the first child with the tag, or none when absent |
| SeoulSubway.FindAll | ingestion/providers/seoul_subway.py:85 | `findall` yields exactly the children with the tag |
| SeoulSubway.ParseXml | ingestion/providers/seoul_subway.py:30-92 | the result is `ParseXmlSpec`: a parse error or a missing `RESULT` fails, else code, message, total and rows |
| SeoulSubway.ParseRows | ingestion/providers/seoul_subway.py:84-90 | row `i` is `<row>` child `i` flattened into a fresh dictionary |
| SeoulSubway.TotalFromResult | ingestion/providers/seoul_subway.py:66-69 | an integer `RESULT/total` is the total count |
| SeoulSubway.TotalFromRoot | ingestion/providers/seoul_subway.py:66-69 | without a usable `RESULT/total`, the root's `totalCount` is used |
| SeoulSubway.TotalFromFirstRow | ingestion/providers/seoul_subway.py:73-81 | when neither gives an integer, the first row's `totalCount` is the fallback |
| SeoulSubway.NonIntegerTotalHidesRoot | ingestion/providers/seoul_subway.py:66-81 | a non-empty but non-integer `RESULT/total` hides the root's `totalCount` |
| SeoulSubway.ParsedRowsAreRowChildren | ingestion/providers/seoul_subway.py:84-90 | one row per `<row>` child, in document order |
| SeoulSubway.NewProvider | ingestion/providers/seoul_subway.py:131-157 | the station name is always empty |
| SeoulSubway.BuildUrlCarriesRange | ingestion/providers/seoul_subway.py:171-174 | with no station name the URL ends in `/{start}/{end}/` |
| SeoulSubway.BuildUrlInjective | ingestion/providers/seoul_subway.py:159-174 | different ranges are requested at different URLs |
| SeoulSubway.FetchPage | ingestion/providers/seoul_subway.py:176-220 | a returned page always has result code `INFO-000` |
| SeoulSubway.FetchPageSucceedsIff | ingestion/providers/seoul_subway.py:195-220 | a page is returned iff the request got 200, its XML parsed and its code is `INFO-000`; it is then that response's content |
| SeoulSubway.FetchPageErrors | ingestion/providers/seoul_subway.py:197-213 | a request exception, a non-200 status and a parse failure each raise with their own cause |
| SeoulSubway.FetchFixedPages | ingestion/providers/seoul_subway.py:238-289 | `None` means the default ranges; it succeeds iff every range fetches, with one page per range, `all_rows` concatenated in order and `first_row_keys` from the first row; otherwise it fails with the first failure |
| SeoulSubway.AllRowsCount | ingestion/providers/seoul_subway.py:265-273 | `all_rows` holds as many rows as the pages' row counts add up to |
| Text.JoinSplit | scripts/step7_run_orchestrator_once.py:35 | `str.split` on one character loses nothing: joining the pieces gives the string back |
| Text.SplitJoin | scripts/step7_run_orchestrator_once.py:35 | splitting a join of separator-free pieces gives the pieces back |
| Text.StripIdempotent | scripts/step7_run_orchestrator_once.py:36-39 | stripping twice is stripping once |
| Text.ParseIntToString | scripts/step7_run_orchestrator_once.py:39 | `int(str(i)) == i` for every integer |
| RangeArgs.ParsePiece | scripts/step7_run_orchestrator_once.py:36-41 | a piece without `-` after stripping fails with that piece; parsing needs a `-` |
| RangeArgs.ParsePieceHalves | scripts/step7_run_orchestrator_once.py:36-39 | a piece `x-y`, with `x` free of `-`, parses iff `int()` accepts both halves, to those numbers; the first `-` separates |
| RangeArgs.ParseRanges | scripts/step7_run_orchestrator_once.py:28-42 | the loop's result is `ParseRangesSpec` |
| RangeArgs.PiecesPointwise | scripts/step7_run_orchestrator_once.py:35-41 | success iff every comma-separated piece parses, with range `i` from piece `i`; otherwise the error of the first bad piece |
| RangeArgs.CollectPointwise | scripts/step7_run_orchestrator_once.py:35-41 | collecting succeeds iff all results do, keeping them in order, else fails with the first failure |
| RangeArgs.FailureSticks | scripts/step7_run_orchestrator_once.py:41 | once a piece has raised, the result is that error |
| RangeArgs.CollectAllSuccess | scripts/step7_run_orchestrator_once.py:35-39 | all-success results collect to their values |
| RangeArgs.ParsedRangesNonEmpty | scripts/step7_run_orchestrator_once.py:35 | a successful parse yields at least one range |
| RangeArgs.EmptyStringRejected | scripts/step7_run_orchestrator_once.py:37-41 | the empty string is rejected as a piece without `-` |
| RangeArgs.ParseFormattedPiece | scripts/step7_run_orchestrator_once.py:36-39 | a range written as `start-end` with `start >= 0` reads back as itself |
| RangeArgs.ParseFormattedRanges | scripts/step7_run_orchestrator_once.py:28-42 | a comma-joined list of such ranges reads back as the list |
| RangeArgs.ParseRangesArgument | scripts/step7_run_orchestrator_once.py:95-101 | an absent or empty `--ranges` gives `None`; otherwise the parsed list or the parse error |
| RangeArgs.RangesArgumentNonEmpty | scripts/step4_run_snapshot_once.py:68-74 | ranges taken from the command line are never an empty list |
| SnapshotRunner.ErrorPage | ingestion/runner/snapshot_runner.py:233-252 | the outcome and state are `ErrorPath`: a best-effort error log, then a rollback |
| SnapshotRunner.RunPage | ingestion/runner/snapshot_runner.py:194-252 | the outcome, total and state are `PageStep` of the old state |
| SnapshotRunner.PlanRun | ingestion/runner/snapshot_runner.py:67-175 | the probe page, `total_count`, `decided_page_count` and remaining ranges are `Plan` of the old state |
| SnapshotRunner.FetchRemaining | ingestion/runner/snapshot_runner.py:180-266 | the loop's pages and state are `RunPages` of the old state |
| SnapshotRunner.RunSnapshotOnce | ingestion/runner/snapshot_runner.py:19-325 | the result and state are `RunSpec` of the old state |
| SnapshotRunner.RunSpecSteps | ingestion/runner/snapshot_runner.py:59-325 | a run is the collection time, the plan, the loop and the summary, in that order |
| SnapshotRunner.ErrorPathLeavesNoTrace | ingestion/runner/snapshot_runner.py:233-252 | a failed page ends in the rolled-back state, with zero rows, whether or not its error log was written |
| SnapshotRunner.PageStepOutcome | ingestion/runner/snapshot_runner.py:194-252 | a page is `ok` iff its fetch, its success log and a non-empty insert go through; it then reports the fetched rows and `total_count`; otherwise zero rows, no total and the cause; the counts balance |
| SnapshotRunner.PageStepState | ingestion/runner/snapshot_runner.py:200-250 | each page ends with nothing pending; a success commits once its success log and rows; a failure is exactly a rollback, so its error log is not kept |
| SnapshotRunner.PageStepShaped | ingestion/runner/snapshot_runner.py:184-252 | every page reports its own range, balanced counts, zero rows on failure and the fetch error as its cause |
| SnapshotRunner.RunPagesShape | ingestion/runner/snapshot_runner.py:180-266 | one page per remaining range, in order; a failure never stops the loop |
| SnapshotRunner.RunPagesCounters | ingestion/runner/snapshot_runner.py:231-250 | one commit per successful page and one rollback per failed page; nothing pending at the end; nothing committed when every page fails |
| SnapshotRunner.TotalsBalance | ingestion/runner/snapshot_runner.py:269-271 | inserted plus duplicates is attempted over all pages |
| SnapshotRunner.ErrorsTotalCounts | ingestion/runner/snapshot_runner.py:272 | `errors_total` is 0 iff every page is ok and the number of pages iff none is |
| SnapshotRunner.ErrorsTotalConcat | ingestion/runner/snapshot_runner.py:272 | error counts add up over the probe page and the rest |
| SnapshotRunner.DynamicRun | ingestion/runner/snapshot_runner.py:67-165 | with no ranges, `(0, 999)` is page one; the page count is 4 iff the probe succeeded with `total_count > 3000`, else 3; the remaining ranges are pages 2-3 (plus 4) and never `(0, 999)` |
| SnapshotRunner.SuppliedRun | ingestion/runner/snapshot_runner.py:166-175 | supplied ranges are fetched once each, in order, with no probe and no total or page count |
| SnapshotRunner.NoRangesIsOk | ingestion/runner/snapshot_runner.py:274-280 | an empty supplied list fetches nothing and reports `ok` |
| SnapshotRunner.RunPagesOfRun | ingestion/runner/snapshot_runner.py:180-280 | over the pages of a whole run the counts balance and commits and rollbacks match the outcomes |
| SnapshotRunner.RunSummary | ingestion/runner/snapshot_runner.py:269-325 | status `ok` iff no error, `error` iff all of at least one page failed, else `partial`; totals balance; one commit per ok page and one rollback per failed one; when all fail nothing is committed |
| Orchestrator.RunOrchestratorOnce | ingestion/orchestrator.py:42-178 | the result and state are `OrchestratorSpec` of the old state |
| Orchestrator.ExecutedIffAllGatesPass | ingestion/orchestrator.py:84-160 | the runner runs iff `now` is aware, the policy collects, the interval has elapsed (or there is no last snapshot) and four calls fit the budget; executed iff the reason is `executed` |
| Orchestrator.NaiveNowRejected | ingestion/orchestrator.py:84 | a naive `now` raises and changes nothing |
| Orchestrator.TimePolicyGateFirst | ingestion/orchestrator.py:84-94 | a blocking time policy returns `time_policy_blocked` with every other field empty and runs nothing |
| Orchestrator.IntervalGate | ingestion/orchestrator.py:101-124 | elapsed below the interval stops with last, interval and elapsed; an elapsed time equal to the interval passes |
| Orchestrator.NoLastSnapshotSkipsInterval | ingestion/orchestrator.py:99-101 | without a last snapshot the call runs or stops at the budget, reporting no elapsed time |
| Orchestrator.BudgetGate | ingestion/orchestrator.py:130-148 | past the first gates, the budget stops the call iff more than 996 calls were used, whatever the ranges; it then has no snapshot id and changes nothing |
| Orchestrator.ExecutedRunsRunnerOnce | ingestion/orchestrator.py:150-178 | an executed call ran the runner once with the given ranges under id `YYYYMMDD_HHMMSS` of `now`, reporting its `total_count` and `decided_page_count` |
| Orchestrator.StoppedChangesNothing | ingestion/orchestrator.py:84-148 | a call that did not execute changed neither the connection nor the clock |
| Orchestrator.SnapshotIdsDistinct | ingestion/orchestrator.py:151 | executed calls at different instants get different snapshot ids |
| Orchestrator.SnapshotIdOfNow | ingestion/orchestrator.py:151 | 2026-01-04 10:00:00 gives `20260104_100000` |
| OrchestratorScript.UsedCallsToday | scripts/step7_run_orchestrator_once.py:61-74 | the count never exceeds the ledger's size |
| OrchestratorScript.NewEntryCount | scripts/step7_run_orchestrator_once.py:66-71 | a new entry raises today's count by one iff it is a success dated today |
| OrchestratorScript.CountedAfterStore | scripts/step7_run_orchestrator_once.py:66-71 | storing an entry changes the counted keys only at its own key |
| OrchestratorScript.ErrorRewriteCount | scripts/step7_run_orchestrator_once.py:66-71 | rewriting a call as an error takes it out of the count |
| OrchestratorScript.RunScript | scripts/step7_run_orchestrator_once.py:79-211 | the exit code and state are `ScriptSpec` of the old state |
| OrchestratorScript.ScriptSpecSteps | scripts/step7_run_orchestrator_once.py:141-164 | with usable arguments the orchestrator runs at the clock's first reading with today's count |
| OrchestratorScript.ExitCodeDecision | scripts/step7_run_orchestrator_once.py:94-211 | the exit code is 0 or 1, and 0 iff the ranges parse, the key is set, the policy collects, the interval has elapsed and at most 996 calls were used today |
| OrchestratorScript.BadArgumentsTouchNothing | scripts/step7_run_orchestrator_once.py:94-115 | a bad `--ranges` or a missing key exits 1 before the clock, the database or the provider is used |
| OrchestratorScript.RangesReachOrchestrator | scripts/step7_run_orchestrator_once.py:95-164 | the orchestrator gets `None` without `--ranges` and the parsed list otherwise |
| SnapshotScript.SnapshotIdOf | scripts/step4_run_snapshot_once.py:82 | a given non-empty `--snapshot-id` is used, else the generated id |
| SnapshotScript.ExitCodeOf | scripts/step4_run_snapshot_once.py:183-186 | the exit code is 0 or 2, and 2 iff the status is `error` |
| SnapshotScript.RunScript | scripts/step4_run_snapshot_once.py:46-193 | the exit code, result and state are `ScriptSpec` of the old state |
| SnapshotScript.ExitCodes | scripts/step4_run_snapshot_once.py:68-190 | exit 1 iff the arguments are unusable, with nothing touched; otherwise 2 iff every page failed and 0 iff some page succeeded |
| SnapshotScript.DefaultsAreNonEmpty | scripts/step4_run_snapshot_once.py:85-86 | the runner always gets a non-empty range list |
| SnapshotScript.DefaultRangesUsed | scripts/step4_run_snapshot_once.py:85-86 | without `--ranges` the run fetches `(0,999)`, `(1000,1999)`, `(2000,2999)` in order, with no probe or page-count decision |
| SnapshotScript.SuppliedRangesUsed | scripts/step4_run_snapshot_once.py:68-74 | parsed ranges reach the runner unchanged, one page per range |

## Left out

- HTTP transport: `requests.get`, its timeouts and the response text are the oracle `http`, from URL to outcome. The runner and the scripts see the provider only through the `Fetch` oracle.
- XML text: `ET.fromstring` is modelled as its outcome, an element tree or `Malformed`; element tails are not modelled.
- SQL text, cursors and cursor closing: each statement is modelled by its effect on the two tables.
- The raw table's unique key is not visible in the code. The model assumes it is `(snapshot_id, page_start, page_end, payload_hash)`.
- Which statements the server rejects is fixed per connection by `ledgerWriteFails` and `rawWriteFails`. A statement is rejected as a whole.
- `commit`, `rollback` and `close` never fail.
- SHA-256 is a parameter: any function to 64 lowercase hex digits.
- `json.dumps` is modelled only for dictionaries of strings; the raw payload uses Python's default separators with keys in insertion order.
- Time zones are left out: `astimezone`, `localize` and the tzinfo comparison in `run_orchestrator_once`. Times are Seoul wall-clock readings, so a last snapshot from another zone is not modelled.
- Elapsed seconds are whole seconds; `total_seconds()` floats and microseconds are dropped. In the night rule this agrees with `int()` of the difference only for whole-second instants.
- `generate_snapshot_id` and the `datetime.now()` in `ingest_provider_result` read the wall clock, so they become parameters (`generatedId`, `collectedAt`).
- `get_last_snapshot_at` becomes the input `last`, because the raw table's `created_at` column is not part of the model.
- Structured logging is left out. This covers the page-4 flags, the `locals()` checks and both log branches at `ingestion/runner/snapshot_runner.py:291-312`. Exception messages (`str(e)`) are replaced by a cause datatype.
- Printing, `.env` loading and `os.getenv` are left out. The API key is an input, and empty or absent is checked as `not api_key`.
- The MySQL environment variables and `int(os.getenv("MYSQL_PORT"))` are left out.
- The DB verification queries that step 4 and step 7 print after the run are left out. A failure in them would turn the exit code into 1, and that is not modelled.
- `SeoulSubwayArrivalProvider.fetch_pages` (`ingestion/providers/seoul_subway.py:222-236`) is not used by the modelled core. It is not modelled.
- The `assert len(pages) == len(call_ranges)` in `fetch_fixed_pages` always holds; `FetchFixedPages` proves `|pages| == |ranges|`.
- `int()` is modelled for ASCII digits with an optional sign, surrounding whitespace and single underscores between digits. Non-ASCII digits are not modelled.
- `%Y` is written with four digits; Python's platform-dependent output for years below 1000 is not modelled.
- `OrchestratorScript.UsedCallsToday`: its contract states only the bound by the ledger's size. The counting rule is stated by `NewEntryCount`, `CountedAfterStore` and `ErrorRewriteCount`.
- `main_ingestion.py`, the other step scripts and the tests are outside the modelled core.
