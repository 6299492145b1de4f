# Kyu — a Dafny model of the job queue engine

Kyu is a persistent job queue. A `Kyu<T>` keeps jobs as files in four directories
under one root: `temp`, `pending`, `completed` and `failed`. Each job lives in a
sub-directory named by the job's `UUID.uuidString`, holding the JSON payload in a file
called `job`.
- `add(job:)` stages the encoded job in `temp` and moves it into `pending`.
- A directory watcher wakes the engine. Under a single-flight flag (`isProcessing`), it
  picks the executable pending job with the earliest `executionDate` and executes it.
- Success moves the entry to `completed`.
- A failure once `numberOfRetries >= maximumNumberOfRetries` moves it to `failed`.
- Any other failure rewrites the entry in place, with one more retry and a
  Sidekiq-style backoff on the execution date.
- Clearing the flag triggers the next selection.

The model is a sequential state machine of pure functions over immutable data:

- `Results` holds `Option` and `Result`, where the Swift code returns optionals or throws.
- `Logging` (Logger.swift) holds the five levels and their order, each level's os_log
  type, and the gate in `log(_:level:)`. Writing to os_log is modelled as appending a
  record, the log type and the message, to the logger's `output`. The engine's fault
  messages carry the job's id but do not reproduce the program's text.
- `Uuids` holds a job id as 16 bytes and its `uuidString`: 36 upper-case hex characters
  grouped 8-4-4-4-12. A parser proves the rendering injective.
- `Jobs` (Job.swift) holds the job record, the default `isExecutable`, the default
  `retryCooldown`, and `incrementRetryCount`.
  - Time is a `real` number of seconds, `now` stands for `Date()`, and the random draw
    is a parameter `jitter`.
- `Directories` (Directory.swift) holds entry and payload addressing, `setup()` with
  `createDirectory(withIntermediateDirectories: true)`, and
  stores as `map<string, Entry>`.
  - JSON is abstracted: an entry is `Encoded(job)`, which decodes to exactly that job,
    or `Undecodable`.
  - The part of the filesystem the engine looks at is a map from paths to files and
    folders.
- `Engine` (Kyu.swift) holds the engine state `Kyu<P>` and its steps:
  - `Init`: construction and `setup()`;
  - `Add`;
  - `ProcessNextJob`: selection under the single-flight guard;
  - `HandleOutcome`: the switch in the completion closure;
  - `Finish`: the outcome, then the re-selection that clearing `isProcessing` triggers;
  - the three counts;
  - the invariants those steps keep.
  
  `isProcessing` is `running.Some?`. A directory listing is a parameter constrained to
  list the store exactly once per entry, in any order.
- `AppendNewLineJobs` holds the test fixture `AppendNewLineJob`. It appends a line to a
  file and fails on purpose until it has been retried `numberOfTimesToFail` times. Its
  cooldown is 0.
- `FixtureRuns` holds whole runs of the engine with the fixture as executor, and the
  scenarios of KyuTests.swift as theorems:
  - a job retried until it succeeds;
  - a job that exhausts its retries;
  - four jobs that all succeed.
  
  The proofs rely only on the selection contract, so they hold for every listing order
  and every tie-break.

Where the code and its documentation disagree, the model follows the code:
- **Duplicate add.** The doc comment of `add(job:)` promises `JobError.jobAlreadyExists`
  for a duplicate id. The guard's `throw` sits inside the `do` block, so the `catch`
  wraps it. The caller sees `failedAddingJob(reason: jobAlreadyExists)`, and that is
  what `Engine.Add` returns.
- **Jitter range.** The default cooldown draws its jitter from the closed range
  `0.0...30.0`, and the model allows both ends.
- **Exactly one store.** A job id is not always in at most one store. `add` checks only
  `pending`, so an id already completed or failed is accepted again.
  `Engine.AddAcceptsCompletedName` and `Engine.AddAcceptsFailedName` show this.
  `Engine.AddPreservesConsistent` keeps the invariant only under an explicit freshness
  precondition.

## Model

| member | source | states |
|---|---|---|
| Logging.Log | Kyu/Source/Logger.swift:52-57 | A message is written, as one record of its level's log type, exactly when its level's raw value is at or above the threshold's and the level is not `off`; otherwise the logger is unchanged |
| Logging.LogInfo | Kyu/Source/Logger.swift:30-33 | An info message, with its prefix, is written only under the `info` threshold |
| Logging.LogDebug | Kyu/Source/Logger.swift:35-38 | A debug message is written exactly under the `info` and `debug` thresholds |
| Logging.LogError | Kyu/Source/Logger.swift:40-43 | An error message is written exactly under the `info`, `debug` and `error` thresholds |
| Logging.LogFault | Kyu/Source/Logger.swift:45-48 | A fault message is written under every threshold except `off` |
| Logging.NewLogger | Kyu/Source/Logger.swift:16-26 | A new logger has written nothing |
| Logging.LevelsTotallyOrdered | Kyu/Source/Logger.swift:66-97 | The levels, compared by raw value, form a strict total order, with info < debug < error < fault < off |
| Logging.ShouldEmitIff | Kyu/Source/Logger.swift:54-55 | The gate passes if and only if the level is at or above the threshold and is not `off` (the only level without a log type) |
| Logging.OffMessagesNeverEmitted | Kyu/Source/Logger.swift:85-86 | A message at level `off` is never written, whatever the threshold |
| Logging.OffThresholdSilencesAll | Kyu/Source/Logger.swift:30-57 | With the threshold at `off`, none of info, debug, error and fault writes anything |
| Logging.DefaultLoggerEmitsAll | Kyu/Source/Logger.swift:16 | Under a logger's own default threshold `info`, each of the four entry points writes one record |
| Uuids.UuidString | Kyu/Source/Directory.swift:22 | An entry name, a job id's `uuidString`, is always 36 characters long |
| Uuids.UuidRoundTrip | Kyu/Source/Directory.swift:22 | Parsing a rendered id string gives back the id |
| Uuids.UuidStringInjective | Kyu/Source/Directory.swift:22 | Distinct job ids have distinct entry names |
| Jobs.ExecutableFromExecutionDate | Kyu/Source/Job.swift:43 | `isExecutable`: a job is executable at its execution date, and once executable stays executable at every later time |
| Jobs.DefaultRetryCooldown | Kyu/Source/Job.swift:48-51 | For a non-negative retry count, the default cooldown is at least the 15-second base plus the jitter |
| Jobs.CooldownGrowsWithRetries | Kyu/Source/Job.swift:50 | With the same jitter, a job retried more often never waits less |
| Jobs.DefaultRetryCooldownBounds | Kyu/Source/Job.swift:48-51 | For n >= 0 retries, the default cooldown lies in [n^4 + 15, n^4 + 15 + 30(n + 1)] for every jitter in [0, 30] |
| Jobs.IncrementRetryCount | Kyu/Source/Job.swift:53-57 | The retry count goes up by exactly one. The job becomes executable exactly from `now + cooldown` on. id, maximum retries and payload are untouched |
| Jobs.BackoffRetryWaits | Kyu/Source/Job.swift:43-57 | With the default cooldown, taken from the count before the increment, a retried job is not executable at the instant of its retry. Its new date lies within the backoff window of its previous retry count |
| Directories.EntryUrl | Kyu/Source/Directory.swift:22 | `url(for:)`: a job's entry lies directly inside the store and is named by the job id's `uuidString` |
| Directories.PayloadUrl | Kyu/Source/Directory.swift:23 | `payloadURL(for: Job)`: the payload is the file `job` directly inside the job's entry |
| Directories.PayloadUrlForName | Kyu/Source/Directory.swift:24 | `payloadURL(for: String)`: the payload of the entry called `name` is the file `job` inside store/name |
| Directories.Encode | Kyu/Source/Kyu.swift:223 | An encoded job decodes back to exactly that job |
| Directories.PayloadUrlsAgree | Kyu/Source/Directory.swift:18-24 | A job's entry sits directly in the store under its id string. Its payload is the file `job` inside it. Both `payloadURL` overloads agree on a job's own id string |
| Directories.EntryUrlsDistinct | Kyu/Source/Directory.swift:22 | Two jobs with distinct ids never share an entry location within one store |
| Directories.CreateDirectory | Kyu/Source/Directory.swift:38 | A successful `createDirectory` leaves a directory at the path |
| Directories.CreateDirectoryEffect | Kyu/Source/Directory.swift:38 | A successful `createDirectory` keeps every existing path with its job entries. The only paths it adds are the path itself and directories above it. Each holds no job entries and sits inside a directory |
| Directories.CreateDirectoryFailure | Kyu/Source/Directory.swift:38 | `createDirectory` fails only when a plain file sits at the path or above it |
| Directories.CreateDirectorySucceeds | Kyu/Source/Directory.swift:38 | With no plain file at or above the path, `createDirectory` succeeds |
| Directories.CreateDirectoryFailsUnderFile | Kyu/Source/Directory.swift:38 | With a plain file above the path and nothing between it and the path, `createDirectory` fails |
| Directories.Setup | Kyu/Source/Directory.swift:26-39 | It fails with `fileExistsInDirectoryURL(url)` exactly when a plain file occupies the path. Otherwise the only failure is `createDirectory`'s error, and only for an absent path. On success a directory is at the path. An existing directory is left exactly as it was |
| Directories.SetupCreates | Kyu/Source/Directory.swift:26-39 | A successful `setup()` keeps every existing path with its job entries. The only paths it adds are the directory and the missing directories above it. Each holds no job entries and sits inside a directory |
| Directories.SetupFailsUnderFile | Kyu/Source/Directory.swift:35-38 | When `setup()` fails to create its directory, a plain file sits above the path |
| Directories.SetupSucceeds | Kyu/Source/Directory.swift:26-39 | With no plain file at or above the path, `setup()` succeeds |
| Directories.SetupKeepsFiles | Kyu/Source/Directory.swift:26-39 | A successful `setup()` neither creates nor removes a plain file |
| Directories.SetupKeepsContents | Kyu/Source/Directory.swift:26-39 | A successful `setup()` leaves the job entries of every directory as they were. The directories it creates, the store and any missing ancestors, hold no job entries |
| Directories.SetupIdempotent | Kyu/Source/Directory.swift:26-39 | After a successful `setup()`, a second one succeeds and changes nothing |
| Directories.CountDecodedMatches | Kyu/Source/Kyu.swift:161-176 | Counting the decodable payloads over any listing of a store gives the number of entries that decode. That is never more than the number of entries |
| Engine.Init | Kyu/Source/Kyu.swift:63-89 | Success means no store path holds a plain file. A plain file at the pending path is reported first. Every error names one of the four store paths. The new queue is idle, with the given log level and an empty log. Its stores are the entries already on disk, which the next selection reads; construction starts nothing |
| Engine.InitReportsFirstOccupied | Kyu/Source/Kyu.swift:82-89 | With no plain file at or above the root, construction fails exactly when a store path holds a plain file. It reports `fileExistsInDirectoryURL` of the first such path in the order pending, completed, failed, temp |
| Engine.InitUnderFile | Kyu/Source/Kyu.swift:82-84 | With a plain file at or above the root and nothing below it, construction fails at pending with `createDirectory`'s error |
| Engine.StoreUrlsDistinct | Kyu/Source/Kyu.swift:50-53 | The four store directories are pairwise distinct |
| Engine.InitOnEmptyDisk | Kyu/Source/Kyu.swift:63-89 | On a root where nothing exists, construction succeeds with four empty stores. Nothing runs and the queue is consistent |
| Engine.Add | Kyu/Source/Kyu.swift:219-243 | The add fails if and only if the id is already pending, with `failedAddingJob(jobAlreadyExists)`. Otherwise pending gains exactly that job under its id string. temp holds no entry for it. completed, failed, the running job and the log are unchanged |
| Engine.AddTwice | Kyu/Source/Kyu.swift:225-227 | Adding the same job twice: the second add fails and the decodable pending count has grown by exactly one |
| Engine.AddAcceptsCompletedName | Kyu/Source/Kyu.swift:225-227 | An id that is only in completed is accepted again, and it then sits in two stores |
| Engine.AddAcceptsFailedName | Kyu/Source/Kyu.swift:225-227 | An id that is only in failed is accepted again, and it then sits in two stores |
| Engine.AddPreservesConsistent | Kyu/Source/Kyu.swift:219-243 | Adding a job whose id is neither completed nor failed keeps every store well keyed, each id in at most one store, and the running job filed |
| Engine.EarliestExecutable | Kyu/Source/Kyu.swift:153-159 | Over a listing: nothing is returned if and only if no listed entry decodes to an executable job. Otherwise the result is a listed executable job whose execution date is minimal among them |
| Engine.NextExecutablePendingJob | Kyu/Source/Kyu.swift:153-159 | Nothing is returned if and only if no pending job is executable at `now`. Otherwise the result is an executable pending job with the earliest execution date |
| Engine.EarliestExecutableOverListing | Kyu/Source/Kyu.swift:153-176 | The selection over a listing of the pending directory means the same as a selection over the whole pending store, for every listing order |
| Engine.ProcessNextJob | Kyu/Source/Kyu.swift:101-106 | While a job is processing nothing happens. Otherwise a job starts if and only if one is executable, and it is the earliest executable one. Selection changes nothing but the running job |
| Engine.ProcessNextJobPreservesConsistent | Kyu/Source/Kyu.swift:101-106 | Selection keeps the queue consistent: the job it starts is the one filed under its id string |
| Engine.MoveEntry | Kyu/Source/Kyu.swift:141-151 | The move succeeds if and only if the source holds the entry and the destination does not. The entry then changes store with its bytes unchanged, and nothing else moves |
| Engine.HandleOutcome | Kyu/Source/Kyu.swift:108-131 | After any outcome nothing is processing. temp and the root are unchanged. Every store changes at most the running job's entry. Completed and failed entries are never removed or altered |
| Engine.SuccessMovesToCompleted | Kyu/Source/Kyu.swift:113-114 | On success the running job's pending entry moves to completed unchanged. When the move cannot happen, every store stays as it was and a fault is logged |
| Engine.ExhaustedFailureMovesToFailed | Kyu/Source/Kyu.swift:115-116 | On failure with `numberOfRetries >= maximumNumberOfRetries`, the entry moves from pending to failed unchanged. When the move cannot happen, every store stays as it was and a fault is logged |
| Engine.OtherFailureRetriesInPlace | Kyu/Source/Kyu.swift:117-130 | On any other failure the entry stays pending and now holds the same job with one more retry, executable from `now + cooldown`. completed and failed are untouched. Without the entry's directory the write fails, nothing changes and a fault is logged |
| Engine.HandleOutcomePreservesConsistent | Kyu/Source/Kyu.swift:111-131 | Every outcome keeps the queue consistent, with no freshness assumption, because a move into a store that already holds the id is refused |
| Engine.RetryCountNeverDecreases | Kyu/Source/Kyu.swift:117-125 | While a job stays pending, its retry count never goes down |
| Engine.Finish | Kyu/Source/Kyu.swift:34-39 | After an outcome is handled, clearing `isProcessing` selects again. A job is running afterwards if and only if one is executable, and it is the earliest |
| Engine.NumberOfPendingJobs | Kyu/Source/Kyu.swift:161-176 | The pending count is the number of pending entries that decode; undecodable entries are skipped |
| Engine.NumberOfFailedJobs | Kyu/Source/Kyu.swift:178-193 | The failed count is the number of failed entries that decode |
| Engine.NumberOfCompletedJobs | Kyu/Source/Kyu.swift:195-210 | The completed count is the number of completed entries that decode |
| Engine.KyuDefaultLogsOnlyFaults | Kyu/Source/Kyu.swift:63-75 | Under Kyu's default threshold `fault`, only fault messages are written. Under a logger's own default `info`, every level but `off` is |
| AppendNewLineJobs.NewAppendNewLineJob | KyuTests/Source/Models/AppendNewLineJob.swift:15-36 | A new fixture job has the given id, has never been retried, and is executable at its creation time |
| AppendNewLineJobs.Execute | KyuTests/Source/Models/AppendNewLineJob.swift:40-66 | An unopenable file means failure with nothing written. Otherwise exactly one line is appended: the text when the job succeeds, the failure text otherwise. It succeeds if and only if the job has been retried at least `numberOfTimesToFail` times |
| AppendNewLineJobs.FixtureDefaults | KyuTests/Source/Models/AppendNewLineJob.swift:16-28 | By default a fixture job starts with 0 retries, is never forced to fail, and allows 5 retries |
| AppendNewLineJobs.FixtureRetryIsImmediate | KyuTests/Source/Models/AppendNewLineJob.swift:17 | With the fixture's zero cooldown, a retried job is executable again at the same instant |
| FixtureRuns.LoneJobSucceeds | Kyu/Source/Kyu.swift:108-114 | A lone running job that succeeds writes its text, is filed in completed, and leaves nothing pending or running |
| FixtureRuns.LoneJobExhausts | Kyu/Source/Kyu.swift:115-116 | A lone running job that fails with no retries left writes its failure text, is filed in failed, and leaves nothing pending or running |
| FixtureRuns.LoneJobRetries | Kyu/Source/Kyu.swift:117-125 | A lone running job that fails with retries left writes its failure text. It is rewritten with one more retry and selected again at once |
| FixtureRuns.RewrittenJobSelected | Kyu/Source/Kyu.swift:153-159 | With exactly one pending job, executable now, selection starts that job |
| FixtureRuns.CycleStep | Kyu/Source/Kyu.swift:101-131 | One cycle writes the running job's text when it has been retried enough, and its failure text otherwise. Nothing is written when the file cannot be opened. The matching outcome is handled by the engine. Selection then starts a job if and only if one is executable, and it is the earliest |
| FixtureRuns.RunTrace | Kyu/Source/Kyu.swift:34-39 | A run executes at most one job per cycle. It starts with the running job. It ends before its cycles are used up only when nothing is left running |
| FixtureRuns.RunIsLoneRun | Kyu/Source/Kyu.swift:101-131 | For a lone job, the engine's run equals an independent hand-worked recurrence of attempts, for every number of cycles |
| FixtureRuns.LoneRunStops | Kyu/Source/Kyu.swift:111-131 | Given enough cycles, a lone job runs once per retry up to the count where it stops, plus one. It writes one failure line per failed attempt, then the line of its last attempt. It is filed in completed if it stopped by succeeding and in failed otherwise. Nothing is left pending or running |
| FixtureRuns.RunSingleJob | Kyu/Source/Kyu.swift:101-131 | The engine's run of a lone job ends as the previous row describes |
| FixtureRuns.SelectKeepsDrainable | Kyu/Source/Kyu.swift:153-159 | Selecting over jobs that all succeed at `now` starts one of them when any is pending, and the stores stay as they were |
| FixtureRuns.DrainStep | Kyu/Source/Kyu.swift:108-114 | A cycle on such a queue executes the running job, writes its text, and moves its entry to completed unchanged. The next job is selected |
| FixtureRuns.Drains | Kyu/Source/Kyu.swift:101-131 | Given one cycle per pending job, a queue of jobs that all succeed is drained. Each pending entry is executed exactly once and moves to completed unchanged. The file gains the jobs' texts in execution order. Nothing is left running or pending |
| FixtureRuns.AddAll | KyuTests/Source/Tests/KyuTests.swift:45-47 | Adding jobs one after another never touches completed, failed or the running job, and never removes a pending id |
| FixtureRuns.AddAllFresh | Kyu/Source/Kyu.swift:219-243 | Adding jobs with distinct, not yet pending ids files each one under its own id string. What was pending is kept, nothing else is added, and pending grows by one entry per job |
| FixtureRuns.StartLone | KyuTests/Source/Tests/KyuTests.swift:91-92 | A single executable job added to a fresh queue starts running as the only job |
| FixtureRuns.StartDrainable | KyuTests/Source/Tests/KyuTests.swift:43-48 | Jobs that all succeed, added to a fresh queue with distinct ids, are all pending and one of them is running when the watcher first wakes up |
| FixtureRuns.DrainedFreshQueue | Kyu/Source/Kyu.swift:161-210 | A drained fresh queue shows each job executed once and the texts in execution order. The counts read 0 pending, one completed per job, and 0 failed |
| FixtureRuns.ExecutingSucceedingJobs | KyuTests/Source/Tests/KyuTests.swift:37-60 | Any number of jobs that all succeed, added with distinct ids and given one cycle per job: each runs, and only they run, once per job. The file ends with their texts. The counts read 0 pending, |jobs| completed, and 0 failed |
| FixtureRuns.ExecutingJobs | KyuTests/Source/Tests/KyuTests.swift:37-60 | testExecutingJobs: the four jobs each run. The file ends with four lines, each one of "0" to "3". The counts read 4 completed and 0 pending |
| FixtureRuns.RetryingJobExecution | KyuTests/Source/Tests/KyuTests.swift:85-109 | testRetryingJobExecution: a job set to fail three times runs exactly four times. The file reads three failure lines and then its text. The counts read 1 completed and 0 pending |
| FixtureRuns.RetryingJobsStopAfterMaxNumberOfRetries | KyuTests/Source/Tests/KyuTests.swift:111-133 | testRetryingJobsStopAfterMaxNumberOfRetries: a job set to fail ten times, with at most two retries, runs exactly three times. It writes three failure lines and ends in failed. The counts read 1 failed, 0 completed and 0 pending |

## Left out

- The `DispatchSource` directory watcher, the two dispatch queues and cross-thread
  races on `isProcessing`. A wake-up is a call of `ProcessNextJob`, and single-flight is
  a sequential guard. The program wakes only on a write into pending or when a job ends;
  the model lets `ProcessNextJob` be called at any time. So jobs left pending by an
  earlier process, or retried with a positive cooldown, wait in the program for the
  next write into pending.
- The scenarios add all jobs before the first wake-up. In the program the watcher may
  start the first job while later adds are still arriving. That changes the order of
  execution, not which jobs run or where they end.
- Runs happen at a single instant `now`. The fixture's zero cooldown makes a retried
  job's date that same instant. `expectToEventually`'s five-second timeout is replaced
  by a bound on the number of cycles (`fuel`), and each theorem requires enough of them.
- `FileManager` faults beyond those modelled: creating a directory, writing a file or
  encoding JSON that fails for lack of space or permission. The modelled failures are:
  - a plain file at a store's path, or at or above it, when `setup()` runs;
  - a move whose source is gone or whose destination exists;
  - a retry write whose entry directory is gone.
- Directories.Setup: `CreateDirectoryFailed(url)` stands for the Foundation error
  `createDirectory` throws. Its domain and code are not modelled.
- The filesystem root is a path like any other. On a disk where it is absent, creating a
  store creates it as well.
- Directories.SetupKeepsContents, Directories.CreateDirectoryEffect and
  Directories.SetupCreates: a folder's entries are its job entries; a directory created
  inside another does not appear among its parent's entries. In the program the parent
  gains the new directory's name, and every created ancestor holds the one below it.
- Engine.InitReportsFirstOccupied: assumes no plain file at or above the root.
  `Engine.InitUnderFile` covers a plain file there. Neither covers a disk that lists a
  path below a plain file, which no real filesystem holds.
- JSON encoding and decoding: an entry is an encoded job or an undecodable entry, and
  encoding round-trips exactly.
- `Double`, `pow`, `Double.random` and `Date()`. Time and cooldowns are exact reals,
  with no rounding, no infinities and no randomness: the random draw is a parameter.
- Jobs.IncrementRetryCount: does not trap at `Int.max` the way `numberOfRetries += 1`
  does, because retry counts are unbounded integers.
- Engine.NextExecutablePendingJob: promises an executable job with the earliest date,
  not which one among equal dates. The program sorts the directory listing, and the
  listing order is unspecified.
- The os_log call itself. Only the gate is modelled, together with the kind of record
  it writes.
- The text of the engine's fault messages. The retry failure leaves out the thrown
  error's description, which is not modelled. Paths are rendered as `/`-joined
  components rather than `URL` descriptions. The contracts promise only that a fault is
  logged.
- FixtureRuns.Cycle, FixtureRuns.Drains, FixtureRuns.DrainedFreshQueue and
  FixtureRuns.ExecutingSucceedingJobs: a job's `fileUrl` is not consulted. Every job of a
  run writes to one shared file, as in every KyuTests scenario. Jobs whose `fileURL`s
  differ would each write their own file in the program, so "the file gains the jobs'
  texts in execution order" describes the program only when they share one.
- AppendNewLineJobs.Execute: the target file is the sequence of appended texts. The
  tests read it back with `split(separator: "\n")`, which drops empty lines and breaks a
  text containing a newline. So the scenario theorems match the tests' lines only for
  non-empty texts without a newline.
- `delete(job:)`, which nothing in the program calls.
- The `onWillExecuteJob` hook used by testOnWillExecuteJobHook. The engine has no such
  hook.
- The XCTest polling helper and Package.swift.
