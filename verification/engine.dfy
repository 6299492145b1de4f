/** The queue engine of Kyu.swift as a sequential state machine over four stores: temp,
    pending, completed and failed. Every step is a pure function of the engine state:
    `Init` (construction and `setup`), `Add`, `ProcessNextJob` (selection under the
    single-flight guard), `HandleOutcome` (the switch in the completion closure) and
    `Finish` (the outcome followed by the re-selection `isProcessing`'s observer triggers).
    The job being executed is `running`; `isProcessing` is `running.Some?`. The
    directory watcher and the dispatch queues are not modelled: a wake-up is a call of
    `ProcessNextJob`, and a directory listing is a parameter that lists the store. */
module Engine {
  import opened Results
  import opened Logging
  import opened Uuids
  import opened Jobs
  import opened Directories

  const TempDirectoryName: string := "temp"
  const PendingDirectoryName: string := "pending"
  const CompletedDirectoryName: string := "completed"
  const FailedDirectoryName: string := "failed"

  /** The threshold a `Kyu` gives its logger unless told otherwise. */
  const KyuDefaultLogLevel: LogLevel := Fault

  function TempDirectory(root: Url): (dir: Directory) { Directory(root + [TempDirectoryName]) }
  function PendingDirectory(root: Url): (dir: Directory) { Directory(root + [PendingDirectoryName]) }
  function CompletedDirectory(root: Url): (dir: Directory) { Directory(root + [CompletedDirectoryName]) }
  function FailedDirectory(root: Url): (dir: Directory) { Directory(root + [FailedDirectoryName]) }

  /** What a job's `execute` reports through its completion closure. */
  datatype ExecutionResult = Succeeded | Failed

  /** `Kyu.JobError`; `reason` stands for the wrapped `Error`. */
  datatype JobError = FailedAddingJob(reason: JobError) | JobAlreadyExists

  datatype Kyu<P> = Kyu(
    url: Url,
    logger: Logger,
    temp: Store<P>,
    pending: Store<P>,
    completed: Store<P>,
    failed: Store<P>,
    running: Option<Job<P>>)

  /** The single-flight flag. */
  predicate IsProcessing<P>(k: Kyu<P>) {
    k.running.Some?
  }

  // ---------------------------------------------------------------------------------
  // Construction

  /** `init(url:logLevel:)`: sets up pending, completed, failed and temp in that order,
      stopping at the first that fails. Existing directories keep their entries: the
      stores are the entries already on disk, which the next selection reads.
      Construction starts nothing. */
  function Init<P>(root: Url, logLevel: LogLevel, disk: Disk<P>): (r: Result<Kyu<P>, SetupError>)
    ensures r.Ok? ==>
              && !Occupied(disk, PendingDirectory(root).url)
              && !Occupied(disk, CompletedDirectory(root).url)
              && !Occupied(disk, FailedDirectory(root).url)
              && !Occupied(disk, TempDirectory(root).url)
    ensures Occupied(disk, PendingDirectory(root).url) ==>
              r == Err(FileExistsInDirectoryURL(PendingDirectory(root).url))
    ensures r.Err? ==> r.error.url in {PendingDirectory(root).url, CompletedDirectory(root).url,
                                       FailedDirectory(root).url, TempDirectory(root).url}
    ensures r.Ok? ==>
              && r.value.url == root
              && r.value.logger == Logger(logLevel, [])
              && r.value.running == None
              && r.value.pending == ContentsAt(disk, PendingDirectory(root).url)
              && r.value.completed == ContentsAt(disk, CompletedDirectory(root).url)
              && r.value.failed == ContentsAt(disk, FailedDirectory(root).url)
              && r.value.temp == ContentsAt(disk, TempDirectory(root).url)
  {
    StoreUrlsDistinct(root);
    var d1 :- Setup(PendingDirectory(root), disk);
    var d2 :- Setup(CompletedDirectory(root), d1);
    var d3 :- Setup(FailedDirectory(root), d2);
    var d4 :- Setup(TempDirectory(root), d3);
    SetupKeepsContents(PendingDirectory(root), disk);
    SetupKeepsContents(CompletedDirectory(root), d1);
    SetupKeepsContents(FailedDirectory(root), d2);
    SetupKeepsContents(TempDirectory(root), d3);
    SetupKeepsFiles(PendingDirectory(root), disk);
    SetupKeepsFiles(CompletedDirectory(root), d1);
    SetupKeepsFiles(FailedDirectory(root), d2);
    Ok(Kyu(root, Logger(logLevel, []),
           ContentsAt(d4, TempDirectory(root).url),
           ContentsAt(d4, PendingDirectory(root).url),
           ContentsAt(d4, CompletedDirectory(root).url),
           ContentsAt(d4, FailedDirectory(root).url),
           None))
  }

  /** A store directory has no plain file at or above it when neither the root path nor
      the store path itself holds one. */
  lemma StoreNoFileAbove<P>(disk: Disk<P>, root: Url, name: string)
    requires NoFileAbove(disk, root) && !Occupied(disk, root + [name])
    ensures NoFileAbove(disk, root + [name])
  {
    var url := root + [name];
    forall i | 0 <= i <= |url| ensures !Occupied(disk, url[..i]) {
      if i <= |root| {
        assert url[..i] == root[..i];
      } else {
        assert url[..i] == url;
      }
    }
  }

  /** With no plain file at or above the root, construction fails exactly when a store
      path holds a plain file, and it reports the first such path in the order pending,
      completed, failed, temp. */
  lemma InitReportsFirstOccupied<P>(root: Url, logLevel: LogLevel, disk: Disk<P>)
    requires NoFileAbove(disk, root)
    ensures var r := Init(root, logLevel, disk);
            && (r.Ok? <==>
                  && !Occupied(disk, PendingDirectory(root).url)
                  && !Occupied(disk, CompletedDirectory(root).url)
                  && !Occupied(disk, FailedDirectory(root).url)
                  && !Occupied(disk, TempDirectory(root).url))
            && (Occupied(disk, PendingDirectory(root).url) ==>
                  r == Err(FileExistsInDirectoryURL(PendingDirectory(root).url)))
            && (!Occupied(disk, PendingDirectory(root).url) && Occupied(disk, CompletedDirectory(root).url) ==>
                  r == Err(FileExistsInDirectoryURL(CompletedDirectory(root).url)))
            && (!Occupied(disk, PendingDirectory(root).url) && !Occupied(disk, CompletedDirectory(root).url)
                && Occupied(disk, FailedDirectory(root).url) ==>
                  r == Err(FileExistsInDirectoryURL(FailedDirectory(root).url)))
            && (!Occupied(disk, PendingDirectory(root).url) && !Occupied(disk, CompletedDirectory(root).url)
                && !Occupied(disk, FailedDirectory(root).url) && Occupied(disk, TempDirectory(root).url) ==>
                  r == Err(FileExistsInDirectoryURL(TempDirectory(root).url)))
  {
    var pending, completed, failed, temp := PendingDirectory(root), CompletedDirectory(root),
                                            FailedDirectory(root), TempDirectory(root);
    if !Occupied(disk, pending.url) {
      StoreNoFileAbove(disk, root, PendingDirectoryName);
      SetupSucceeds(pending, disk);
      var d1 := Setup(pending, disk).value;
      SetupKeepsFiles(pending, disk);
      if !Occupied(disk, completed.url) {
        StoreNoFileAbove(d1, root, CompletedDirectoryName);
        SetupSucceeds(completed, d1);
        var d2 := Setup(completed, d1).value;
        SetupKeepsFiles(completed, d1);
        if !Occupied(disk, failed.url) {
          StoreNoFileAbove(d2, root, FailedDirectoryName);
          SetupSucceeds(failed, d2);
          var d3 := Setup(failed, d2).value;
          SetupKeepsFiles(failed, d2);
          if !Occupied(disk, temp.url) {
            StoreNoFileAbove(d3, root, TempDirectoryName);
            SetupSucceeds(temp, d3);
          }
        }
      }
    }
  }

  /** A plain file at or above the root, with nothing below it on the way to pending:
      setting up pending fails to create its directory, and construction fails there. */
  lemma InitUnderFile<P>(root: Url, logLevel: LogLevel, disk: Disk<P>, i: nat)
    requires i <= |root| && Occupied(disk, root[..i])
    requires forall j :: i < j <= |root| ==> root[..j] !in disk
    requires PendingDirectory(root).url !in disk
    ensures Init(root, logLevel, disk) == Err(CreateDirectoryFailed(PendingDirectory(root).url))
  {
    var url := PendingDirectory(root).url;
    forall j | i < j <= |url| ensures url[..j] !in disk {
      if j <= |root| {
        assert url[..j] == root[..j];
      } else {
        assert url[..j] == url;
      }
    }
    assert url[..i] == root[..i];
    CreateDirectoryFailsUnderFile(disk, url, i);
  }

  lemma StoreUrlsDistinct(root: Url)
    ensures PendingDirectory(root).url != CompletedDirectory(root).url
    ensures PendingDirectory(root).url != FailedDirectory(root).url
    ensures PendingDirectory(root).url != TempDirectory(root).url
    ensures CompletedDirectory(root).url != FailedDirectory(root).url
    ensures CompletedDirectory(root).url != TempDirectory(root).url
    ensures FailedDirectory(root).url != TempDirectory(root).url
  {
    assert PendingDirectory(root).url[|root|] == PendingDirectoryName;
    assert CompletedDirectory(root).url[|root|] == CompletedDirectoryName;
    assert FailedDirectory(root).url[|root|] == FailedDirectoryName;
    assert TempDirectory(root).url[|root|] == TempDirectoryName;
  }

  // ---------------------------------------------------------------------------------
  // Adding a job

  /** `add(job:)`: refuse a name already pending; otherwise stage the encoded job in
      temp/<id>/job and move temp/<id> to pending/<id>. The refusal is thrown inside the
      `do` block, so the caller sees it wrapped in `FailedAddingJob`. */
  function Add<P>(k: Kyu<P>, job: Job<P>): (r: Result<Kyu<P>, JobError>)
    ensures r.Err? <==> Key(job) in k.pending
    ensures r.Err? ==> r.error == FailedAddingJob(JobAlreadyExists)
    ensures r.Ok? ==>
              && Key(job) in r.value.pending
              && Decode(r.value.pending[Key(job)]) == Some(job)
              && r.value.pending - {Key(job)} == k.pending
              && Key(job) !in r.value.temp
              && r.value.temp - {Key(job)} == k.temp - {Key(job)}
              && r.value.completed == k.completed
              && r.value.failed == k.failed
              && r.value.running == k.running
              && r.value.logger == k.logger
              && r.value.url == k.url
  {
    var key := Key(job);
    var data := Encode(job);
    if key in k.pending then
      Err(FailedAddingJob(JobAlreadyExists))
    else
      var staged := k.temp[key := data];
      Ok(k.(temp := staged - {key}, pending := k.pending[key := staged[key]]))
  }

  // ---------------------------------------------------------------------------------
  // Selecting the next job

  /** The entry called `name` decodes to a job executable at `now`. */
  predicate IsCandidate<P>(store: Store<P>, name: string, now: real) {
    DecodedAt(store, name).Some? && IsExecutable(DecodedAt(store, name).value, now)
  }

  ghost predicate HasExecutable<P>(store: Store<P>, now: real) {
    exists name :: name in store && IsCandidate(store, name, now)
  }

  /** `job` is filed in `store`, executable at `now`, and no executable job in `store`
      has an earlier execution date. */
  ghost predicate IsEarliestExecutable<P>(store: Store<P>, now: real, job: Job<P>) {
    && (exists name :: name in store && DecodedAt(store, name) == Some(job))
    && IsExecutable(job, now)
    && forall name :: name in store && IsCandidate(store, name, now) ==>
         job.executionDate <= DecodedAt(store, name).value.executionDate
  }

  /** Filter to executable jobs, sort by execution date, take the first: over a listing,
      the first job in listing order among those with the earliest date. */
  function EarliestExecutable<P>(store: Store<P>, names: seq<string>, now: real): (r: Option<Job<P>>)
    ensures r.None? <==> forall i :: 0 <= i < |names| ==> !IsCandidate(store, names[i], now)
    ensures r.Some? ==> exists i :: 0 <= i < |names| && IsCandidate(store, names[i], now) && DecodedAt(store, names[i]) == r
    ensures r.Some? ==> forall i :: 0 <= i < |names| && IsCandidate(store, names[i], now) ==>
                          r.value.executionDate <= DecodedAt(store, names[i]).value.executionDate
    decreases |names|
  {
    if |names| == 0 then None
    else
      var rest := EarliestExecutable(store, names[1..], now);
      if !IsCandidate(store, names[0], now) then
        assert forall i :: 1 <= i < |names| ==> names[i] == names[1..][i - 1];
        rest
      else
        var head := DecodedAt(store, names[0]).value;
        assert forall i :: 1 <= i < |names| ==> names[i] == names[1..][i - 1];
        if rest.Some? && rest.value.executionDate < head.executionDate then rest else Some(head)
  }

  /** `nextExecutablePendingJob()` over a listing of the pending store. */
  function NextExecutablePendingJob<P>(pending: Store<P>, listing: seq<string>, now: real): (r: Option<Job<P>>)
    requires Lists(listing, pending)
    ensures r.None? <==> !HasExecutable(pending, now)
    ensures r.Some? ==> IsEarliestExecutable(pending, now, r.value)
  {
    EarliestExecutableOverListing(pending, listing, now);
    EarliestExecutable(pending, listing, now)
  }

  lemma EarliestExecutableOverListing<P>(pending: Store<P>, listing: seq<string>, now: real)
    requires Lists(listing, pending)
    ensures var r := EarliestExecutable(pending, listing, now);
            && (r.None? <==> !HasExecutable(pending, now))
            && (r.Some? ==> IsEarliestExecutable(pending, now, r.value))
  {
    var r := EarliestExecutable(pending, listing, now);
    if r.None? {
      forall name | name in pending ensures !IsCandidate(pending, name, now) {
        var i :| 0 <= i < |listing| && listing[i] == name;
      }
    } else {
      var i :| 0 <= i < |listing| && IsCandidate(pending, listing[i], now) && DecodedAt(pending, listing[i]) == r;
      assert listing[i] in pending;
      forall name | name in pending && IsCandidate(pending, name, now)
        ensures r.value.executionDate <= DecodedAt(pending, name).value.executionDate
      {
        var j :| 0 <= j < |listing| && listing[j] == name;
      }
    }
  }

  /** `processNextJob()`: nothing happens while a job is processing or when no pending
      job is executable; otherwise the earliest executable job starts running. */
  function ProcessNextJob<P>(k: Kyu<P>, listing: seq<string>, now: real): (r: Kyu<P>)
    requires Lists(listing, k.pending)
    ensures r.(running := k.running) == k
    ensures IsProcessing(k) ==> r == k
    ensures !IsProcessing(k) ==> (IsProcessing(r) <==> HasExecutable(k.pending, now))
    ensures !IsProcessing(k) && IsProcessing(r) ==> IsEarliestExecutable(k.pending, now, r.running.value)
  {
    if IsProcessing(k) then k
    else
      match NextExecutablePendingJob(k.pending, listing, now)
      case None => k
      case Some(job) => k.(running := Some(job))
  }

  // ---------------------------------------------------------------------------------
  // Handling an outcome

  /** `fileManager.moveItem` on the entry called `name`: fails when the source entry is
      missing or the destination already holds one; otherwise the entry, bytes and all,
      changes store. */
  function MoveEntry<P>(source: Store<P>, destination: Store<P>, name: string): (r: Option<(Store<P>, Store<P>)>)
    ensures r.Some? <==> name in source && name !in destination
    ensures r.Some? ==> name !in r.value.0 && r.value.0 + map[name := source[name]] == source
    ensures r.Some? ==> name in r.value.1 && r.value.1[name] == source[name] && r.value.1 - {name} == destination
  {
    if name in source && name !in destination then
      Some((source - {name}, destination[name := source[name]]))
    else
      None
  }

  function PathString(url: Url): (path: string)
    decreases |url|
  {
    if |url| == 0 then "" else "/" + url[0] + PathString(url[1..])
  }

  function MoveFailedMessage<P>(job: Job<P>, source: Directory, destination: Directory): (message: string) {
    "Failed to move job (" + Key(job) + "). From " + PathString(source.url) + "/" + Key(job)
      + " To " + PathString(destination.url) + "/" + Key(job)
  }

  function RetryFailedMessage<P>(job: Job<P>): (message: string) {
    "Failed to increment job (" + Key(job) + ") retry count."
  }

  /** Two stores that agree on every name except possibly `name`. */
  ghost predicate AgreeExcept<P>(a: Store<P>, b: Store<P>, name: string) {
    forall other :: other != name ==> (other in a <==> other in b) && (other in a ==> a[other] == b[other])
  }

  /** The logger after one fault message: a record is written unless logging is off. */
  ghost predicate FaultLogged(before: Logger, after: Logger) {
    && after.logLevel == before.logLevel
    && (before.logLevel != Off ==> |after.output| == |before.output| + 1 && after.output[..|before.output|] == before.output)
    && (before.logLevel == Off ==> after == before)
  }

  /** The completion closure of `processNextJob()`: success moves the running job's entry
      from pending to completed; a failure once `numberOfRetries >= maximumNumberOfRetries`
      moves it from pending to failed; any other failure rewrites the entry in pending
      with the retry count advanced and the execution date pushed `cooldown` seconds past
      `now`. A move or write that fails is only logged. Afterwards nothing is processing. */
  function HandleOutcome<P>(k: Kyu<P>, result: ExecutionResult, now: real, cooldown: real): (r: Kyu<P>)
    requires k.running.Some?
    ensures !IsProcessing(r)
    ensures r.url == k.url && r.temp == k.temp
    ensures var name := Key(k.running.value);
            && AgreeExcept(k.pending, r.pending, name)
            && AgreeExcept(k.completed, r.completed, name)
            && AgreeExcept(k.failed, r.failed, name)
    ensures forall name :: name in k.completed ==> name in r.completed && r.completed[name] == k.completed[name]
    ensures forall name :: name in k.failed ==> name in r.failed && r.failed[name] == k.failed[name]
  {
    var job := k.running.value;
    var name := Key(job);
    var idle := k.(running := None);
    match result
    case Succeeded =>
      (match MoveEntry(k.pending, k.completed, name)
       case Some((pending, completed)) => idle.(pending := pending, completed := completed)
       case None =>
         idle.(logger := LogFault(k.logger, MoveFailedMessage(job, PendingDirectory(k.url), CompletedDirectory(k.url)))))
    case Failed =>
      if job.numberOfRetries >= job.maximumNumberOfRetries then
        (match MoveEntry(k.pending, k.failed, name)
         case Some((pending, failed)) => idle.(pending := pending, failed := failed)
         case None =>
           idle.(logger := LogFault(k.logger, MoveFailedMessage(job, PendingDirectory(k.url), FailedDirectory(k.url)))))
      else
        var retried := IncrementRetryCount(job, now, cooldown);
        // data.write(to: pending/<id>/job) needs the entry directory pending/<id>.
        if Key(retried) in k.pending then
          idle.(pending := k.pending[Key(retried) := Encode(retried)])
        else
          idle.(logger := LogFault(k.logger, RetryFailedMessage(job)))
  }

  /** Success: the running job's entry goes from pending to completed unchanged, or,
      when the move cannot happen, every store stays as it was and a fault is logged. */
  lemma SuccessMovesToCompleted<P>(k: Kyu<P>, now: real, cooldown: real)
    requires k.running.Some?
    ensures var r := HandleOutcome(k, Succeeded, now, cooldown); var name := Key(k.running.value);
            if name in k.pending && name !in k.completed then
              && name !in r.pending && name in r.completed && r.completed[name] == k.pending[name]
              && r.failed == k.failed && r.logger == k.logger
            else
              && r.pending == k.pending && r.completed == k.completed && r.failed == k.failed
              && FaultLogged(k.logger, r.logger)
  {
  }

  /** A failure with the retries used up: the entry goes from pending to failed, or,
      when the move cannot happen, every store stays as it was and a fault is logged. */
  lemma ExhaustedFailureMovesToFailed<P>(k: Kyu<P>, now: real, cooldown: real)
    requires k.running.Some?
    requires k.running.value.numberOfRetries >= k.running.value.maximumNumberOfRetries
    ensures var r := HandleOutcome(k, Failed, now, cooldown); var name := Key(k.running.value);
            if name in k.pending && name !in k.failed then
              && name !in r.pending && name in r.failed && r.failed[name] == k.pending[name]
              && r.completed == k.completed && r.logger == k.logger
            else
              && r.pending == k.pending && r.completed == k.completed && r.failed == k.failed
              && FaultLogged(k.logger, r.logger)
  {
  }

  /** Any other failure: the entry stays in pending and now holds the job with one more
      retry, executable `cooldown` seconds after `now`; completed and failed are untouched.
      When the entry's directory is gone the write fails, nothing changes and a fault is
      logged. */
  lemma OtherFailureRetriesInPlace<P>(k: Kyu<P>, now: real, cooldown: real)
    requires k.running.Some?
    requires k.running.value.numberOfRetries < k.running.value.maximumNumberOfRetries
    ensures var r := HandleOutcome(k, Failed, now, cooldown); var job := k.running.value; var name := Key(job);
            && r.completed == k.completed && r.failed == k.failed
            && if name in k.pending then
                 && name in r.pending
                 && r.pending[name].Encoded?
                 && r.pending[name].job.id == job.id
                 && r.pending[name].job.numberOfRetries == job.numberOfRetries + 1
                 && r.pending[name].job.executionDate == now + cooldown
                 && r.pending[name].job.maximumNumberOfRetries == job.maximumNumberOfRetries
                 && r.pending[name].job.payload == job.payload
                 && r.logger == k.logger
               else
                 r.pending == k.pending && FaultLogged(k.logger, r.logger)
  {
    var job := k.running.value;
    assert IsExecutable(IncrementRetryCount(job, now, cooldown), now + cooldown);
  }

  /** The outcome handled, `isProcessing` turns false and its observer selects again. */
  function Finish<P>(k: Kyu<P>, result: ExecutionResult, now: real, cooldown: real, listing: seq<string>): (r: Kyu<P>)
    requires k.running.Some?
    requires Lists(listing, HandleOutcome(k, result, now, cooldown).pending)
    ensures r.(running := None) == HandleOutcome(k, result, now, cooldown)
    ensures IsProcessing(r) <==> HasExecutable(r.pending, now)
    ensures IsProcessing(r) ==> IsEarliestExecutable(r.pending, now, r.running.value)
  {
    ProcessNextJob(HandleOutcome(k, result, now, cooldown), listing, now)
  }

  // ---------------------------------------------------------------------------------
  // Counts

  /** `numberOfPendingJobs`: the pending entries that decode, counted over a listing. */
  function NumberOfPendingJobs<P>(k: Kyu<P>, listing: seq<string>): (n: nat)
    requires Lists(listing, k.pending)
    ensures n == |DecodedKeys(k.pending)| && n <= |k.pending|
  {
    CountDecodedMatches(k.pending, listing);
    CountDecoded(k.pending, listing)
  }

  /** `numberOfCompletedJobs`. */
  function NumberOfCompletedJobs<P>(k: Kyu<P>, listing: seq<string>): (n: nat)
    requires Lists(listing, k.completed)
    ensures n == |DecodedKeys(k.completed)| && n <= |k.completed|
  {
    CountDecodedMatches(k.completed, listing);
    CountDecoded(k.completed, listing)
  }

  /** `numberOfFailedJobs`. */
  function NumberOfFailedJobs<P>(k: Kyu<P>, listing: seq<string>): (n: nat)
    requires Lists(listing, k.failed)
    ensures n == |DecodedKeys(k.failed)| && n <= |k.failed|
  {
    CountDecodedMatches(k.failed, listing);
    CountDecoded(k.failed, listing)
  }

  // ---------------------------------------------------------------------------------
  // Invariants

  /** Every entry that decodes is filed under its own job's name. */
  ghost predicate WellKeyed<P>(store: Store<P>) {
    forall name :: name in store && store[name].Encoded? ==> Key(store[name].job) == name
  }

  /** Each name is in at most one of pending, completed and failed. */
  ghost predicate ExclusivelyFiled<P>(k: Kyu<P>) {
    && k.pending.Keys !! k.completed.Keys
    && k.pending.Keys !! k.failed.Keys
    && k.completed.Keys !! k.failed.Keys
  }

  /** The running job is the one its pending entry holds. */
  ghost predicate RunningIsFiled<P>(k: Kyu<P>) {
    k.running.Some? ==> Key(k.running.value) in k.pending && k.pending[Key(k.running.value)] == Encoded(k.running.value)
  }

  ghost predicate Consistent<P>(k: Kyu<P>) {
    && WellKeyed(k.temp) && WellKeyed(k.pending) && WellKeyed(k.completed) && WellKeyed(k.failed)
    && ExclusivelyFiled(k)
    && RunningIsFiled(k)
  }

  /** A queue created on a root where nothing exists yet is empty, idle and consistent. */
  lemma InitOnEmptyDisk<P>(root: Url, logLevel: LogLevel)
    ensures var r := Init<P>(root, logLevel, map[]);
            && r.Ok?
            && r.value.pending == map[] && r.value.completed == map[]
            && r.value.failed == map[] && r.value.temp == map[]
            && !IsProcessing(r.value)
            && Consistent(r.value)
  {
    InitReportsFirstOccupied<P>(root, logLevel, map[]);
  }

  /** Adding a job whose name is in neither completed nor failed keeps the queue consistent. */
  lemma AddPreservesConsistent<P>(k: Kyu<P>, job: Job<P>)
    requires Consistent(k)
    requires Key(job) !in k.completed && Key(job) !in k.failed
    ensures Add(k, job).Ok? ==> Consistent(Add(k, job).value)
  {
    if Add(k, job).Ok? {
      var r := Add(k, job).value;
      var key := Key(job);
      assert r.pending == k.pending[key := Encoded(job)];
      assert r.temp == k.temp - {key};
    }
  }

  /** The duplicate check consults pending only: a job whose name is already completed
      is accepted again and the name ends up both completed and pending. */
  lemma AddAcceptsCompletedName<P>(k: Kyu<P>, job: Job<P>)
    requires Key(job) in k.completed && Key(job) !in k.pending
    ensures Add(k, job).Ok?
    ensures !ExclusivelyFiled(Add(k, job).value)
  {
    var key := Key(job);
    assert key in Add(k, job).value.pending.Keys * Add(k, job).value.completed.Keys;
  }

  /** The same for a name already in failed. */
  lemma AddAcceptsFailedName<P>(k: Kyu<P>, job: Job<P>)
    requires Key(job) in k.failed && Key(job) !in k.pending
    ensures Add(k, job).Ok?
    ensures !ExclusivelyFiled(Add(k, job).value)
  {
    var key := Key(job);
    assert key in Add(k, job).value.pending.Keys * Add(k, job).value.failed.Keys;
  }

  /** Adding the same job twice: the second add fails, changes nothing, and the pending
      count has grown by exactly one. */
  lemma AddTwice<P>(k: Kyu<P>, job: Job<P>)
    requires Key(job) !in k.pending
    ensures Add(k, job).Ok?
    ensures var once := Add(k, job).value;
            && Add(once, job) == Err(FailedAddingJob(JobAlreadyExists))
            && |DecodedKeys(once.pending)| == |DecodedKeys(k.pending)| + 1
  {
    var once := Add(k, job).value;
    var key := Key(job);
    assert once.pending == k.pending[key := Encoded(job)];
    assert DecodedKeys(once.pending) == DecodedKeys(k.pending) + {key};
    assert key !in DecodedKeys(k.pending);
  }

  /** Selection only marks a job as running; a selected job is the one filed under its name. */
  lemma ProcessNextJobPreservesConsistent<P>(k: Kyu<P>, listing: seq<string>, now: real)
    requires Consistent(k)
    requires Lists(listing, k.pending)
    ensures Consistent(ProcessNextJob(k, listing, now))
  {
    var r := ProcessNextJob(k, listing, now);
    if !IsProcessing(k) && IsProcessing(r) {
      var job := r.running.value;
      var name :| name in k.pending && DecodedAt(k.pending, name) == Some(job);
      assert k.pending[name] == Encoded(job);
      assert Key(job) == name;
    }
  }

  /** Handling an outcome keeps the queue consistent, with no freshness assumption: a move
      into a store that already holds the name is refused. */
  lemma HandleOutcomePreservesConsistent<P>(k: Kyu<P>, result: ExecutionResult, now: real, cooldown: real)
    requires Consistent(k)
    requires k.running.Some?
    ensures Consistent(HandleOutcome(k, result, now, cooldown))
  {
    var r := HandleOutcome(k, result, now, cooldown);
    var job := k.running.value;
    var name := Key(job);
    match result
    case Succeeded =>
      SuccessMovesToCompleted(k, now, cooldown);
    case Failed =>
      if job.numberOfRetries >= job.maximumNumberOfRetries {
        ExhaustedFailureMovesToFailed(k, now, cooldown);
      } else {
        OtherFailureRetriesInPlace(k, now, cooldown);
        if name in k.pending {
          assert r.pending == k.pending[name := Encoded(IncrementRetryCount(job, now, cooldown))];
        }
      }
  }

  /** While a job stays pending its retry count never goes down. */
  lemma RetryCountNeverDecreases<P>(k: Kyu<P>, result: ExecutionResult, now: real, cooldown: real)
    requires Consistent(k)
    requires k.running.Some?
    ensures var r := HandleOutcome(k, result, now, cooldown);
            forall name :: name in k.pending && name in r.pending && k.pending[name].Encoded? ==>
              r.pending[name].Encoded? && r.pending[name].job.numberOfRetries >= k.pending[name].job.numberOfRetries
  {
    var r := HandleOutcome(k, result, now, cooldown);
    var job := k.running.value;
    if result == Failed && job.numberOfRetries < job.maximumNumberOfRetries {
      OtherFailureRetriesInPlace(k, now, cooldown);
    }
  }

  /** Kyu's default threshold lets only faults through; a logger's own default lets all
      four levels through. */
  lemma KyuDefaultLogsOnlyFaults(message: string)
    ensures var logger := Logger(KyuDefaultLogLevel, []);
            && LogInfo(logger, message) == logger
            && LogDebug(logger, message) == logger
            && LogError(logger, message) == logger
            && |LogFault(logger, message).output| == 1
    ensures forall level :: ShouldEmit(KyuDefaultLogLevel, level) <==> level == Fault
    ensures forall level :: ShouldEmit(DefaultLogLevel, level) <==> level != Off
  {
  }
}
