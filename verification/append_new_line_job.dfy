/** The test fixture `AppendNewLineJob`: a job that appends one line to an output file
    and fails on purpose until it has been retried `numberOfTimesToFail` times. Its
    `retryCooldown` is the constant 0. The output file is `None` when it cannot be opened
    for writing, otherwise the lines written to it so far (each write is the text followed
    by a newline). */
module AppendNewLineJobs {
  import opened Results
  import opened Uuids
  import opened Jobs
  import opened Directories
  import opened Engine

  datatype AppendNewLine = AppendNewLine(
    fileUrl: Url,
    text: string,
    failureText: string,
    numberOfTimesToFail: int)

  type AppendNewLineJob = Job<AppendNewLine>

  const DefaultNumberOfTimesToFail: int := 0
  const DefaultMaximumNumberOfRetries: int := 5

  /** The fixture overrides `retryCooldown` with a stored 0. */
  const RetryCooldown: real := 0.0

  /** `init(fileURL:string:failureString:numberOfTimesToFail:maximumNumberOfRetries:)`,
      created at `now` with the fresh identifier `id`. */
  function NewAppendNewLineJob(
    id: Uuid, now: real, fileUrl: Url, text: string, failureText: string,
    numberOfTimesToFail: int := DefaultNumberOfTimesToFail,
    maximumNumberOfRetries: int := DefaultMaximumNumberOfRetries): (job: AppendNewLineJob)
    ensures job.id == id && job.numberOfRetries == 0
    ensures job.payload.numberOfTimesToFail == numberOfTimesToFail
    ensures job.maximumNumberOfRetries == maximumNumberOfRetries
    ensures IsExecutable(job, now)
  {
    Job(id, 0, maximumNumberOfRetries, now, AppendNewLine(fileUrl, text, failureText, numberOfTimesToFail))
  }

  /** `execute(onComplete:)`: an unopenable file means failure and no write; otherwise
      exactly one line is appended, the text on success and the failure text on failure,
      and success means the job has been retried at least `numberOfTimesToFail` times. */
  function Execute(job: AppendNewLineJob, file: Option<seq<string>>): (r: (ExecutionResult, Option<seq<string>>))
    ensures file.None? ==> r == (Failed, None)
    ensures file.Some? ==> (r.0 == Succeeded <==> job.numberOfRetries >= job.payload.numberOfTimesToFail)
    ensures file.Some? ==> r.1.Some? && |r.1.value| == |file.value| + 1 && r.1.value[..|file.value|] == file.value
    ensures file.Some? ==> r.1.value[|file.value|] == (if r.0 == Succeeded then job.payload.text else job.payload.failureText)
  {
    match file
    case None => (Failed, None)
    case Some(lines) =>
      if job.numberOfRetries >= job.payload.numberOfTimesToFail then
        (Succeeded, Some(lines + [job.payload.text]))
      else
        (Failed, Some(lines + [job.payload.failureText]))
  }

  /** A fresh fixture job with the defaults: never retried, never forced to fail, at most
      five retries. */
  lemma FixtureDefaults(id: Uuid, now: real, fileUrl: Url, text: string, failureText: string)
    ensures var job := NewAppendNewLineJob(id, now, fileUrl, text, failureText);
            && job.numberOfRetries == 0
            && job.payload.numberOfTimesToFail == 0
            && job.maximumNumberOfRetries == 5
  {
  }

  /** With its zero cooldown a retried fixture job is executable again at the same instant. */
  lemma FixtureRetryIsImmediate(job: AppendNewLineJob, now: real)
    ensures IsExecutable(IncrementRetryCount(job, now, RetryCooldown), now)
  {
  }
}
