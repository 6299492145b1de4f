/** End-to-end runs of the queue with the `AppendNewLineJob` fixture as executor, and
    the scenarios of KyuTests.swift as theorems. A run repeats: execute the running job,
    handle its outcome with the fixture's zero cooldown, select again; it stops when
    nothing is running. All of it happens at one instant `now`. The directory listing the
    engine reads at each selection is some listing of the pending store; the theorems
    rely only on the selection contract, so they hold whatever order it lists in. */
module FixtureRuns {
  import opened Results
  import opened Logging
  import opened Uuids
  import opened Jobs
  import opened Directories
  import opened Engine
  import opened AppendNewLineJobs

  /** Some enumeration of a set, each element once. */
  ghost function SetToSeq(s: set<string>): (names: seq<string>)
    ensures forall i, j :: 0 <= i < j < |names| ==> names[i] != names[j]
    ensures forall x :: x in names <==> x in s
    decreases s
  {
    if s == {} then []
    else
      var x :| x in s;
      var rest := SetToSeq(s - {x});
      assert forall i :: 0 <= i < |rest| ==> ([x] + rest)[i + 1] == rest[i];
      [x] + rest
  }

  /** The listing `contentsOfDirectory` returns for a store. */
  ghost function ListingOf<P>(store: Store<P>): (names: seq<string>)
    ensures Lists(names, store)
  {
    SetToSeq(store.Keys)
  }

  /** One cycle: execute the running job, handle its outcome with the fixture's zero
      cooldown, and select again over the pending store as it now is. Every job writes
      to the one `file` of the run; a job's own `fileUrl` is not consulted. */
  ghost function Cycle(k: Kyu<AppendNewLine>, file: Option<seq<string>>, now: real): (r: (Kyu<AppendNewLine>, Option<seq<string>>))
    requires k.running.Some?
  {
    var (result, written) := Execute(k.running.value, file);
    var handled := HandleOutcome(k, result, now, RetryCooldown);
    (ProcessNextJob(handled, ListingOf(handled.pending), now), written)
  }

  /** Up to `fuel` cycles, stopping when nothing runs. Returns the final queue, the output
      file and the jobs executed, in execution order. */
  ghost function Run(k: Kyu<AppendNewLine>, file: Option<seq<string>>, now: real, fuel: nat)
    : (r: (Kyu<AppendNewLine>, Option<seq<string>>, seq<AppendNewLineJob>))
    decreases fuel, 2
  {
    if fuel == 0 || k.running.None? then (k, file, [])
    else RunFromCycle(k, file, now, fuel - 1)
  }

  /** A run that goes through at least one cycle, with `remaining` cycles after it: the
      running job first, then the rest. */
  ghost function RunFromCycle(k: Kyu<AppendNewLine>, file: Option<seq<string>>, now: real, remaining: nat)
    : (r: (Kyu<AppendNewLine>, Option<seq<string>>, seq<AppendNewLineJob>))
    requires k.running.Some?
    decreases remaining + 1, 1
  {
    var rest := RunAfterCycle(k, file, now, remaining);
    (rest.0, rest.1, [k.running.value] + rest.2)
  }

  /** The rest of a run: the run of `remaining` cycles from the queue and file that one
      cycle leaves. */
  ghost function RunAfterCycle(k: Kyu<AppendNewLine>, file: Option<seq<string>>, now: real, remaining: nat)
    : (r: (Kyu<AppendNewLine>, Option<seq<string>>, seq<AppendNewLineJob>))
    requires k.running.Some?
    decreases remaining + 1, 0
  {
    var (next, written) := Cycle(k, file, now);
    Run(next, written, now, remaining)
  }

  function Repeat(line: string, count: nat): (r: seq<string>)
    ensures |r| == count
    ensures forall i :: 0 <= i < count ==> r[i] == line
  {
    seq(count, _ => line)
  }

  /** The retry count at which a lone fixture job stops: it succeeds once retried
      `numberOfTimesToFail` times and is filed as failed once retried
      `maximumNumberOfRetries` times, whichever comes first. */
  function StopCount(job: AppendNewLineJob): (count: int) {
    var limit := if job.payload.numberOfTimesToFail <= job.maximumNumberOfRetries
                 then job.payload.numberOfTimesToFail else job.maximumNumberOfRetries;
    if job.numberOfRetries >= limit then job.numberOfRetries else limit
  }

  /** The record a lone fixture job is filed with at the end of its run. */
  function FinalJob(job: AppendNewLineJob, now: real): (filed: AppendNewLineJob) {
    if StopCount(job) == job.numberOfRetries then job
    else job.(numberOfRetries := StopCount(job), executionDate := now)
  }

  /** `job` is running and is the only pending job; its name is neither completed nor failed. */
  ghost predicate SoleRunning(k: Kyu<AppendNewLine>, job: AppendNewLineJob) {
    && k.pending == map[Key(job) := Encoded(job)]
    && k.running == Some(job)
    && Key(job) !in k.completed
    && Key(job) !in k.failed
  }

  /** The queue once a lone job has been filed as completed. */
  function Completed(k: Kyu<AppendNewLine>, job: AppendNewLineJob): (r: Kyu<AppendNewLine>) {
    k.(running := None, pending := map[], completed := k.completed[Key(job) := Encoded(job)])
  }

  /** The queue once a lone job has been filed as failed. */
  function Exhausted(k: Kyu<AppendNewLine>, job: AppendNewLineJob): (r: Kyu<AppendNewLine>) {
    k.(running := None, pending := map[], failed := k.failed[Key(job) := Encoded(job)])
  }

  /** A lone job after a failed attempt with the fixture's zero cooldown. */
  function RetriedJob(job: AppendNewLineJob, now: real): (retried: AppendNewLineJob) {
    job.(numberOfRetries := job.numberOfRetries + 1, executionDate := now)
  }

  /** The queue once a lone job has been rewritten with one more retry and selected again. */
  function Retried(k: Kyu<AppendNewLine>, job: AppendNewLineJob, now: real): (r: Kyu<AppendNewLine>) {
    k.(pending := map[Key(job) := Encoded(RetriedJob(job, now))], running := Some(RetriedJob(job, now)))
  }

  /** A lone job that succeeds: filed as completed, its text written, nothing runs after. */
  lemma LoneJobSucceeds(k: Kyu<AppendNewLine>, job: AppendNewLineJob, file: seq<string>, now: real)
    requires SoleRunning(k, job)
    requires job.numberOfRetries >= job.payload.numberOfTimesToFail
    ensures Cycle(k, Some(file), now) == (Completed(k, job), Some(file + [job.payload.text]))
  {
    var handled := HandleOutcome(k, Succeeded, now, RetryCooldown);
    SuccessMovesToCompleted(k, now, RetryCooldown);
    assert handled.pending == map[];
    assert handled == Completed(k, job);
  }

  /** A lone job that fails with its retries used up: filed as failed, its failure text
      written, nothing runs after. */
  lemma LoneJobExhausts(k: Kyu<AppendNewLine>, job: AppendNewLineJob, file: seq<string>, now: real)
    requires SoleRunning(k, job)
    requires job.numberOfRetries < job.payload.numberOfTimesToFail
    requires job.numberOfRetries >= job.maximumNumberOfRetries
    ensures Cycle(k, Some(file), now) == (Exhausted(k, job), Some(file + [job.payload.failureText]))
  {
    var handled := HandleOutcome(k, Failed, now, RetryCooldown);
    ExhaustedFailureMovesToFailed(k, now, RetryCooldown);
    assert handled.pending == map[];
    assert handled == Exhausted(k, job);
  }

  /** A lone job that fails with retries left: rewritten in place with one more retry and
      selected again straight away, since its cooldown is zero. */
  lemma LoneJobRetries(k: Kyu<AppendNewLine>, job: AppendNewLineJob, file: seq<string>, now: real)
    requires SoleRunning(k, job)
    requires job.numberOfRetries < job.payload.numberOfTimesToFail
    requires job.numberOfRetries < job.maximumNumberOfRetries
    ensures Cycle(k, Some(file), now) == (Retried(k, job, now), Some(file + [job.payload.failureText]))
  {
    var handled := HandleOutcome(k, Failed, now, RetryCooldown);
    assert Execute(job, Some(file)) == (Failed, Some(file + [job.payload.failureText]));
    LoneFailureRewrites(k, job, now);
    RewrittenJobSelected(handled, RetriedJob(job, now), now);
  }

  /** The outcome handling of a failure with retries left rewrites the lone entry. */
  lemma LoneFailureRewrites(k: Kyu<AppendNewLine>, job: AppendNewLineJob, now: real)
    requires SoleRunning(k, job)
    requires job.numberOfRetries < job.maximumNumberOfRetries
    ensures HandleOutcome(k, Failed, now, RetryCooldown)
            == k.(running := None, pending := map[Key(job) := Encoded(RetriedJob(job, now))])
  {
    var retried := IncrementRetryCount(job, now, RetryCooldown);
    assert Key(retried) == Key(job) && retried == RetriedJob(job, now);
    OtherFailureRetriesInPlace(k, now, RetryCooldown);
  }

  /** With one pending job, executable now, selection starts it. */
  lemma RewrittenJobSelected(h: Kyu<AppendNewLine>, job: AppendNewLineJob, now: real)
    requires h.running == None
    requires h.pending == map[Key(job) := Encoded(job)]
    requires job.executionDate <= now
    ensures ProcessNextJob(h, ListingOf(h.pending), now) == h.(running := Some(job))
  {
    var next := ProcessNextJob(h, ListingOf(h.pending), now);
    assert IsCandidate(h.pending, Key(job), now);
    assert HasExecutable(h.pending, now);
    var name :| name in h.pending && DecodedAt(h.pending, name) == Some(next.running.value);
  }

  /** The run of a lone fixture job worked out by hand from the fixture's behaviour and
      the queue's retry rule: each attempt fails until `numberOfTimesToFail` retries; a
      failure with retries left is retried at once; the job ends up completed or failed. */
  function LoneRun(k: Kyu<AppendNewLine>, job: AppendNewLineJob, file: seq<string>, now: real, fuel: nat)
    : (r: (Kyu<AppendNewLine>, Option<seq<string>>, seq<AppendNewLineJob>))
    decreases fuel
  {
    if fuel == 0 then (k, Some(file), [])
    else if job.numberOfRetries >= job.payload.numberOfTimesToFail then
      (Completed(k, job), Some(file + [job.payload.text]), [job])
    else if job.numberOfRetries >= job.maximumNumberOfRetries then
      (Exhausted(k, job), Some(file + [job.payload.failureText]), [job])
    else
      var rest := LoneRun(Retried(k, job, now), RetriedJob(job, now), file + [job.payload.failureText], now, fuel - 1);
      (rest.0, rest.1, [job] + rest.2)
  }

  /** A run with a job running and cycles to spare goes through a cycle. */
  lemma RunUnfolds(k: Kyu<AppendNewLine>, file: Option<seq<string>>, now: real, fuel: nat, remaining: nat)
    requires fuel == remaining + 1 && k.running.Some?
    ensures Run(k, file, now, fuel) == RunFromCycle(k, file, now, remaining)
  {
    assert Run(k, file, now, fuel) == RunFromCycle(k, file, now, fuel - 1);
  }

  /** A run that goes through a cycle continues from where the cycle leaves the queue
      and the file. */
  lemma RunStep(k: Kyu<AppendNewLine>, file: Option<seq<string>>, now: real, fuel: nat, remaining: nat,
                next: Kyu<AppendNewLine>, written: Option<seq<string>>)
    requires fuel == remaining + 1 && k.running.Some?
    requires Cycle(k, file, now) == (next, written)
    ensures var rest := Run(next, written, now, remaining);
            Run(k, file, now, fuel) == (rest.0, rest.1, [k.running.value] + rest.2)
  {
    RunUnfolds(k, file, now, fuel, remaining);
    assert RunAfterCycle(k, file, now, remaining) == Run(next, written, now, remaining);
  }

  /** One cycle writes the running job's line, the text if it succeeds and the failure
      text otherwise, and nothing when the file cannot be opened. Its outcome is handled
      as the engine handles it, and selection then starts the earliest executable
      pending job, if any. */
  lemma CycleStep(k: Kyu<AppendNewLine>, file: Option<seq<string>>, now: real)
    requires k.running.Some?
    ensures var job := k.running.value;
            var (next, written) := Cycle(k, file, now);
            && (file.None? ==> written == None && next.(running := None) == HandleOutcome(k, Failed, now, RetryCooldown))
            && (file.Some? && job.numberOfRetries >= job.payload.numberOfTimesToFail ==>
                  && written == Some(file.value + [job.payload.text])
                  && next.(running := None) == HandleOutcome(k, Succeeded, now, RetryCooldown))
            && (file.Some? && job.numberOfRetries < job.payload.numberOfTimesToFail ==>
                  && written == Some(file.value + [job.payload.failureText])
                  && next.(running := None) == HandleOutcome(k, Failed, now, RetryCooldown))
            && (next.running.Some? <==> HasExecutable(next.pending, now))
            && (next.running.Some? ==> IsEarliestExecutable(next.pending, now, next.running.value))
  {
    var (result, written) := Execute(k.running.value, file);
    var handled := HandleOutcome(k, result, now, RetryCooldown);
    assert Cycle(k, file, now).0 == Finish(k, result, now, RetryCooldown, ListingOf(handled.pending));
    if file.Some? {
      assert written.value == file.value[..|file.value|] + [written.value[|file.value|]];
    }
  }

  /** A run executes at most one job per cycle, starts with the running job, and stops
      early only when nothing is left running. */
  lemma {:induction false} RunTrace(k: Kyu<AppendNewLine>, file: Option<seq<string>>, now: real, fuel: nat)
    ensures var r := Run(k, file, now, fuel);
            && |r.2| <= fuel
            && (k.running.None? ==> r == (k, file, []))
            && (fuel > 0 && k.running.Some? ==> |r.2| > 0 && r.2[0] == k.running.value)
            && (r.0.running.Some? ==> |r.2| == fuel)
    decreases fuel
  {
    if fuel > 0 && k.running.Some? {
      var remaining: nat := fuel - 1;
      var (next, written) := Cycle(k, file, now);
      RunStep(k, file, now, fuel, remaining, next, written);
      RunTrace(next, written, now, remaining);
    }
  }

  /** A lone job that succeeds ends the run after one attempt. */
  lemma LoneRunCompletes(k: Kyu<AppendNewLine>, job: AppendNewLineJob, file: seq<string>, now: real, fuel: nat)
    requires SoleRunning(k, job)
    requires fuel >= 1
    requires job.numberOfRetries >= job.payload.numberOfTimesToFail
    ensures Run(k, Some(file), now, fuel) == (Completed(k, job), Some(file + [job.payload.text]), [job])
  {
    var written := Some(file + [job.payload.text]);
    LoneJobSucceeds(k, job, file, now);
    RunStep(k, Some(file), now, fuel, fuel - 1, Completed(k, job), written);
    assert Run(Completed(k, job), written, now, fuel - 1) == (Completed(k, job), written, []);
    assert [job] + [] == [job];
  }

  /** A lone job that fails with no retries left ends the run after one attempt. */
  lemma LoneRunExhausts(k: Kyu<AppendNewLine>, job: AppendNewLineJob, file: seq<string>, now: real, fuel: nat)
    requires SoleRunning(k, job)
    requires fuel >= 1
    requires job.numberOfRetries < job.payload.numberOfTimesToFail
    requires job.numberOfRetries >= job.maximumNumberOfRetries
    ensures Run(k, Some(file), now, fuel) == (Exhausted(k, job), Some(file + [job.payload.failureText]), [job])
  {
    var written := Some(file + [job.payload.failureText]);
    LoneJobExhausts(k, job, file, now);
    RunStep(k, Some(file), now, fuel, fuel - 1, Exhausted(k, job), written);
    assert Run(Exhausted(k, job), written, now, fuel - 1) == (Exhausted(k, job), written, []);
    assert [job] + [] == [job];
  }

  /** A lone job that fails with retries left is followed by the run of its retried self. */
  lemma LoneRunRetries(k: Kyu<AppendNewLine>, job: AppendNewLineJob, file: seq<string>, now: real, fuel: nat)
    requires SoleRunning(k, job)
    requires fuel >= 1
    requires job.numberOfRetries < job.payload.numberOfTimesToFail
    requires job.numberOfRetries < job.maximumNumberOfRetries
    ensures var rest := Run(Retried(k, job, now), Some(file + [job.payload.failureText]), now, fuel - 1);
            Run(k, Some(file), now, fuel) == (rest.0, rest.1, [job] + rest.2)
  {
    LoneJobRetries(k, job, file, now);
    RunStep(k, Some(file), now, fuel, fuel - 1, Retried(k, job, now), Some(file + [job.payload.failureText]));
  }

  /** The queue's run of a lone fixture job is the hand-worked run, for any number of cycles. */
  lemma {:induction false} RunIsLoneRun(k: Kyu<AppendNewLine>, job: AppendNewLineJob, file: seq<string>, now: real, fuel: nat)
    requires SoleRunning(k, job)
    ensures Run(k, Some(file), now, fuel) == LoneRun(k, job, file, now, fuel)
    decreases fuel
  {
    if fuel == 0 {
    } else if job.numberOfRetries >= job.payload.numberOfTimesToFail {
      LoneRunCompletes(k, job, file, now, fuel);
    } else if job.numberOfRetries >= job.maximumNumberOfRetries {
      LoneRunExhausts(k, job, file, now, fuel);
    } else {
      LoneRunRetries(k, job, file, now, fuel);
      assert SoleRunning(Retried(k, job, now), RetriedJob(job, now));
      RunIsLoneRun(Retried(k, job, now), RetriedJob(job, now), file + [job.payload.failureText], now, fuel - 1);
    }
  }

  /** What a run of a lone job ends with: one attempt per retry it takes to stop plus
      one, in order of retry count; one failure line per failed attempt and then the line
      of its last attempt; filed in completed when it stopped by succeeding and in failed
      otherwise; nothing left pending or running. */
  ghost predicate LoneRunEnd(
    k: Kyu<AppendNewLine>, job: AppendNewLineJob, file: seq<string>, now: real,
    r: (Kyu<AppendNewLine>, Option<seq<string>>, seq<AppendNewLineJob>))
  {
    var stop := StopCount(job);
    var attempts := stop - job.numberOfRetries + 1;
    var last := if stop >= job.payload.numberOfTimesToFail then job.payload.text else job.payload.failureText;
    && attempts >= 1
    && |r.2| == attempts
    && (forall i :: 0 <= i < |r.2| ==> r.2[i].id == job.id && r.2[i].numberOfRetries == job.numberOfRetries + i)
    && r.0.running == None
    && r.0.pending == map[]
    && r.0.temp == k.temp
    && r.1 == Some(file + Repeat(job.payload.failureText, attempts - 1) + [last])
    && (stop >= job.payload.numberOfTimesToFail ==>
          r.0.completed == k.completed[Key(job) := Encoded(FinalJob(job, now))] && r.0.failed == k.failed)
    && (stop < job.payload.numberOfTimesToFail ==>
          r.0.failed == k.failed[Key(job) := Encoded(FinalJob(job, now))] && r.0.completed == k.completed)
  }

  /** Given enough cycles, the hand-worked run stops as `LoneRunEnd` describes. */
  lemma {:induction false} LoneRunStops(k: Kyu<AppendNewLine>, job: AppendNewLineJob, file: seq<string>, now: real, fuel: nat)
    requires fuel >= StopCount(job) - job.numberOfRetries + 1
    ensures LoneRunEnd(k, job, file, now, LoneRun(k, job, file, now, fuel))
    decreases fuel
  {
    var n := job.numberOfRetries;
    var f := job.payload.failureText;
    var r := LoneRun(k, job, file, now, fuel);
    if n >= job.payload.numberOfTimesToFail || n >= job.maximumNumberOfRetries {
      assert StopCount(job) == n && FinalJob(job, now) == job;
      assert file + Repeat(f, 0) + [job.payload.text] == file + [job.payload.text];
      assert file + Repeat(f, 0) + [f] == file + [f];
    } else {
      var retried := RetriedJob(job, now);
      var rest := LoneRun(Retried(k, job, now), retried, file + [f], now, fuel - 1);
      assert StopCount(retried) == StopCount(job);
      LoneRunStops(Retried(k, job, now), retried, file + [f], now, fuel - 1);
      LoneRunEndAfterRetry(k, job, file, now, Retried(k, job, now), rest, r);
    }
  }

  /** The inductive step of `LoneRunStops`: one failed attempt in front of the run that
      continues from the retried job. */
  lemma LoneRunEndAfterRetry(
    k: Kyu<AppendNewLine>, job: AppendNewLineJob, file: seq<string>, now: real,
    next: Kyu<AppendNewLine>,
    rest: (Kyu<AppendNewLine>, Option<seq<string>>, seq<AppendNewLineJob>),
    r: (Kyu<AppendNewLine>, Option<seq<string>>, seq<AppendNewLineJob>))
    requires job.numberOfRetries < job.payload.numberOfTimesToFail
    requires job.numberOfRetries < job.maximumNumberOfRetries
    requires next.temp == k.temp && next.completed == k.completed && next.failed == k.failed
    requires LoneRunEnd(next, RetriedJob(job, now), file + [job.payload.failureText], now, rest)
    requires r == (rest.0, rest.1, [job] + rest.2)
    ensures LoneRunEnd(k, job, file, now, r)
  {
    var n := job.numberOfRetries;
    var f := job.payload.failureText;
    var retried := RetriedJob(job, now);
    var stop := StopCount(job);
    assert StopCount(retried) == stop;
    assert Key(retried) == Key(job);
    assert FinalJob(retried, now) == FinalJob(job, now);
    var attempts := stop - n + 1;
    var last := if stop >= job.payload.numberOfTimesToFail then job.payload.text else f;
    assert rest.1 == Some(file + [f] + Repeat(f, attempts - 2) + [last]);
    assert Repeat(f, attempts - 1) == [f] + Repeat(f, attempts - 2);
    assert file + [f] + Repeat(f, attempts - 2) == file + ([f] + Repeat(f, attempts - 2));
    assert r.1 == Some(file + Repeat(f, attempts - 1) + [last]);
    assert |r.2| == attempts;
    forall i | 0 <= i < |r.2|
      ensures r.2[i].id == job.id && r.2[i].numberOfRetries == n + i
    {
      if i > 0 {
        assert r.2[i] == rest.2[i - 1];
      }
    }
  }

  /** A lone fixture job runs until it stops and is filed as `LoneRunEnd` describes. */
  lemma RunSingleJob(k: Kyu<AppendNewLine>, job: AppendNewLineJob, file: seq<string>, now: real, fuel: nat)
    requires SoleRunning(k, job)
    requires fuel >= StopCount(job) - job.numberOfRetries + 1
    ensures LoneRunEnd(k, job, file, now, Run(k, Some(file), now, fuel))
  {
    RunIsLoneRun(k, job, file, now, fuel);
    LoneRunStops(k, job, file, now, fuel);
  }

  // ---------------------------------------------------------------------------------
  // Draining a queue of jobs that all succeed

  /** Every pending entry decodes, is filed under its own name, succeeds when executed and
      is executable at `now`. */
  ghost predicate AllSucceedNow(store: Store<AppendNewLine>, now: real) {
    forall name :: name in store ==>
      && store[name].Encoded?
      && Key(store[name].job) == name
      && store[name].job.numberOfRetries >= store[name].job.payload.numberOfTimesToFail
      && IsExecutable(store[name].job, now)
  }

  /** A queue whose pending jobs will all succeed: the running job is filed, none of the
      pending names is completed yet, and the queue is idle only when nothing is pending. */
  ghost predicate Drainable(k: Kyu<AppendNewLine>, now: real) {
    && AllSucceedNow(k.pending, now)
    && k.pending.Keys !! k.completed.Keys
    && RunningIsFiled(k)
    && (k.running.None? ==> k.pending == map[])
  }

  /** The lines the jobs of a trace write when each succeeds. */
  function Texts(trace: seq<AppendNewLineJob>): (lines: seq<string>)
    ensures |lines| == |trace|
    ensures forall i :: 0 <= i < |trace| ==> lines[i] == trace[i].payload.text
  {
    seq(|trace|, i requires 0 <= i < |trace| => trace[i].payload.text)
  }

  /** Selecting over jobs that all succeed leaves a drainable queue. */
  lemma SelectKeepsDrainable(h: Kyu<AppendNewLine>, now: real)
    requires h.running == None
    requires AllSucceedNow(h.pending, now)
    requires h.pending.Keys !! h.completed.Keys
    ensures var next := ProcessNextJob(h, ListingOf(h.pending), now);
            && Drainable(next, now)
            && next.pending == h.pending && next.completed == h.completed && next.failed == h.failed
  {
    var next := ProcessNextJob(h, ListingOf(h.pending), now);
    if h.pending != map[] {
      var name :| name in h.pending;
      assert IsCandidate(h.pending, name, now);
      assert HasExecutable(h.pending, now);
      var filed :| filed in h.pending && DecodedAt(h.pending, filed) == Some(next.running.value);
      assert Key(next.running.value) == filed;
    }
  }

  /** One cycle on a drainable queue: the running job succeeds, writes its text, its entry
      moves to completed unchanged, and another job is selected. */
  lemma DrainStep(k: Kyu<AppendNewLine>, file: seq<string>, now: real) returns (next: Kyu<AppendNewLine>)
    requires Drainable(k, now) && k.running.Some?
    ensures Cycle(k, Some(file), now) == (next, Some(file + [k.running.value.payload.text]))
    ensures Drainable(next, now)
    ensures next.pending == k.pending - {Key(k.running.value)}
    ensures next.completed == k.completed[Key(k.running.value) := Encoded(k.running.value)]
    ensures next.failed == k.failed
  {
    var job := k.running.value;
    var name := Key(job);
    assert Execute(job, Some(file)) == (Succeeded, Some(file + [job.payload.text]));
    SuccessMovesToCompleted(k, now, RetryCooldown);
    var handled := HandleOutcome(k, Succeeded, now, RetryCooldown);
    assert handled.pending == k.pending - {name};
    assert handled.completed == k.completed[name := Encoded(job)];
    SelectKeepsDrainable(handled, now);
    next := ProcessNextJob(handled, ListingOf(handled.pending), now);
  }

  /** `DrainStep` stated for a whole run: the running job is executed first, and the
      rest of the run starts from `next` with the job's text `written` to the file. */
  lemma DrainRunStep(k: Kyu<AppendNewLine>, file: seq<string>, now: real, fuel: nat, remaining: nat)
    returns (next: Kyu<AppendNewLine>, name: string, written: seq<string>)
    requires Drainable(k, now) && k.running.Some? && fuel == remaining + 1
    ensures written == file + [k.running.value.payload.text]
    ensures var rest := Run(next, Some(written), now, remaining);
            Run(k, Some(file), now, fuel) == (rest.0, rest.1, [k.running.value] + rest.2)
    ensures Drainable(next, now)
    ensures name in k.pending && k.pending[name] == Encoded(k.running.value)
    ensures next.pending == k.pending - {name}
    ensures next.completed == k.completed[name := Encoded(k.running.value)]
    ensures next.failed == k.failed
  {
    name := Key(k.running.value);
    written := file + [k.running.value.payload.text];
    next := DrainStep(k, file, now);
    RunStep(k, Some(file), now, fuel, remaining, next, Some(written));
  }

  /** The end of a run that drained `k`, with `names[i]` the pending entry the `i`th
      executed job came from: nothing runs or is pending, every pending entry has moved to
      completed unchanged, each pending entry was executed exactly once, and the file
      gained the jobs' texts in execution order. */
  ghost predicate Drained(k: Kyu<AppendNewLine>, file: seq<string>,
                          r: (Kyu<AppendNewLine>, Option<seq<string>>, seq<AppendNewLineJob>),
                          names: seq<string>) {
    && r.0.running == None
    && r.0.pending == map[]
    && r.0.completed == k.completed + k.pending
    && r.0.failed == k.failed
    && |r.2| == |names| == |k.pending|
    && (forall i :: 0 <= i < |names| ==> names[i] in k.pending && k.pending[names[i]] == Encoded(r.2[i]))
    && Distinct(names)
    && (forall name :: name in k.pending ==> name in names)
    && r.1 == Some(file + Texts(r.2))
  }

  /** An idle drainable queue has nothing pending: a run leaves it as it is. */
  lemma DrainedWhenIdle(k: Kyu<AppendNewLine>, file: seq<string>, now: real, fuel: nat)
    requires Drainable(k, now) && k.running.None?
    ensures Drained(k, file, Run(k, Some(file), now, fuel), [])
  {
    assert Run(k, Some(file), now, fuel) == (k, Some(file), []);
    assert k.completed + k.pending == k.completed;
    assert file + Texts([]) == file;
  }

  /** One drained cycle followed by a drained rest is a drained run. */
  lemma DrainedAfterStep(k: Kyu<AppendNewLine>, next: Kyu<AppendNewLine>, name: string, file: seq<string>,
                         rest: (Kyu<AppendNewLine>, Option<seq<string>>, seq<AppendNewLineJob>),
                         restNames: seq<string>,
                         r: (Kyu<AppendNewLine>, Option<seq<string>>, seq<AppendNewLineJob>))
    requires k.running.Some?
    requires name in k.pending && k.pending[name] == Encoded(k.running.value)
    requires next.pending == k.pending - {name}
    requires next.completed == k.completed[name := Encoded(k.running.value)]
    requires next.failed == k.failed
    requires Drained(next, file + [k.running.value.payload.text], rest, restNames)
    requires r == (rest.0, rest.1, [k.running.value] + rest.2)
    ensures Drained(k, file, r, [name] + restNames)
  {
    MovedEntryMerges(k.completed, k.pending, name);
    TracedAfterStep(k.pending, next.pending, name, k.running.value, rest.2, restNames);
    TextsAfterStep(file, k.running.value, rest, r);
  }

  /** The names-and-trace part of `DrainedAfterStep`: the entry the first job came from
      goes in front of the names of the rest. */
  lemma TracedAfterStep(pending: Store<AppendNewLine>, remaining: Store<AppendNewLine>, name: string,
                        job: AppendNewLineJob, trace: seq<AppendNewLineJob>, names: seq<string>)
    requires name in pending && pending[name] == Encoded(job)
    requires remaining == pending - {name}
    requires |trace| == |names| == |remaining|
    requires forall i :: 0 <= i < |names| ==> names[i] in remaining && remaining[names[i]] == Encoded(trace[i])
    requires Distinct(names)
    requires forall other :: other in remaining ==> other in names
    ensures var all := [name] + names;
            && |[job] + trace| == |all| == |pending|
            && (forall i :: 0 <= i < |all| ==> all[i] in pending && pending[all[i]] == Encoded(([job] + trace)[i]))
            && Distinct(all)
            && (forall other :: other in pending ==> other in all)
  {
    var all := [name] + names;
    RemovedEntryCount(pending, name);
    assert name !in names;
    ConsDistinct(name, names);
    forall i | 0 < i < |all| ensures all[i] in pending && pending[all[i]] == Encoded(([job] + trace)[i]) {
      assert all[i] == names[i - 1] && ([job] + trace)[i] == trace[i - 1];
    }
    forall other | other in pending ensures other in all {
      if other != name {
        assert other in remaining;
      }
    }
  }

  /** The file part of `DrainedAfterStep`: the first job's text comes before the rest's. */
  lemma TextsAfterStep(file: seq<string>, job: AppendNewLineJob,
                       rest: (Kyu<AppendNewLine>, Option<seq<string>>, seq<AppendNewLineJob>),
                       r: (Kyu<AppendNewLine>, Option<seq<string>>, seq<AppendNewLineJob>))
    requires rest.1 == Some(file + [job.payload.text] + Texts(rest.2))
    requires r == (rest.0, rest.1, [job] + rest.2)
    ensures r.1 == Some(file + Texts(r.2))
  {
    TextsCons(job, rest.2);
    assert file + Texts(r.2) == file + [job.payload.text] + Texts(rest.2);
  }

  /** Moving the entry called `name` from one store to another leaves the two stores
      together as they were. */
  lemma MovedEntryMerges<P>(destination: Store<P>, source: Store<P>, name: string)
    requires name in source
    ensures destination[name := source[name]] + (source - {name}) == destination + source
  {
  }

  /** Removing a filed entry leaves one entry fewer. */
  lemma RemovedEntryCount<P>(store: Store<P>, name: string)
    requires name in store
    ensures |store - {name}| == |store| - 1
  {
    assert store.Keys == (store - {name}).Keys + {name};
  }

  ghost predicate Distinct(names: seq<string>) {
    forall i, j :: 0 <= i < j < |names| ==> names[i] != names[j]
  }

  /** A name not yet listed can go in front of a listing without repeating. */
  lemma ConsDistinct(name: string, names: seq<string>)
    requires Distinct(names) && name !in names
    ensures Distinct([name] + names)
  {
    var all := [name] + names;
    forall i, j | 0 <= i < j < |all| ensures all[i] != all[j] {
      assert all[j] == names[j - 1];
      if i > 0 { assert all[i] == names[i - 1]; }
    }
  }

  lemma TextsCons(job: AppendNewLineJob, trace: seq<AppendNewLineJob>)
    ensures Texts([job] + trace) == [job.payload.text] + Texts(trace)
  {
  }

  /** A drainable queue is drained by any run with at least one cycle per pending job. */
  lemma {:induction false} Drains(k: Kyu<AppendNewLine>, file: seq<string>, now: real, fuel: nat)
    returns (names: seq<string>)
    requires Drainable(k, now)
    requires fuel >= |k.pending|
    ensures Drained(k, file, Run(k, Some(file), now, fuel), names)
    decreases |k.pending|
  {
    if k.running.None? {
      DrainedWhenIdle(k, file, now, fuel);
      names := [];
    } else {
      var remaining: nat := fuel - 1;
      var next, name, written := DrainRunStep(k, file, now, fuel, remaining);
      RemovedEntryCount(k.pending, name);
      var restNames := Drains(next, written, now, remaining);
      DrainedAfterStep(k, next, name, file, Run(next, Some(written), now, remaining), restNames, Run(k, Some(file), now, fuel));
      names := [name] + restNames;
    }
  }

  // ---------------------------------------------------------------------------------
  // The scenarios of KyuTests.swift

  /** `jobs` added one after another; an add that is refused leaves the queue as it was,
      since the tests wrap each add in `XCTAssertNoThrow`. */
  function AddAll(k: Kyu<AppendNewLine>, jobs: seq<AppendNewLineJob>): (r: Kyu<AppendNewLine>)
    ensures r.running == k.running && r.completed == k.completed && r.failed == k.failed
    ensures r.pending.Keys >= k.pending.Keys
    decreases |jobs|
  {
    if |jobs| == 0 then k
    else
      var next := match Add(k, jobs[0]) case Ok(added) => added case Err(_) => k;
      AddAll(next, jobs[1..])
  }

  /** A queue created on an empty disk at `root`, `jobs` added, and the first wake-up of
      the directory watcher: the queue as the first job starts. */
  ghost function Start(root: Url, jobs: seq<AppendNewLineJob>, now: real): (r: Option<Kyu<AppendNewLine>>) {
    match Init<AppendNewLine>(root, KyuDefaultLogLevel, map[])
    case Err(_) => None
    case Ok(k) =>
      var added := AddAll(k, jobs);
      Some(ProcessNextJob(added, ListingOf(added.pending), now))
  }

  /** A single executable job added to a fresh queue starts running as the only job. */
  lemma StartLone(root: Url, job: AppendNewLineJob, now: real)
    requires IsExecutable(job, now)
    ensures var s := Start(root, [job], now);
            && s.Some? && SoleRunning(s.value, job)
            && s.value.temp == map[] && s.value.completed == map[] && s.value.failed == map[]
  {
    InitOnEmptyDisk<AppendNewLine>(root, KyuDefaultLogLevel);
    var k := Init<AppendNewLine>(root, KyuDefaultLogLevel, map[]).value;
    var added := Add(k, job).value;
    assert AddAll(k, [job]) == AddAll(added, []);
    assert added.pending == map[Key(job) := Encoded(job)] by {
      assert Decode(added.pending[Key(job)]) == Some(job);
      assert added.pending.Keys == {Key(job)};
    }
    assert added.temp == map[] by {
      assert added.temp.Keys <= {Key(job)};
    }
    RewrittenJobSelected(added, job, now);
  }

  /** A store that holds exactly one decodable entry counts one job. */
  lemma CountOfOne(store: Store<AppendNewLine>, name: string, job: AppendNewLineJob)
    requires store == map[name := Encoded(job)]
    ensures |DecodedKeys(store)| == 1
  {
    assert DecodedKeys(store) == {name};
  }

  /** testRetryingJobExecution: a job set to fail three times, with the default five
      retries, is executed four times, writes three failure lines and then its text, and
      ends up completed with nothing pending. */
  lemma RetryingJobExecution(root: Url, id: Uuid, now: real, fileUrl: Url, text: string, failureText: string, fuel: nat)
    requires fuel >= 4
    ensures var job := NewAppendNewLineJob(id, now, fileUrl, text, failureText, numberOfTimesToFail := 3);
            var s := Start(root, [job], now);
            && s.Some?
            && var r := Run(s.value, Some([]), now, fuel);
            && |r.2| == 4
            && r.1 == Some([failureText, failureText, failureText, text])
            && r.0.running == None
            && NumberOfPendingJobs(r.0, ListingOf(r.0.pending)) == 0
            && NumberOfCompletedJobs(r.0, ListingOf(r.0.completed)) == 1
            && NumberOfFailedJobs(r.0, ListingOf(r.0.failed)) == 0
  {
    var job := NewAppendNewLineJob(id, now, fileUrl, text, failureText, numberOfTimesToFail := 3);
    StartLone(root, job, now);
    var k := Start(root, [job], now).value;
    assert StopCount(job) == 3;
    RunSingleJob(k, job, [], now, fuel);
    var r := Run(k, Some([]), now, fuel);
    assert Repeat(failureText, 3) == [failureText, failureText, failureText];
    assert r.1 == Some([] + Repeat(failureText, 3) + [text]);
    assert [] + Repeat(failureText, 3) + [text] == [failureText, failureText, failureText, text];
    CountOfOne(r.0.completed, Key(job), FinalJob(job, now));
  }

  /** testRetryingJobsStopAfterMaxNumberOfRetries: a job set to fail ten times with at most
      two retries is executed three times, writes its failure line each time, and ends up
      failed with nothing pending or completed. */
  lemma RetryingJobsStopAfterMaxNumberOfRetries(
    root: Url, id: Uuid, now: real, fileUrl: Url, text: string, failureText: string, fuel: nat)
    requires fuel >= 3
    ensures var job := NewAppendNewLineJob(id, now, fileUrl, text, failureText,
                                           numberOfTimesToFail := 10, maximumNumberOfRetries := 2);
            var s := Start(root, [job], now);
            && s.Some?
            && var r := Run(s.value, Some([]), now, fuel);
            && |r.2| == 3
            && r.1 == Some([failureText, failureText, failureText])
            && r.0.running == None
            && NumberOfPendingJobs(r.0, ListingOf(r.0.pending)) == 0
            && NumberOfCompletedJobs(r.0, ListingOf(r.0.completed)) == 0
            && NumberOfFailedJobs(r.0, ListingOf(r.0.failed)) == 1
  {
    var job := NewAppendNewLineJob(id, now, fileUrl, text, failureText,
                                   numberOfTimesToFail := 10, maximumNumberOfRetries := 2);
    StartLone(root, job, now);
    var k := Start(root, [job], now).value;
    assert StopCount(job) == 2;
    RunSingleJob(k, job, [], now, fuel);
    var r := Run(k, Some([]), now, fuel);
    assert Repeat(failureText, 2) == [failureText, failureText];
    assert r.1 == Some([] + Repeat(failureText, 2) + [failureText]);
    assert [] + Repeat(failureText, 2) + [failureText] == [failureText, failureText, failureText];
    CountOfOne(r.0.failed, Key(job), FinalJob(job, now));
  }


  // ---------------------------------------------------------------------------------
  // Many jobs that all succeed

  /** No two of `jobs` are filed under the same name. */
  ghost predicate DistinctKeys(jobs: seq<AppendNewLineJob>) {
    forall i, j :: 0 <= i < j < |jobs| ==> Key(jobs[i]) != Key(jobs[j])
  }

  /** `name` is the name some job of `jobs` is filed under. */
  ghost predicate KeyOfSome(name: string, jobs: seq<AppendNewLineJob>) {
    exists i :: 0 <= i < |jobs| && Key(jobs[i]) == name
  }

  /** Adding jobs under distinct names that are not pending yet files each one under its
      own name, keeps what was pending, and adds nothing else. */
  lemma {:induction false} AddAllFresh(k: Kyu<AppendNewLine>, jobs: seq<AppendNewLineJob>)
    requires DistinctKeys(jobs)
    requires forall i :: 0 <= i < |jobs| ==> Key(jobs[i]) !in k.pending
    ensures var r := AddAll(k, jobs);
            && |r.pending| == |k.pending| + |jobs|
            && (forall i :: 0 <= i < |jobs| ==> Key(jobs[i]) in r.pending && r.pending[Key(jobs[i])] == Encoded(jobs[i]))
            && (forall name :: name in k.pending ==> name in r.pending && r.pending[name] == k.pending[name])
            && (forall name :: name in r.pending ==> name in k.pending || KeyOfSome(name, jobs))
    decreases |jobs|
  {
    if |jobs| > 0 {
      var added := AddFirstFresh(k, jobs);
      AddAllFresh(added, jobs[1..]);
      var r := AddAll(added, jobs[1..]);
      forall i | 0 < i < |jobs| ensures Key(jobs[i]) in r.pending && r.pending[Key(jobs[i])] == Encoded(jobs[i]) {
        assert jobs[i] == jobs[1..][i - 1];
      }
      forall name | name in r.pending ensures name in k.pending || KeyOfSome(name, jobs) {
        if name !in added.pending {
          var i :| 0 <= i < |jobs| - 1 && Key(jobs[1..][i]) == name;
          assert jobs[1..][i] == jobs[i + 1];
        } else if name !in k.pending {
          assert Key(jobs[0]) == name;
        }
      }
    }
  }

  /** The first step of `AddAllFresh`: the first job is filed under its fresh name, and
      the rest are still fresh and distinct. */
  lemma AddFirstFresh(k: Kyu<AppendNewLine>, jobs: seq<AppendNewLineJob>) returns (added: Kyu<AppendNewLine>)
    requires |jobs| > 0 && DistinctKeys(jobs)
    requires forall i :: 0 <= i < |jobs| ==> Key(jobs[i]) !in k.pending
    ensures added.pending == k.pending[Key(jobs[0]) := Encoded(jobs[0])]
    ensures |added.pending| == |k.pending| + 1
    ensures AddAll(k, jobs) == AddAll(added, jobs[1..])
    ensures DistinctKeys(jobs[1..])
    ensures forall i :: 0 <= i < |jobs| - 1 ==> Key(jobs[1..][i]) !in added.pending
  {
    var job := jobs[0];
    added := Add(k, job).value;
    assert added.pending == k.pending[Key(job) := Encoded(job)];
    forall i | 0 <= i < |jobs| - 1 ensures Key(jobs[1..][i]) !in added.pending {
      assert jobs[1..][i] == jobs[i + 1];
    }
    forall i, j | 0 <= i < j < |jobs| - 1 ensures Key(jobs[1..][i]) != Key(jobs[1..][j]) {
      assert jobs[1..][i] == jobs[i + 1] && jobs[1..][j] == jobs[j + 1];
    }
    RemovedEntryCount(added.pending, Key(job));
  }

  /** Jobs that all succeed at `now`, each eligible to run. */
  ghost predicate AllSucceedAt(jobs: seq<AppendNewLineJob>, now: real) {
    forall i :: 0 <= i < |jobs| ==>
      jobs[i].numberOfRetries >= jobs[i].payload.numberOfTimesToFail && IsExecutable(jobs[i], now)
  }

  /** The pending store holds exactly `jobs`, each under its own name. */
  ghost predicate FilesExactly(store: Store<AppendNewLine>, jobs: seq<AppendNewLineJob>) {
    && |store| == |jobs|
    && (forall i :: 0 <= i < |jobs| ==> Key(jobs[i]) in store && store[Key(jobs[i])] == Encoded(jobs[i]))
    && (forall name :: name in store ==> KeyOfSome(name, jobs))
  }

  /** A store that files exactly jobs that all succeed at `now` is one whose entries all
      succeed at `now`. */
  lemma FiledJobsSucceed(store: Store<AppendNewLine>, jobs: seq<AppendNewLineJob>, now: real)
    requires FilesExactly(store, jobs) && AllSucceedAt(jobs, now)
    ensures AllSucceedNow(store, now)
  {
    forall name | name in store
      ensures && store[name].Encoded?
              && Key(store[name].job) == name
              && store[name].job.numberOfRetries >= store[name].job.payload.numberOfTimesToFail
              && IsExecutable(store[name].job, now)
    {
      var i :| 0 <= i < |jobs| && Key(jobs[i]) == name;
    }
  }

  /** A store whose entries all decode counts every entry. */
  lemma AllDecodedCount<P>(store: Store<P>)
    requires forall name :: name in store ==> store[name].Encoded?
    ensures |DecodedKeys(store)| == |store|
  {
    assert DecodedKeys(store) == store.Keys;
  }

  /** Jobs that all succeed, added to a fresh queue under distinct names, leave the queue
      drainable as the first of them starts, with all of them pending and nothing filed
      elsewhere. */
  lemma StartDrainable(root: Url, jobs: seq<AppendNewLineJob>, now: real)
    requires DistinctKeys(jobs) && AllSucceedAt(jobs, now)
    ensures var s := Start(root, jobs, now);
            && s.Some? && Drainable(s.value, now)
            && FilesExactly(s.value.pending, jobs)
            && s.value.completed == map[] && s.value.failed == map[]
  {
    InitOnEmptyDisk<AppendNewLine>(root, KyuDefaultLogLevel);
    var k := Init<AppendNewLine>(root, KyuDefaultLogLevel, map[]).value;
    AddAllFresh(k, jobs);
    var added := AddAll(k, jobs);
    FiledJobsSucceed(added.pending, jobs, now);
    SelectKeepsDrainable(added, now);
  }

  /** The trace of a drained queue that filed exactly `jobs`: every job ran, and only
      those jobs, once per entry. */
  lemma DrainedTrace(pending: Store<AppendNewLine>, jobs: seq<AppendNewLineJob>,
                     trace: seq<AppendNewLineJob>, names: seq<string>)
    requires FilesExactly(pending, jobs)
    requires |trace| == |names| == |pending|
    requires forall i :: 0 <= i < |names| ==> names[i] in pending && pending[names[i]] == Encoded(trace[i])
    requires forall name :: name in pending ==> name in names
    ensures |trace| == |jobs|
    ensures forall i :: 0 <= i < |jobs| ==> jobs[i] in trace
    ensures forall i :: 0 <= i < |trace| ==> trace[i] in jobs
  {
    forall i | 0 <= i < |jobs| ensures jobs[i] in trace {
      var p :| 0 <= p < |names| && names[p] == Key(jobs[i]);
      assert Encoded(trace[p]) == Encoded(jobs[i]);
    }
    forall i | 0 <= i < |trace| ensures trace[i] in jobs {
      var j :| 0 <= j < |jobs| && Key(jobs[j]) == names[i];
      assert Encoded(trace[i]) == Encoded(jobs[j]);
    }
  }

  /** What a drained fresh queue shows: nothing runs, every job ran once in some order and
      wrote its text, and the counts see no pending job, one completed job per job and no
      failed job. */
  lemma DrainedFreshQueue(s: Kyu<AppendNewLine>, jobs: seq<AppendNewLineJob>,
                          r: (Kyu<AppendNewLine>, Option<seq<string>>, seq<AppendNewLineJob>), names: seq<string>)
    requires FilesExactly(s.pending, jobs) && s.completed == map[] && s.failed == map[]
    requires Drained(s, [], r, names)
    ensures r.0.running == None
    ensures |r.2| == |jobs|
    ensures forall i :: 0 <= i < |jobs| ==> jobs[i] in r.2
    ensures forall i :: 0 <= i < |r.2| ==> r.2[i] in jobs
    ensures r.1 == Some(Texts(r.2))
    ensures NumberOfPendingJobs(r.0, ListingOf(r.0.pending)) == 0
    ensures NumberOfCompletedJobs(r.0, ListingOf(r.0.completed)) == |jobs|
    ensures NumberOfFailedJobs(r.0, ListingOf(r.0.failed)) == 0
  {
    DrainedTrace(s.pending, jobs, r.2, names);
    assert [] + Texts(r.2) == Texts(r.2);
    EmptyMerge(s.completed, s.pending);
    DrainedCounts(r.0, s.pending, |jobs|);
  }

  /** The counts of a queue with nothing pending or failed whose completed store is a
      store of `n` decodable entries. */
  lemma DrainedCounts(k: Kyu<AppendNewLine>, filed: Store<AppendNewLine>, n: nat)
    requires k.pending == map[] && k.failed == map[] && k.completed == filed
    requires |filed| == n && forall name :: name in filed ==> filed[name].Encoded?
    ensures NumberOfPendingJobs(k, ListingOf(k.pending)) == 0
    ensures NumberOfCompletedJobs(k, ListingOf(k.completed)) == n
    ensures NumberOfFailedJobs(k, ListingOf(k.failed)) == 0
  {
    assert DecodedKeys(k.pending) == {};
    assert DecodedKeys(k.failed) == {};
    AllDecodedCount(k.completed);
  }

  /** Merging into an empty store gives the merged store. */
  lemma EmptyMerge<P>(destination: Store<P>, source: Store<P>)
    requires destination == map[]
    ensures destination + source == source
  {
  }

  /** Jobs that all succeed at once, added to a fresh queue under distinct names, are each
      executed once given one cycle per job: the file gets their texts in execution order,
      and nothing is left pending, running or failed. */
  lemma ExecutingSucceedingJobs(root: Url, jobs: seq<AppendNewLineJob>, now: real, fuel: nat)
    requires DistinctKeys(jobs) && AllSucceedAt(jobs, now)
    requires fuel >= |jobs|
    ensures var s := Start(root, jobs, now);
            && s.Some?
            && var r := Run(s.value, Some([]), now, fuel);
            && r.0.running == None
            && |r.2| == |jobs|
            && (forall i :: 0 <= i < |jobs| ==> jobs[i] in r.2)
            && (forall i :: 0 <= i < |r.2| ==> r.2[i] in jobs)
            && r.1 == Some(Texts(r.2))
            && NumberOfPendingJobs(r.0, ListingOf(r.0.pending)) == 0
            && NumberOfCompletedJobs(r.0, ListingOf(r.0.completed)) == |jobs|
            && NumberOfFailedJobs(r.0, ListingOf(r.0.failed)) == 0
  {
    StartDrainable(root, jobs, now);
    var s := Start(root, jobs, now).value;
    var names := Drains(s, [], now, fuel);
    DrainedFreshQueue(s, jobs, Run(s, Some([]), now, fuel), names);
  }

  /** The four jobs of testExecutingJobs: texts "0" to "3", failure texts "failed0" to
      "failed3", fixture defaults otherwise. */
  function FourJobs(ids: seq<Uuid>, now: real, fileUrl: Url): (jobs: seq<AppendNewLineJob>)
    requires |ids| == 4
    ensures |jobs| == 4
    ensures forall i :: 0 <= i < 4 ==> jobs[i].id == ids[i] && jobs[i].numberOfRetries == 0
  {
    [NewAppendNewLineJob(ids[0], now, fileUrl, "0", "failed0"),
     NewAppendNewLineJob(ids[1], now, fileUrl, "1", "failed1"),
     NewAppendNewLineJob(ids[2], now, fileUrl, "2", "failed2"),
     NewAppendNewLineJob(ids[3], now, fileUrl, "3", "failed3")]
  }

  /** Every line of the texts of a trace drawn from `jobs` is the text of one of `jobs`. */
  lemma TextsFrom(trace: seq<AppendNewLineJob>, jobs: seq<AppendNewLineJob>, line: string)
    requires forall i :: 0 <= i < |trace| ==> trace[i] in jobs
    requires line in Texts(trace)
    ensures exists i :: 0 <= i < |jobs| && jobs[i].payload.text == line
  {
    var p :| 0 <= p < |trace| && Texts(trace)[p] == line;
    var i :| 0 <= i < |jobs| && jobs[i] == trace[p];
  }

  /** testExecutingJobs: the four jobs, added to a fresh queue under distinct ids, each
      run once; the file ends with four lines, each one of the texts, and the counts show
      four completed jobs and none pending. */
  lemma ExecutingJobs(root: Url, ids: seq<Uuid>, now: real, fileUrl: Url, fuel: nat)
    requires |ids| == 4
    requires forall i, j :: 0 <= i < j < 4 ==> ids[i] != ids[j]
    requires fuel >= 4
    ensures var jobs := FourJobs(ids, now, fileUrl);
            var s := Start(root, jobs, now);
            && s.Some?
            && var r := Run(s.value, Some([]), now, fuel);
            && (forall i :: 0 <= i < 4 ==> jobs[i] in r.2)
            && |r.2| == 4
            && r.1.Some? && |r.1.value| == 4
            && (forall line :: line in r.1.value ==> line in ["0", "1", "2", "3"])
            && NumberOfPendingJobs(r.0, ListingOf(r.0.pending)) == 0
            && NumberOfCompletedJobs(r.0, ListingOf(r.0.completed)) == 4
  {
    var jobs := FourJobs(ids, now, fileUrl);
    FourJobsDistinctKeys(ids, now, fileUrl);
    ExecutingSucceedingJobs(root, jobs, now, fuel);
    var r := Run(Start(root, jobs, now).value, Some([]), now, fuel);
    FourJobsLines(ids, now, fileUrl, r.2);
  }

  /** Distinct ids give the four jobs distinct names. */
  lemma FourJobsDistinctKeys(ids: seq<Uuid>, now: real, fileUrl: Url)
    requires |ids| == 4
    requires forall i, j :: 0 <= i < j < 4 ==> ids[i] != ids[j]
    ensures DistinctKeys(FourJobs(ids, now, fileUrl))
  {
    var jobs := FourJobs(ids, now, fileUrl);
    forall i, j | 0 <= i < j < |jobs| ensures Key(jobs[i]) != Key(jobs[j]) {
      UuidStringInjective(ids[i], ids[j]);
    }
  }

  /** A trace drawn from the four jobs writes only their texts. */
  lemma FourJobsLines(ids: seq<Uuid>, now: real, fileUrl: Url, trace: seq<AppendNewLineJob>)
    requires |ids| == 4
    requires forall i :: 0 <= i < |trace| ==> trace[i] in FourJobs(ids, now, fileUrl)
    ensures forall line :: line in Texts(trace) ==> line in ["0", "1", "2", "3"]
  {
    forall line | line in Texts(trace) ensures line in ["0", "1", "2", "3"] {
      TextsFrom(trace, FourJobs(ids, now, fileUrl), line);
    }
  }
}
