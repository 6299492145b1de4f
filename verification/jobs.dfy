/** The `Job` protocol's record and its default policy (Job.swift): eligibility, the
    Sidekiq-style retry cooldown and the retry increment. Time is in seconds as a real
    number; `now` stands for `Date()` and `jitter` for `Double.random(in: 0.0...30.0)`. */
module Jobs {
  import opened Uuids

  /** The engine-managed fields of a job plus the conforming type's own state `payload`. */
  datatype Job<P> = Job(
    id: Uuid,
    numberOfRetries: int,
    maximumNumberOfRetries: int,
    executionDate: real,
    payload: P)

  /** The default `isExecutable`. */
  predicate IsExecutable<P>(job: Job<P>, now: real): (executable: bool) {
    job.executionDate <= now
  }

  /** A job becomes executable at its execution date and stays executable from then on. */
  lemma ExecutableFromExecutionDate<P>(job: Job<P>, now: real, later: real)
    ensures IsExecutable(job, job.executionDate)
    ensures IsExecutable(job, now) && now <= later ==> IsExecutable(job, later)
  {
  }

  /** `pow(Double(n), 4.0)` for an integral `n`. */
  function Pow4(n: int): (r: int)
    ensures r >= 0
  {
    var square := n * n;
    square * square
  }

  const BaseCooldown: real := 15.0
  const MaximumJitter: real := 30.0

  /** The default `retryCooldown` for a job that has been retried `numberOfRetries` times. */
  function DefaultRetryCooldown(numberOfRetries: int, jitter: real): (cooldown: real)
    requires 0.0 <= jitter <= MaximumJitter
    ensures numberOfRetries >= 0 ==> cooldown >= BaseCooldown + jitter
  {
    Pow4(numberOfRetries) as real + BaseCooldown + jitter * (numberOfRetries as real + 1.0)
  }

  /** For n >= 0 retries the default cooldown lies in [n^4 + 15, n^4 + 15 + 30(n + 1)]. */
  lemma DefaultRetryCooldownBounds(n: int, jitter: real)
    requires n >= 0
    requires 0.0 <= jitter <= MaximumJitter
    ensures (n * n * n * n) as real + 15.0 <= DefaultRetryCooldown(n, jitter)
    ensures DefaultRetryCooldown(n, jitter) <= (n * n * n * n) as real + 15.0 + 30.0 * (n as real + 1.0)
  {
    var m := n as real + 1.0;
    assert m >= 1.0;
    assert 0.0 <= jitter * m;
    assert (30.0 - jitter) * m >= 0.0;
    assert jitter * m <= 30.0 * m;
    assert Pow4(n) == n * n * n * n;
  }

  lemma SquareGrows(a: int, b: int)
    requires 0 <= a <= b
    ensures a * a <= b * b
  {
    assert a * a <= a * b;
    assert a * b <= b * b;
  }

  /** For the same jitter, a job retried more often waits at least as long. */
  lemma CooldownGrowsWithRetries(m: int, n: int, jitter: real)
    requires 0 <= m <= n
    requires 0.0 <= jitter <= MaximumJitter
    ensures DefaultRetryCooldown(m, jitter) <= DefaultRetryCooldown(n, jitter)
  {
    SquareGrows(m, n);
    SquareGrows(m * m, n * n);
    var extra := jitter * ((n - m) as real);
    assert extra >= 0.0;
    assert jitter * (n as real + 1.0) == jitter * (m as real + 1.0) + extra;
  }

  /** `incrementRetryCount` given the cooldown the job reports before the increment:
      the job becomes executable `cooldown` seconds after `now` and has one more retry. */
  function IncrementRetryCount<P>(job: Job<P>, now: real, cooldown: real): (r: Job<P>)
    ensures r.id == job.id
    ensures r.maximumNumberOfRetries == job.maximumNumberOfRetries
    ensures r.payload == job.payload
    ensures r.numberOfRetries == job.numberOfRetries + 1
    ensures forall t :: IsExecutable(r, t) <==> now + cooldown <= t
  {
    job.(executionDate := now + cooldown, numberOfRetries := job.numberOfRetries + 1)
  }

  /** `incrementRetryCount` for a job that keeps the default `retryCooldown`: the
      cooldown is computed from the retry count before it is incremented. */
  function IncrementRetryCountWithBackoff<P>(job: Job<P>, now: real, jitter: real): (r: Job<P>)
    requires 0.0 <= jitter <= MaximumJitter
  {
    IncrementRetryCount(job, now, DefaultRetryCooldown(job.numberOfRetries, jitter))
  }

  /** With the default cooldown a retried job is not executable at the instant of its
      retry, and its new date lies within the backoff window of its previous count. */
  lemma BackoffRetryWaits<P>(job: Job<P>, now: real, jitter: real)
    requires job.numberOfRetries >= 0
    requires 0.0 <= jitter <= MaximumJitter
    ensures var n := job.numberOfRetries;
            var r := IncrementRetryCountWithBackoff(job, now, jitter);
            && !IsExecutable(r, now)
            && now + (n * n * n * n) as real + 15.0 <= r.executionDate
            && r.executionDate <= now + (n * n * n * n) as real + 15.0 + 30.0 * (n as real + 1.0)
  {
    DefaultRetryCooldownBounds(job.numberOfRetries, jitter);
    var n := job.numberOfRetries;
    assert (n * n * n * n) >= 0 by {
      assert Pow4(n) == n * n * n * n;
    }
  }
}
