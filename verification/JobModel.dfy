/** The `jobs` table, the statements of its repository and the runner's decisions. */
module JobModel {
  import opened Keyset
  import opened Backoff

  type WorkerId = int

  /** A JSON document; nothing here looks inside it. */
  type Payload = string

  datatype JobState = Pending | Running | Done | Dead

  datatype Job = Job(
    kind: string,
    payload: Payload,
    state: JobState,
    attempts: int,
    maxAttempts: int,
    runAt: Time,
    lockedUntil: Option<Time>,
    lockedBy: Option<WorkerId>,
    lastError: Option<string>)

  /** What `claim_due` returns for one row: the runner's private copy, never refreshed. */
  datatype Lease = Lease(id: Id, kind: string, payload: Payload, attempts: int, maxAttempts: int, until: Time)

  /** A handler's result. */
  datatype Outcome = Success | Permanent(error: string) | Retryable(error: string)

  /** The statement the runner issues for an outcome. */
  datatype Verdict = MarkDone | MarkDead(error: string) | MarkRetry(error: string, nextRunAt: Time)

  datatype RetryPolicy = RetryPolicy(initial: Duration, factor: nat, max: Duration)

  const SECOND: int := 1_000_000

  /** The largest span chrono represents, in seconds and nanoseconds. */
  const LONGEST := Duration(9_223_372_036_854_775, 807_000_000)

  function NewJob(kind: string, payload: Payload, maxAttempts: int, runAt: Time): Job {
    Job(kind, payload, Pending, 0, maxAttempts, runAt, None, None, None)
  }

  function Max(a: int, b: int): int {
    if a >= b then a else b
  }

  // ---- claim_due -----------------------------------------------------------

  predicate IsDue(job: Job, kinds: set<string>, now: Time) {
    && job.kind in kinds
    && ((job.state.Pending? && job.runAt <= now)
        || (job.state.Running? && job.lockedUntil.Some? && job.lockedUntil.value <= now))
  }

  /** Rows `claim_due` may pick: due, of a registered kind, and not row-locked by a concurrent statement. */
  function DueJobs(jobs: map<Id, Job>, kinds: set<string>, now: Time, busy: set<Id>): set<Id> {
    set j | j in jobs && j !in busy && IsDue(jobs[j], kinds, now)
  }

  /** `ORDER BY run_at` alone: rows with the same `run_at` are tied. */
  function RunAtKey(jobs: map<Id, Job>): Id -> Key {
    j => Key(if j in jobs then jobs[j].runAt else 0, 0)
  }

  /** `picked` is a possible outcome of the statement: at most `limit` due rows, each once, and those left
      behind are due no earlier than any picked one; none is left when fewer than `limit` are picked.
      The order in which `UPDATE .. RETURNING` hands them over is not defined. */
  ghost predicate IsClaim(jobs: map<Id, Job>, kinds: set<string>, now: Time, busy: set<Id>, limit: nat, picked: seq<Id>) {
    var due := DueJobs(jobs, kinds, now, busy);
    && |picked| <= limit
    && (forall i | 0 <= i < |picked| :: picked[i] in due)
    && (forall i, k | 0 <= i < k < |picked| :: picked[i] != picked[k])
    && (forall j, i | j in due && j !in picked && 0 <= i < |picked| :: jobs[picked[i]].runAt <= jobs[j].runAt)
    && (|picked| < limit ==> forall j | j in due :: j in picked)
  }

  function Claimed(job: Job, worker: WorkerId, until: Time): Job {
    job.(state := Running, lockedUntil := Some(until), lockedBy := Some(worker))
  }

  function ClaimAll(jobs: map<Id, Job>, picked: seq<Id>, worker: WorkerId, until: Time): map<Id, Job> {
    map j | j in jobs :: if j in picked then Claimed(jobs[j], worker, until) else jobs[j]
  }

  function LeaseFor(jobs: map<Id, Job>, id: Id, until: Time): Lease
    requires id in jobs
  {
    Lease(id, jobs[id].kind, jobs[id].payload, jobs[id].attempts, jobs[id].maxAttempts, until)
  }

  function Leases(jobs: map<Id, Job>, picked: seq<Id>, until: Time): seq<Lease>
    requires forall i | 0 <= i < |picked| :: picked[i] in jobs
  {
    seq(|picked|, i requires 0 <= i < |picked| => LeaseFor(jobs, picked[i], until))
  }

  /** `claim_due` keeps whole seconds of the visibility timeout only. */
  function LeaseEnd(now: Time, visibility: Duration): Time {
    now + visibility.secs * SECOND
  }

  // ---- outcomes ------------------------------------------------------------

  function RetryDelay(d: Duration): int {
    if Shorter(LONGEST, d) then 5 * SECOND else d.secs * SECOND + d.nanos / 1000
  }

  function AsU32(n: int): nat {
    n % (U32_MAX + 1)
  }

  /** The decision in `dispatch`, taken from the leased copy, not from the row. */
  function Decide(lease: Lease, outcome: Outcome, policy: RetryPolicy, now: Time): Verdict {
    match outcome
    case Success => MarkDone
    case Permanent(e) => MarkDead(e)
    case Retryable(e) =>
      var next := lease.attempts + 1;
      if next >= lease.maxAttempts then MarkDead(e)
      else MarkRetry(e, now + RetryDelay(ComputeBackoff(AsU32(next), policy.initial, policy.factor, policy.max)))
  }

  /** The row after the statement; each one matches on the id alone. */
  function Settled(job: Job, verdict: Verdict): Job {
    var unlocked := job.(lockedUntil := None, lockedBy := None);
    match verdict
    case MarkDone => unlocked.(state := Done)
    case MarkDead(e) => unlocked.(state := Dead, attempts := job.attempts + 1, lastError := Some(e))
    case MarkRetry(e, at) =>
      unlocked.(state := Pending, attempts := job.attempts + 1, lastError := Some(e), runAt := at)
  }

  function Settle(jobs: map<Id, Job>, id: Id, verdict: Verdict): map<Id, Job> {
    if id in jobs then jobs[id := Settled(jobs[id], verdict)] else jobs
  }
}
