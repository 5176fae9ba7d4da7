/** The jobs repository and the runner loop, as objects updated in place. One polling round
    of the runner is proved to be a run of the step machine in `JobLease`. */
module JobRunner {
  import opened Keyset
  import opened Backoff
  import opened JobModel
  import opened JobLease

  class JobsRepository {
    var jobs: map<Id, Job>
    var now: Time

    constructor (now: Time)
      ensures jobs == map[] && this.now == now
    {
      jobs := map[];
      this.now := now;
    }

    /** Rows in `busy` are row-locked by a concurrent statement and skipped. Each row leased was due and is
        the runner's for `visibility.secs` whole seconds; due rows left behind are no earlier, and there are
        none when fewer than `limit` are leased. */
    method ClaimDue(worker: WorkerId, kinds: set<string>, visibility: Duration, limit: nat, busy: set<Id>)
      returns (leases: seq<Lease>, ghost picked: seq<Id>)
      modifies this`jobs
      ensures IsClaim(old(jobs), kinds, now, busy, limit, picked)
      ensures jobs == ClaimAll(old(jobs), picked, worker, LeaseEnd(now, visibility))
      ensures forall i | 0 <= i < |picked| :: picked[i] in old(jobs)
      ensures leases == Leases(old(jobs), picked, LeaseEnd(now, visibility))
      ensures TakesRows(old(jobs), jobs, worker, kinds, visibility.secs, now, limit, busy, picked, leases)
    {
      if kinds == {} {
        picked := [];
        assert forall j | j in jobs :: !IsDue(jobs[j], kinds, now);
        assert jobs == ClaimAll(jobs, [], worker, LeaseEnd(now, visibility));
        ClaimOnRows(jobs, worker, kinds, visibility, now, limit, busy, []);
        return [], [];
      }
      var due := OrderByLimit(Ascending, RunAtKey(jobs), DueJobs(jobs, kinds, now, busy), limit);
      picked := due;
      ClaimOnRows(jobs, worker, kinds, visibility, now, limit, busy, due);
      leases := Leases(jobs, due, LeaseEnd(now, visibility));
      jobs := ClaimAll(jobs, due, worker, LeaseEnd(now, visibility));
    }

    method MarkDone(id: Id)
      modifies this`jobs
      ensures jobs == Settle(old(jobs), id, Verdict.MarkDone)
      ensures OthersStay(old(jobs), jobs, id)
      ensures id in jobs ==> jobs[id] == old(jobs)[id].(state := Done, lockedUntil := None, lockedBy := None)
    {
      if id in jobs {
        jobs := jobs[id := jobs[id].(state := Done, lockedUntil := None, lockedBy := None)];
      }
    }

    method MarkFailedRetry(id: Id, error: string, nextRunAt: Time)
      modifies this`jobs
      ensures jobs == Settle(old(jobs), id, MarkRetry(error, nextRunAt))
      ensures OthersStay(old(jobs), jobs, id)
      ensures id in jobs ==>
                var was := old(jobs)[id];
                jobs[id] == was.(state := Pending, attempts := was.attempts + 1, lastError := Some(error),
                                 runAt := nextRunAt, lockedUntil := None, lockedBy := None)
    {
      if id in jobs {
        var job := jobs[id];
        jobs := jobs[id := job.(state := Pending, attempts := job.attempts + 1, lastError := Some(error),
                                runAt := nextRunAt, lockedUntil := None, lockedBy := None)];
      }
    }

    method MarkDead(id: Id, error: string)
      modifies this`jobs
      ensures jobs == Settle(old(jobs), id, Verdict.MarkDead(error))
      ensures OthersStay(old(jobs), jobs, id)
      ensures id in jobs ==>
                var was := old(jobs)[id];
                jobs[id] == was.(state := Dead, attempts := was.attempts + 1, lastError := Some(error),
                                 lockedUntil := None, lockedBy := None)
    {
      if id in jobs {
        var job := jobs[id];
        jobs := jobs[id := job.(state := Dead, attempts := job.attempts + 1, lastError := Some(error),
                                lockedUntil := None, lockedBy := None)];
      }
    }
  }

  /** The claim on the rows' own columns. */
  ghost predicate TakesRows(before: map<Id, Job>, after: map<Id, Job>, worker: WorkerId, kinds: set<string>, seconds: nat, now: Time,
                            limit: nat, busy: set<Id>, picked: seq<Id>, leases: seq<Lease>) {
    && after.Keys == before.Keys && (forall j | j in after && j in before && j !in picked :: after[j] == before[j])
    && |picked| == |leases| <= limit && (forall i, k | 0 <= i < k < |picked| :: picked[i] != picked[k])
    && (forall i | 0 <= i < |picked| ::
          && picked[i] in before && picked[i] in after && picked[i] !in busy
          && var was, until := before[picked[i]], now + seconds * 1_000_000;
          && was.kind in kinds && Waiting(was, now)
          && after[picked[i]] == was.(state := Running, lockedUntil := Some(until), lockedBy := Some(worker))
          && leases[i] == Lease(id := picked[i], kind := was.kind, payload := was.payload, attempts := was.attempts,
                                maxAttempts := was.maxAttempts, until := until))
    && (forall j | j in before && before[j].kind in kinds && j !in busy && Waiting(before[j], now) && j !in picked ::
          |picked| == limit && forall i | 0 <= i < |picked| :: picked[i] in before && before[picked[i]].runAt <= before[j].runAt)
  }

  lemma ClaimOnRows(jobs: map<Id, Job>, worker: WorkerId, kinds: set<string>, visibility: Duration, now: Time,
                    limit: nat, busy: set<Id>, picked: seq<Id>)
    requires IsClaim(jobs, kinds, now, busy, limit, picked)
    ensures forall i | 0 <= i < |picked| :: picked[i] in jobs
    ensures var until := LeaseEnd(now, visibility);
            TakesRows(jobs, ClaimAll(jobs, picked, worker, until), worker, kinds, visibility.secs, now, limit, busy, picked,
                      Leases(jobs, picked, until))
  {
    ClaimMeans(jobs, kinds, now, busy, limit, picked);
  }

  /** Pending and its time has come, or running under a lease that has ended. */
  predicate Waiting(job: Job, now: Time) {
    if job.state == Pending then job.runAt <= now
    else job.state == Running && job.lockedUntil.Some? && job.lockedUntil.value <= now
  }

  predicate OthersStay(before: map<Id, Job>, after: map<Id, Job>, id: Id) {
    after.Keys == before.Keys && forall j | j in after && j != id :: after[j] == before[j]
  }

  lemma DueIsWaiting(job: Job, kinds: set<string>, now: Time)
    ensures IsDue(job, kinds, now) <==> job.kind in kinds && Waiting(job, now)
  {
  }

  lemma ClaimMeans(jobs: map<Id, Job>, kinds: set<string>, now: Time, busy: set<Id>, limit: nat, picked: seq<Id>)
    requires IsClaim(jobs, kinds, now, busy, limit, picked)
    ensures forall i | 0 <= i < |picked| ::
              picked[i] in jobs && picked[i] !in busy && jobs[picked[i]].kind in kinds && Waiting(jobs[picked[i]], now)
    ensures forall j | j in jobs && jobs[j].kind in kinds && j !in busy && Waiting(jobs[j], now) && j !in picked ::
              |picked| == limit && forall i | 0 <= i < limit :: jobs[picked[i]].runAt <= jobs[j].runAt
  {
    forall i | 0 <= i < |picked|
      ensures picked[i] in jobs && picked[i] !in busy && jobs[picked[i]].kind in kinds && Waiting(jobs[picked[i]], now)
    {
      assert picked[i] in DueJobs(jobs, kinds, now, busy);
      DueIsWaiting(jobs[picked[i]], kinds, now);
    }
    forall j | j in jobs && jobs[j].kind in kinds && j !in busy && Waiting(jobs[j], now)
      ensures j in DueJobs(jobs, kinds, now, busy)
    {
    }
  }

  /** The decision taken on a leased copy, as the row shows it afterwards. */
  lemma OutcomeOnRow(was: Job, lease: Lease, outcome: Outcome, policy: RetryPolicy, now: Time)
    ensures var row := Settled(was, Decide(lease, outcome, policy, now));
            && row.lockedUntil.None? && row.lockedBy.None?
            && row.kind == was.kind && row.payload == was.payload && row.maxAttempts == was.maxAttempts
            && match outcome
               case Success => row.state.Done? && row.attempts == was.attempts && row.lastError == was.lastError
               case Permanent(e) => row.state.Dead? && row.attempts == was.attempts + 1 && row.lastError == Some(e)
               case Retryable(e) =>
                 && row.attempts == was.attempts + 1 && row.lastError == Some(e)
                 && (if lease.attempts + 1 >= lease.maxAttempts then row.state.Dead?
                     else row.state.Pending? && RetriesAt(lease, policy, now, row.runAt))
  {
    if 0 <= lease.attempts < 0xFFFF_FFFF {
      assert AsU32(lease.attempts + 1) == lease.attempts + 1;
    }
  }

  /** `at` is later than `now` by the policy's delay for this attempt, in microseconds; five seconds stand in
      for delays beyond the longest representable span. */
  predicate RetriesAt(lease: Lease, policy: RetryPolicy, now: Time, at: Time) {
    0 <= lease.attempts < 0xFFFF_FFFF ==>
      var d := ComputeBackoff(lease.attempts + 1, policy.initial, policy.factor, policy.max);
      && (d.secs < 9_223_372_036_854_775 ==> at == now + d.secs * 1_000_000 + d.nanos / 1_000)
      && (d.secs > 9_223_372_036_854_775 ==> at == now + 5_000_000)
  }

  /** Every other runner at work has its lease until after `end`. */
  ghost predicate OthersInTime(s: State, w: WorkerId, end: Time) {
    forall v | v != w && Working(s, v) && s.runners[v].stage.Executing? :: end < Head(s, v).until
  }

  predicate Unexpired(leases: seq<Lease>, now: Time) {
    forall i | 0 <= i < |leases| :: now < leases[i].until
  }

  /** Dispatching the head of a batch: start, the handler's time, finish, and record (or fail to). */
  lemma DispatchSteps(s: State, steps: seq<Step>, t: State, w: WorkerId, outcome: Outcome, failing: bool, duration: nat)
    returns (longer: seq<Step>, u: State)
    requires Leads(s, steps, t) && Working(t, w) && t.runners[w].stage.Ready? && Head(t, w).kind in t.runners[w].kinds
    ensures Leads(s, longer, u) && u.now == t.now + duration && u.runners == t.runners[w := NextInBatch(t.runners[w])]
    ensures u.jobs == if failing then t.jobs
                      else Settle(t.jobs, Head(t, w).id, Decide(Head(t, w), outcome, t.runners[w].policy, u.now))
    ensures DisciplinedRun(s, steps) && u.now < Head(t, w).until && OthersInTime(t, w, u.now) ==> DisciplinedRun(s, longer)
  {
    longer, u := HandlerSteps(s, steps, t, w, outcome, duration);
    var last := if failing then RecordFails(w) else Record(w);
    LeadsOneMore(s, longer, u, last);
    longer, u := longer + [last], Do(u, last);
  }

  lemma HandlerSteps(s: State, steps: seq<Step>, t: State, w: WorkerId, outcome: Outcome, duration: nat)
    returns (longer: seq<Step>, u: State)
    requires Leads(s, steps, t) && Working(t, w) && t.runners[w].stage.Ready? && Head(t, w).kind in t.runners[w].kinds
    ensures Leads(s, longer, u) && u.now == t.now + duration && u.jobs == t.jobs
    ensures u.runners == t.runners[w := t.runners[w].(stage := Returned(outcome))]
    ensures DisciplinedRun(s, steps) && u.now < Head(t, w).until && OthersInTime(t, w, u.now) ==> DisciplinedRun(s, longer)
  {
    LeadsOneMore(s, steps, t, Start(w));
    longer, u := steps + [Start(w)], Do(t, Start(w));
    var later := Advance(t.now + duration);
    LeadsOneMore(s, longer, u, later);
    longer, u := longer + [later], Do(u, later);
    LeadsOneMore(s, longer, u, Finish(w, outcome));
    longer, u := longer + [Finish(w, outcome)], Do(u, Finish(w, outcome));
  }

  class JobRunner {
    const repo: JobsRepository
    const worker: WorkerId
    const kinds: set<string>
    const visibility: Duration
    const batchSize: nat
    const policy: RetryPolicy

    constructor (repo: JobsRepository, worker: WorkerId, kinds: set<string>, visibility: Duration,
                 batchSize: nat, policy: RetryPolicy)
      ensures this.repo == repo && this.worker == worker && this.kinds == kinds
      ensures this.visibility == visibility && this.batchSize == batchSize && this.policy == policy
    {
      this.repo, this.worker, this.kinds := repo, worker, kinds;
      this.visibility, this.batchSize, this.policy := visibility, batchSize, policy;
    }

    /** This runner, idle, as the step machine sees it. */
    function Idle(): Runner {
      Runner(kinds, visibility, batchSize, policy, [], Ready)
    }

    /** `answer` is what the handler returns if one is registered for the kind. When `failing`,
        the statement that records the outcome errors and is only logged. */
    method Dispatch(lease: Lease, answer: Outcome, failing: bool) returns (outcome: Outcome)
      modifies repo`jobs
      ensures outcome == if lease.kind in kinds then answer else Permanent("no handler for kind '" + lease.kind + "'")
      ensures repo.jobs == if failing then old(repo.jobs)
                           else Settle(old(repo.jobs), lease.id, Decide(lease, outcome, policy, repo.now))
      ensures OthersStay(old(repo.jobs), repo.jobs, lease.id)
      ensures !failing && lease.id in repo.jobs ==>
                var was, row := old(repo.jobs)[lease.id], repo.jobs[lease.id];
                && row.lockedUntil.None? && row.lockedBy.None?
                && row.kind == was.kind && row.payload == was.payload && row.maxAttempts == was.maxAttempts
                && match outcome
                   case Success => row.state.Done? && row.attempts == was.attempts
                   case Permanent(e) => row.state.Dead? && row.attempts == was.attempts + 1 && row.lastError == Some(e)
                   case Retryable(e) =>
                     && row.attempts == was.attempts + 1 && row.lastError == Some(e)
                     && (if lease.attempts + 1 >= lease.maxAttempts then row.state.Dead?
                         else row.state.Pending? && RetriesAt(lease, policy, repo.now, row.runAt))
    {
      outcome := if lease.kind in kinds then answer else Permanent("no handler for kind '" + lease.kind + "'");
      if failing { return; }
      if lease.id in repo.jobs { OutcomeOnRow(repo.jobs[lease.id], lease, outcome, policy, repo.now); }
      match outcome {
        case Success => repo.MarkDone(lease.id);
        case Permanent(error) => repo.MarkDead(lease.id, error);
        case Retryable(error) =>
          var nextAttempt := lease.attempts + 1;
          if nextAttempt >= lease.maxAttempts {
            repo.MarkDead(lease.id, error);
          } else {
            var backoff := ComputeBackoff(AsU32(nextAttempt), policy.initial, policy.factor, policy.max);
            repo.MarkFailedRetry(lease.id, error, repo.now + RetryDelay(backoff));
          }
      }
    }

    /** The leases of one batch, dispatched one after the other; the `i`-th handler takes `durations(i)`. */
    method RunBatch(leases: seq<Lease>, answers: Id -> Outcome, durations: nat -> nat, failing: set<Id>,
                    ghost s: State, ghost before: seq<Step>, ghost a: State)
      returns (ghost steps: seq<Step>, ghost t: State)
      requires Leads(s, before, a) && a.jobs == repo.jobs && a.now == repo.now
      requires worker in a.runners && a.runners[worker] == Idle().(batch := leases)
      requires forall i | 0 <= i < |leases| :: leases[i].kind in kinds
      modifies repo
      ensures Leads(s, steps, t)
      ensures t.jobs == repo.jobs && t.now == repo.now >= a.now && t.runners == a.runners[worker := Idle()]
      ensures DisciplinedRun(s, before) && Unexpired(leases, t.now) && OthersInTime(a, worker, t.now) ==> DisciplinedRun(s, steps)
    {
      steps, t := before, a;
      for i := 0 to |leases|
        invariant Leads(s, steps, t)
        invariant t.jobs == repo.jobs && t.now == repo.now >= a.now
        invariant t.runners == a.runners[worker := Idle().(batch := leases[i..])]
        invariant DisciplinedRun(s, before) && Unexpired(leases, t.now) && OthersInTime(a, worker, t.now) ==> DisciplinedRun(s, steps)
      {
        SameOthers(a, t, worker);
        steps, t := DispatchNext(leases[i..], answers(leases[i].id), durations(i), leases[i].id in failing, s, steps, t);
        assert leases[i..][1..] == leases[i + 1..];
      }
      assert leases[|leases|..] == [];
    }

    /** One turn of `RunBatch`. */
    method DispatchNext(leases: seq<Lease>, answer: Outcome, duration: nat, failing: bool,
                        ghost s: State, ghost before: seq<Step>, ghost a: State)
      returns (ghost steps: seq<Step>, ghost t: State)
      requires Leads(s, before, a) && a.jobs == repo.jobs && a.now == repo.now
      requires leases != [] && leases[0].kind in kinds
      requires worker in a.runners && a.runners[worker] == Idle().(batch := leases)
      modifies repo
      ensures Leads(s, steps, t)
      ensures t.jobs == repo.jobs && t.now == repo.now == a.now + duration
      ensures t.runners == a.runners[worker := Idle().(batch := leases[1..])]
      ensures DisciplinedRun(s, before) && t.now < leases[0].until && OthersInTime(a, worker, t.now) ==> DisciplinedRun(s, steps)
    {
      repo.now := repo.now + duration;
      var outcome := Dispatch(leases[0], answer, failing);
      steps, t := DispatchSteps(s, before, a, worker, outcome, failing, duration);
    }

    /** One round of the polling loop. `s` is the shared state before it; the round performs `steps`. It keeps
        the lease discipline if it ends before its own leases and those of the runners at work do. */
    method Poll(answers: Id -> Outcome, durations: nat -> nat, failing: set<Id>, busy: set<Id>, ghost s: State)
      returns (claimed: nat, ghost steps: seq<Step>, ghost t: State)
      requires s.jobs == repo.jobs && s.now == repo.now
      requires worker in s.runners && s.runners[worker] == Idle()
      modifies repo
      ensures Leads(s, steps, t)
      ensures t.jobs == repo.jobs && t.now == repo.now && t.runners == s.runners
      ensures t.now < LeaseEnd(s.now, visibility) && OthersInTime(s, worker, t.now) ==> DisciplinedRun(s, steps)
      ensures claimed <= batchSize
    {
      var leases;
      ghost var picked;
      leases, picked := repo.ClaimDue(worker, kinds, visibility, batchSize, busy);
      claimed := |leases|;
      ghost var claim := Claim(worker, busy, picked);
      LeadsOneMore(s, [], s, claim);
      steps, t := [claim], Do(s, claim);
      assert [] + [claim] == steps;
      forall i | 0 <= i < |leases| ensures leases[i].kind in kinds {
        assert picked[i] in DueJobs(s.jobs, kinds, s.now, busy);
      }
      SameOthers(s, t, worker);
      steps, t := RunBatch(leases, answers, durations, failing, s, steps, t);
      assert t.runners == s.runners;
    }
  }

  /** Only one runner moved, so the leases of the others are as they were. */
  lemma SameOthers(s: State, t: State, w: WorkerId)
    requires forall v | v != w :: (v in s.runners <==> v in t.runners) && (v in s.runners ==> t.runners[v] == s.runners[v])
    ensures forall e :: OthersInTime(s, w, e) <==> OthersInTime(t, w, e)
  {
    forall e ensures OthersInTime(s, w, e) <==> OthersInTime(t, w, e) {
      assert forall v | v != w :: Working(s, v) <==> Working(t, v);
    }
  }
}
