/** Any number of runners sharing the `jobs` table, one SQL statement per step. */
module JobLease {
  import opened Keyset
  import opened Backoff
  import opened JobModel

  /** Where a runner stands with the head of its batch. */
  datatype Stage = Ready | Executing | Returned(outcome: Outcome)

  datatype Runner = Runner(
    kinds: set<string>, visibility: Duration, batchSize: nat, policy: RetryPolicy,
    batch: seq<Lease>, stage: Stage)

  datatype Grant = Grant(worker: WorkerId, at: Time, until: Time)

  datatype Win = Win(worker: WorkerId, at: Time)

  /** History of one job: claims made, claims of an expired lease, handler runs, the latest
      lease granted and the latest handler success. */
  datatype Trace = Trace(claims: nat, expired: nat, runs: nat, grant: Option<Grant>, win: Option<Win>)

  const NoTrace := Trace(0, 0, 0, None, None)

  datatype State = State(now: Time, jobs: map<Id, Job>, runners: map<WorkerId, Runner>, trace: map<Id, Trace>)

  datatype Step =
    | Arrive(added: map<Id, Job>)                        // a transaction that enqueued jobs commits
    | Join(worker: WorkerId, runner: Runner)             // a runner starts
    | Claim(worker: WorkerId, busy: set<Id>, picked: seq<Id>)
    | Start(worker: WorkerId)                            // the handler is called
    | Finish(worker: WorkerId, outcome: Outcome)         // the handler returns
    | Record(worker: WorkerId)                           // mark_done, mark_dead or mark_failed_retry
    | RecordFails(worker: WorkerId)                      // that statement errors: logged and skipped
    | Crash(worker: WorkerId)
    | Advance(to: Time)

  ghost predicate AllNew(jobs: map<Id, Job>) {
    forall j | j in jobs :: jobs[j].state.Pending? && jobs[j].attempts == 0
  }

  predicate Working(s: State, w: WorkerId) {
    w in s.runners && s.runners[w].batch != []
  }

  function Head(s: State, w: WorkerId): Lease
    requires Working(s, w)
  {
    s.runners[w].batch[0]
  }

  ghost predicate Enabled(s: State, step: Step) {
    match step
    case Arrive(added) => added.Keys !! s.jobs.Keys && AllNew(added)
    case Join(w, r) => w !in s.runners && r.batch == [] && r.stage.Ready?
    case Claim(w, busy, picked) =>
      && w in s.runners && s.runners[w].batch == []
      && IsClaim(s.jobs, s.runners[w].kinds, s.now, busy, s.runners[w].batchSize, picked)
    case Start(w) => Working(s, w) && s.runners[w].stage.Ready?
    case Finish(w, outcome) =>
      && Working(s, w) && s.runners[w].stage.Executing?
      && (Head(s, w).kind in s.runners[w].kinds || outcome.Permanent?)  // no handler for the kind
    case Record(w) => Working(s, w) && s.runners[w].stage.Returned?
    case RecordFails(w) => Working(s, w) && s.runners[w].stage.Returned?
    case Crash(w) => w in s.runners
    case Advance(to) => s.now <= to
  }

  function Granted(t: Trace, wasRunning: bool, grant: Grant): Trace {
    t.(claims := t.claims + 1, expired := t.expired + (if wasRunning then 1 else 0), grant := Some(grant))
  }

  function NextInBatch(r: Runner): Runner
    requires r.batch != []
  {
    r.(batch := r.batch[1..], stage := Ready)
  }

  ghost function Do(s: State, step: Step): State
    requires Enabled(s, step)
  {
    match step
    case Arrive(added) => s.(jobs := s.jobs + added, trace := s.trace + map j | j in added :: NoTrace)
    case Join(w, r) => s.(runners := s.runners[w := r])
    case Claim(w, busy, picked) =>
      var until := LeaseEnd(s.now, s.runners[w].visibility);
      s.(jobs := ClaimAll(s.jobs, picked, w, until),
         runners := s.runners[w := s.runners[w].(batch := Leases(s.jobs, picked, until), stage := Ready)],
         trace := map j | j in s.trace ::
           if j in picked && j in s.jobs
           then Granted(s.trace[j], s.jobs[j].state.Running?, Grant(w, s.now, until)) else s.trace[j])
    case Start(w) =>
      var j := Head(s, w).id;
      s.(runners := s.runners[w := s.runners[w].(stage := Executing)],
         trace := if j in s.trace then s.trace[j := s.trace[j].(runs := s.trace[j].runs + 1)] else s.trace)
    case Finish(w, outcome) =>
      var j := Head(s, w).id;
      s.(runners := s.runners[w := s.runners[w].(stage := Returned(outcome))],
         trace := if j in s.trace && outcome.Success? then s.trace[j := s.trace[j].(win := Some(Win(w, s.now)))]
                  else s.trace)
    case Record(w) =>
      var r := s.runners[w];
      s.(jobs := Settle(s.jobs, Head(s, w).id, Decide(Head(s, w), r.stage.outcome, r.policy, s.now)),
         runners := s.runners[w := NextInBatch(r)])
    case RecordFails(w) => s.(runners := s.runners[w := NextInBatch(s.runners[w])])
    case Crash(w) => s.(runners := s.runners - {w})
    case Advance(to) => s.(now := to)
  }

  /** The lease discipline the statements do not enforce: no handler is started, is running or
      has its outcome recorded at or past the end of its lease. */
  ghost predicate Disciplined(s: State, step: Step)
    requires Enabled(s, step)
  {
    match step
    case Start(w) => s.now < Head(s, w).until
    case Finish(w, _) => s.now < Head(s, w).until
    case Record(w) => s.now < Head(s, w).until
    case Advance(to) =>
      forall w | Working(s, w) && s.runners[w].stage.Executing? :: to < Head(s, w).until
    case _ => true
  }

  /** Outcomes recorded in time: the one part of the discipline that finality needs. */
  ghost predicate RecordedInTime(s: State, step: Step)
    requires Enabled(s, step)
  {
    step.Record? ==> s.now < Head(s, step.worker).until
  }

  ghost predicate TimelyRun(s: State, steps: seq<Step>)
    decreases |steps|
  {
    steps == [] || (Enabled(s, steps[0]) && RecordedInTime(s, steps[0]) && TimelyRun(Do(s, steps[0]), steps[1..]))
  }

  /** `s` leads to `t` by `steps`, each enabled. */
  ghost predicate Leads(s: State, steps: seq<Step>, t: State)
    decreases |steps|
  {
    if steps == [] then s == t
    else Enabled(s, steps[0]) && Leads(Do(s, steps[0]), steps[1..], t)
  }

  ghost predicate DisciplinedRun(s: State, steps: seq<Step>)
    decreases |steps|
  {
    steps == [] || (Enabled(s, steps[0]) && Disciplined(s, steps[0]) && DisciplinedRun(Do(s, steps[0]), steps[1..]))
  }

  predicate Initial(s: State) {
    s.jobs == map[] && s.runners == map[] && s.trace == map[]
  }

  // ---- invariant -----------------------------------------------------------

  /** The lease at position `i` of a batch: while unexpired it is the one the row records. */
  ghost predicate LeaseOk(s: State, w: WorkerId, i: int)
    requires w in s.runners && 0 <= i < |s.runners[w].batch|
  {
    var r := s.runners[w];
    var l := r.batch[i];
    && l.id in s.jobs && l.id in s.trace
    && l.kind == s.jobs[l.id].kind && l.kind in r.kinds && l.payload == s.jobs[l.id].payload
    && l.maxAttempts == s.jobs[l.id].maxAttempts
    && (s.now < l.until ==>
          var job, t := s.jobs[l.id], s.trace[l.id];
          && job.state.Running? && job.lockedUntil == Some(l.until) && job.lockedBy == Some(w)
          && job.attempts == l.attempts
          && t.grant.Some? && t.grant.value.worker == w && t.grant.value.until == l.until && t.grant.value.at <= s.now
          && (i > 0 || r.stage.Ready? ==> t.runs < t.claims)
          && (i == 0 && r.stage == Returned(Success) ==>
                t.win.Some? && t.win.value.worker == w && t.grant.value.at <= t.win.value.at < l.until))
  }

  ghost predicate RunnerOk(s: State, w: WorkerId)
    requires w in s.runners
  {
    var r := s.runners[w];
    && (r.batch == [] ==> r.stage.Ready?)
    && (forall i | 0 <= i < |r.batch| :: LeaseOk(s, w, i))
    && (forall i, k | 0 <= i < k < |r.batch| :: r.batch[i].id != r.batch[k].id)
    && (r.batch != [] && r.stage.Executing? ==> s.now < r.batch[0].until)
  }

  predicate WonInsideLease(t: Trace) {
    && t.grant.Some? && t.win.Some? && t.win.value.worker == t.grant.value.worker
    && t.grant.value.at <= t.win.value.at < t.grant.value.until
  }

  predicate JobOk(job: Job, t: Trace) {
    && job.attempts >= 0
    && t.claims == job.attempts + t.expired + (if job.state.Running? || job.state.Done? then 1 else 0)
    && t.runs <= t.claims
    && (job.state.Dead? ==> job.attempts <= Max(1, job.maxAttempts))
    && (!job.state.Dead? ==> job.attempts < Max(1, job.maxAttempts))
    && (job.state.Done? ==> WonInsideLease(t))
  }

  ghost predicate Inv(s: State) {
    && s.trace.Keys == s.jobs.Keys
    && (forall j | j in s.jobs :: JobOk(s.jobs[j], s.trace[j]))
    && (forall w | w in s.runners :: RunnerOk(s, w))
  }

  /** Unexpired leases on one job are one lease. */
  lemma LiveLeasesCoincide(s: State, w: WorkerId, i: int, v: WorkerId, k: int)
    requires Inv(s)
    requires w in s.runners && 0 <= i < |s.runners[w].batch|
    requires v in s.runners && 0 <= k < |s.runners[v].batch|
    requires s.runners[w].batch[i].id == s.runners[v].batch[k].id
    requires s.now < s.runners[w].batch[i].until && s.now < s.runners[v].batch[k].until
    ensures w == v && i == k
  {
    assert LeaseOk(s, w, i) && LeaseOk(s, v, k);
  }

  lemma ClaimKeepsInv(s: State, w: WorkerId, busy: set<Id>, picked: seq<Id>)
    requires Inv(s) && Enabled(s, Claim(w, busy, picked))
    ensures Inv(Do(s, Claim(w, busy, picked)))
  {
    var t := Do(s, Claim(w, busy, picked));
    forall v | v in t.runners ensures RunnerOk(t, v) {
      if v != w {
        assert RunnerOk(s, v);
        forall i | 0 <= i < |t.runners[v].batch| ensures LeaseOk(t, v, i) {
          assert LeaseOk(s, v, i);
        }
      }
    }
  }

  lemma SettlingKeepsInv(s: State, w: WorkerId)
    requires Inv(s) && Enabled(s, Record(w)) && Disciplined(s, Record(w))
    ensures Inv(Do(s, Record(w)))
  {
    var t := Do(s, Record(w));
    assert LeaseOk(s, w, 0);
    forall v | v in t.runners ensures RunnerOk(t, v) {
      assert RunnerOk(s, v);
      forall i | 0 <= i < |t.runners[v].batch| ensures LeaseOk(t, v, i) {
        var i' := if v == w then i + 1 else i;
        assert LeaseOk(s, v, i');
        if s.now < s.runners[v].batch[i'].until && s.runners[v].batch[i'].id == Head(s, w).id {
          LiveLeasesCoincide(s, w, 0, v, i');
        }
      }
    }
  }

  lemma StartKeepsLease(s: State, w: WorkerId, v: WorkerId, i: int)
    requires Inv(s) && Enabled(s, Start(w)) && Disciplined(s, Start(w))
    requires v in s.runners && 0 <= i < |s.runners[v].batch|
    ensures LeaseOk(Do(s, Start(w)), v, i)
  {
    assert LeaseOk(s, w, 0) && LeaseOk(s, v, i);
    if s.now < s.runners[v].batch[i].until && s.runners[v].batch[i].id == Head(s, w).id {
      LiveLeasesCoincide(s, w, 0, v, i);
    }
  }

  lemma FinishKeepsLease(s: State, w: WorkerId, outcome: Outcome, v: WorkerId, i: int)
    requires Inv(s) && Enabled(s, Finish(w, outcome)) && Disciplined(s, Finish(w, outcome))
    requires v in s.runners && 0 <= i < |s.runners[v].batch|
    ensures LeaseOk(Do(s, Finish(w, outcome)), v, i)
  {
    assert LeaseOk(s, w, 0) && LeaseOk(s, v, i);
    if s.now < s.runners[v].batch[i].until && s.runners[v].batch[i].id == Head(s, w).id {
      LiveLeasesCoincide(s, w, 0, v, i);
    }
  }

  lemma HandlerKeepsInv(s: State, step: Step)
    requires Inv(s) && Enabled(s, step) && Disciplined(s, step)
    requires step.Start? || step.Finish?
    ensures Inv(Do(s, step))
  {
    var t := Do(s, step);
    assert LeaseOk(s, step.worker, 0);
    forall v | v in t.runners ensures RunnerOk(t, v) {
      assert RunnerOk(s, v);
      forall i | 0 <= i < |t.runners[v].batch| ensures LeaseOk(t, v, i) {
        match step {
          case Start(w) => StartKeepsLease(s, w, v, i);
          case Finish(w, outcome) => FinishKeepsLease(s, w, outcome, v, i);
        }
      }
    }
  }

  lemma QuietStepKeepsInv(s: State, step: Step)
    requires Inv(s) && Enabled(s, step) && Disciplined(s, step)
    requires step.Arrive? || step.Join? || step.RecordFails? || step.Crash? || step.Advance?
    ensures Inv(Do(s, step))
  {
    var t := Do(s, step);
    forall v | v in t.runners ensures RunnerOk(t, v) {
      if v in s.runners {
        assert RunnerOk(s, v);
        forall i | 0 <= i < |t.runners[v].batch| ensures LeaseOk(t, v, i) {
          assert LeaseOk(s, v, if step == RecordFails(v) then i + 1 else i);
        }
        assert step.Advance? && Working(s, v) ==> Working(t, v);
      }
    }
  }

  lemma StepKeepsInv(s: State, step: Step)
    requires Inv(s) && Enabled(s, step) && Disciplined(s, step)
    ensures Inv(Do(s, step))
  {
    match step
    case Claim(w, busy, picked) => ClaimKeepsInv(s, w, busy, picked);
    case Record(w) => SettlingKeepsInv(s, w);
    case Start(w) => HandlerKeepsInv(s, step);
    case Finish(w, _) => HandlerKeepsInv(s, step);
    case _ => QuietStepKeepsInv(s, step);
  }

  // ---- whole runs ----------------------------------------------------------

  lemma {:induction false} RunKeepsInv(s: State, steps: seq<Step>, t: State)
    requires Inv(s) && Leads(s, steps, t) && DisciplinedRun(s, steps)
    ensures Inv(t)
    decreases |steps|
  {
    if steps != [] {
      StepKeepsInv(s, steps[0]);
      RunKeepsInv(Do(s, steps[0]), steps[1..], t);
    }
  }

  /** From an empty table, under the lease discipline: at most one runner executes a job, Done means a
      success inside the latest lease, every claim is accounted for, and attempts stay within bounds. */
  lemma DisciplinedRunsAreSafe(s: State, steps: seq<Step>, t: State)
    requires Initial(s) && Leads(s, steps, t) && DisciplinedRun(s, steps)
    ensures t.trace.Keys == t.jobs.Keys
    ensures forall w, v | Working(t, w) && Working(t, v) && t.runners[w].stage.Executing?
              && t.runners[v].stage.Executing? && Head(t, w).id == Head(t, v).id :: w == v
    ensures forall j | j in t.jobs && t.jobs[j].state.Done? :: WonInsideLease(t.trace[j])
    ensures forall j | j in t.jobs ::
              var job, tr := t.jobs[j], t.trace[j];
              && tr.claims == job.attempts + tr.expired + (if job.state.Running? || job.state.Done? then 1 else 0)
              && (if job.state.Dead? then job.attempts <= Max(1, job.maxAttempts)
                  else job.attempts < Max(1, job.maxAttempts))
    ensures forall j | j in t.jobs && t.trace[j].expired == 0 ::
              t.trace[j].runs <= t.trace[j].claims <= Max(1, t.jobs[j].maxAttempts)
  {
    RunKeepsInv(s, steps, t);
    forall w, v | Working(t, w) && Working(t, v) && t.runners[w].stage.Executing?
      && t.runners[v].stage.Executing? && Head(t, w).id == Head(t, v).id
      ensures w == v
    {
      assert RunnerOk(t, w) && RunnerOk(t, v);
      LiveLeasesCoincide(t, w, 0, v, 0);
    }
  }

  /** Any run, disciplined or not: every leased job has a handler in the runner that leased it. */
  lemma {:induction false} LeasedKindsAreRegistered(s: State, steps: seq<Step>, t: State)
    requires forall w, i | w in s.runners && 0 <= i < |s.runners[w].batch| ::
               s.runners[w].batch[i].kind in s.runners[w].kinds
    requires Leads(s, steps, t)
    ensures forall w, i | w in t.runners && 0 <= i < |t.runners[w].batch| ::
              t.runners[w].batch[i].kind in t.runners[w].kinds
    decreases |steps|
  {
    if steps != [] {
      LeasedKindsAreRegistered(Do(s, steps[0]), steps[1..], t);
    }
  }

  /** Sub-second visibility grants leases that have already ended: a disciplined runner can start a job
      it has just claimed if and only if at least one whole second was asked for. */
  lemma OnlyWholeSecondsGrantWork(s: State, w: WorkerId, busy: set<Id>, picked: seq<Id>)
    requires Enabled(s, Claim(w, busy, picked)) && picked != []
    ensures var t := Do(s, Claim(w, busy, picked));
            Enabled(t, Start(w)) && (Disciplined(t, Start(w)) <==> s.runners[w].visibility.secs >= 1)
  {
  }

  lemma {:induction false} LeadsOneMore(s: State, steps: seq<Step>, m: State, step: Step)
    requires Leads(s, steps, m) && Enabled(m, step)
    ensures Leads(s, steps + [step], Do(m, step))
    ensures DisciplinedRun(s, steps) && Disciplined(m, step) ==> DisciplinedRun(s, steps + [step])
    ensures TimelyRun(s, steps) && RecordedInTime(m, step) ==> TimelyRun(s, steps + [step])
    decreases |steps|
  {
    if steps == [] {
      assert Leads(Do(m, step), [], Do(m, step));
    } else {
      assert (steps + [step])[1..] == steps[1..] + [step];
      LeadsOneMore(Do(s, steps[0]), steps[1..], m, step);
    }
  }

  lemma Extend(s: State, steps: seq<Step>, m: State, step: Step) returns (longer: seq<Step>, t: State)
    requires Leads(s, steps, m) && Enabled(m, step)
    ensures Leads(s, longer, t) && t == Do(m, step)
    ensures TimelyRun(s, steps) && RecordedInTime(m, step) ==> TimelyRun(s, longer)
  {
    LeadsOneMore(s, steps, m, step);
    longer, t := steps + [step], Do(m, step);
  }
}
