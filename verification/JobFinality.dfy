/** When Done and Dead are final although the outcome statements match on the id alone. */
module JobFinality {
  import opened Keyset
  import opened JobModel
  import opened JobLease

  predicate Finished(job: Job) {
    job.state.Done? || job.state.Dead?
  }

  ghost predicate LeaseHeld(s: State, w: WorkerId, i: int)
    requires w in s.runners && 0 <= i < |s.runners[w].batch|
  {
    var l := s.runners[w].batch[i];
    && l.id in s.jobs
    && (s.now < l.until ==>
          s.jobs[l.id].state.Running? && s.jobs[l.id].lockedUntil == Some(l.until) && s.jobs[l.id].lockedBy == Some(w))
  }

  ghost predicate BatchHeld(s: State, w: WorkerId)
    requires w in s.runners
  {
    var batch := s.runners[w].batch;
    && (forall i | 0 <= i < |batch| :: LeaseHeld(s, w, i))
    && forall i, k | 0 <= i < k < |batch| :: batch[i].id != batch[k].id
  }

  ghost predicate LocksHold(s: State) {
    forall w | w in s.runners :: BatchHeld(s, w)
  }

  lemma TimelyRecordKeepsLocks(s: State, w: WorkerId)
    requires LocksHold(s) && Enabled(s, Record(w)) && RecordedInTime(s, Record(w))
    ensures LocksHold(Do(s, Record(w)))
  {
    var t := Do(s, Record(w));
    assert BatchHeld(s, w) && LeaseHeld(s, w, 0);
    forall v | v in t.runners ensures BatchHeld(t, v) {
      assert BatchHeld(s, v);
      forall i | 0 <= i < |t.runners[v].batch| ensures LeaseHeld(t, v, i) {
        assert LeaseHeld(s, v, if v == w then i + 1 else i);
      }
    }
  }

  lemma ClaimKeepsLocks(s: State, w: WorkerId, busy: set<Id>, picked: seq<Id>)
    requires LocksHold(s) && Enabled(s, Claim(w, busy, picked))
    ensures LocksHold(Do(s, Claim(w, busy, picked)))
  {
    var t := Do(s, Claim(w, busy, picked));
    forall v | v in t.runners ensures BatchHeld(t, v) {
      if v != w {
        assert BatchHeld(s, v);
        forall i | 0 <= i < |t.runners[v].batch| ensures LeaseHeld(t, v, i) {
          assert LeaseHeld(s, v, i);
        }
      }
    }
  }

  lemma StepKeepsLocks(s: State, step: Step)
    requires LocksHold(s) && Enabled(s, step) && RecordedInTime(s, step)
    ensures LocksHold(Do(s, step))
  {
    match step
    case Claim(w, busy, picked) => ClaimKeepsLocks(s, w, busy, picked);
    case Record(w) => TimelyRecordKeepsLocks(s, w);
    case _ =>
      var t := Do(s, step);
      forall v | v in t.runners ensures BatchHeld(t, v) {
        if v in s.runners {
          assert BatchHeld(s, v);
          forall i | 0 <= i < |t.runners[v].batch| ensures LeaseHeld(t, v, i) {
            assert LeaseHeld(s, v, if step == RecordFails(v) then i + 1 else i);
          }
        }
      }
  }

  lemma {:induction false} TimelyRunKeepsFinished(s: State, steps: seq<Step>, t: State)
    requires LocksHold(s) && Leads(s, steps, t) && TimelyRun(s, steps)
    ensures LocksHold(t)
    ensures forall j | j in s.jobs && Finished(s.jobs[j]) :: j in t.jobs && t.jobs[j] == s.jobs[j]
    decreases |steps|
  {
    if steps != [] {
      var m := Do(s, steps[0]);
      StepKeepsLocks(s, steps[0]);
      TimelyRunKeepsFinished(m, steps[1..], t);
      if steps[0].Record? { assert BatchHeld(s, steps[0].worker) && LeaseHeld(s, steps[0].worker, 0); }
      assert forall j | j in s.jobs && Finished(s.jobs[j]) :: j in m.jobs && m.jobs[j] == s.jobs[j];
    }
  }

  /** Done and Dead are final as soon as outcomes are recorded in time, however late handlers start or
      return: from any state reached on, the whole row never changes again. */
  lemma FinishedJobsStayFinished(s: State, before: seq<Step>, m: State, after: seq<Step>, t: State, j: Id)
    requires Initial(s) && Leads(s, before, m) && TimelyRun(s, before)
    requires Leads(m, after, t) && TimelyRun(m, after)
    requires j in m.jobs && Finished(m.jobs[j])
    ensures j in t.jobs && t.jobs[j] == m.jobs[j]
  {
    TimelyRunKeepsFinished(s, before, m);
    TimelyRunKeepsFinished(m, after, t);
  }

  predicate DoneUnlocked(s: State) {
    forall j | j in s.jobs && s.jobs[j].state.Done? :: s.jobs[j].lockedUntil.None? && s.jobs[j].lockedBy.None?
  }

  lemma {:induction false} DoneRowsAreUnlocked(s: State, steps: seq<Step>, t: State)
    requires DoneUnlocked(s) && Leads(s, steps, t)
    ensures DoneUnlocked(t)
    decreases |steps|
  {
    if steps != [] {
      DoneRowsAreUnlocked(Do(s, steps[0]), steps[1..], t);
    }
  }

  /** The row the outcome is recorded on is dead, or done with an outcome other than success. */
  predicate HitsFinished(s: State, w: WorkerId)
    requires Working(s, w) && s.runners[w].stage.Returned?
  {
    var j := Head(s, w).id;
    j in s.jobs && (s.jobs[j].state.Dead? || (s.jobs[j].state.Done? && s.runners[w].stage.outcome != Success))
  }

  /** In any run, in time or not: recording an outcome changes a finished row if and only if it hits one. No
      other step ever does. */
  lemma RecordingSparesFinished(s: State, steps: seq<Step>, t: State, step: Step)
    requires Initial(s) && Leads(s, steps, t) && Enabled(t, step)
    ensures (forall j | j in t.jobs && Finished(t.jobs[j]) :: j in Do(t, step).jobs && Do(t, step).jobs[j] == t.jobs[j])
       <==> !(step.Record? && HitsFinished(t, step.worker))
  {
    DoneRowsAreUnlocked(s, steps, t);
    if step.Record? {
      var j := Head(t, step.worker).id;
      assert j in t.jobs ==> Do(t, step).jobs[j] == Settled(t.jobs[j],
        Decide(Head(t, step.worker), t.runners[step.worker].stage.outcome, t.runners[step.worker].policy, t.now));
    }
  }

  // ---- a late outcome meets a finished row ----------------------------------------

  predicate Idle(s: State, v: WorkerId, kind: string) {
    v in s.runners && s.runners[v].batch == [] && kind in s.runners[v].kinds
    && s.runners[v].batchSize >= 1 && s.runners[v].visibility.secs >= 1
  }

  /** An idle runner can lease, run and complete any job whose lease has ended. */
  lemma SecondRunnerCompletes(s: State, before: seq<Step>, a: State, v: WorkerId, j: Id)
    returns (steps: seq<Step>, done: State)
    requires Leads(s, before, a) && TimelyRun(s, before)
    requires j in a.jobs && Idle(a, v, a.jobs[j].kind)
    requires a.jobs[j].state.Running? && a.jobs[j].lockedUntil.Some? && a.jobs[j].lockedUntil.value <= a.now
    ensures Leads(s, steps, done) && TimelyRun(s, steps) && done.now == a.now
    ensures j in done.jobs && done.jobs[j].state.Done?
    ensures done.runners.Keys == a.runners.Keys && forall w | w in a.runners && w != v :: done.runners[w] == a.runners[w]
  {
    steps, done := SecondRunnerClaims(s, before, a, v, j);
    steps, done := Extend(s, steps, done, Start(v));
    steps, done := Extend(s, steps, done, Finish(v, Success));
    steps, done := Extend(s, steps, done, Record(v));
  }

  lemma SecondRunnerClaims(s: State, before: seq<Step>, a: State, v: WorkerId, j: Id)
    returns (steps: seq<Step>, m: State)
    requires Leads(s, before, a) && TimelyRun(s, before)
    requires j in a.jobs && Idle(a, v, a.jobs[j].kind)
    requires a.jobs[j].state.Running? && a.jobs[j].lockedUntil.Some? && a.jobs[j].lockedUntil.value <= a.now
    ensures Leads(s, steps, m) && TimelyRun(s, steps) && m.now == a.now && j in m.jobs
    ensures Working(m, v) && m.runners[v].stage.Ready? && Head(m, v).id == j && Head(m, v).kind in m.runners[v].kinds
    ensures m.now < Head(m, v).until
    ensures m.runners == a.runners[v := m.runners[v]]
  {
    var busy := a.jobs.Keys - {j};
    assert DueJobs(a.jobs, a.runners[v].kinds, a.now, busy) == {j};
    steps, m := Extend(s, before, a, Claim(v, busy, [j]));
    assert m.runners[v].batch == [LeaseFor(a.jobs, j, LeaseEnd(a.now, a.runners[v].visibility))];
  }

  /** Whenever a runner executes a leased job and another one of the kind is idle, the outcome may come too
      late: the lease ends, the other runner completes the job, all outcomes so far recorded in time, and
      recording this one then takes the job out of Done. */
  lemma UndisciplinedRunLeavesDone(s: State, w: WorkerId, v: WorkerId, outcome: Outcome)
    returns (steps: seq<Step>, done: State)
    requires Working(s, w) && s.runners[w].stage.Executing? && w != v
    requires var j := Head(s, w).id;
             && j in s.jobs && s.jobs[j].state.Running? && s.jobs[j].lockedUntil.Some?
             && Idle(s, v, s.jobs[j].kind)
    requires outcome != Success && (Head(s, w).kind in s.runners[w].kinds || outcome.Permanent?)
    ensures Leads(s, steps, done) && TimelyRun(s, steps)
    ensures var j := Head(s, w).id;
            && j in done.jobs && done.jobs[j].state.Done?
            && Enabled(done, Record(w)) && HitsFinished(done, w) && !Do(done, Record(w)).jobs[j].state.Done?
  {
    var j := Head(s, w).id;
    var m;
    steps, m := Extend(s, [], s, Finish(w, outcome));
    var end := s.jobs[j].lockedUntil.value;
    steps, m := Extend(s, steps, m, Advance(if end < s.now then s.now else end));
    steps, done := SecondRunnerCompletes(s, steps, m, v, j);
    assert done.runners[w] == m.runners[w];
  }
}
