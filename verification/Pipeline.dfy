/** The whole delivery path: outbox transactions and job runners over one `jobs` table. */
module Pipeline {
  import opened Keyset
  import opened JobModel
  import Outbox = OutboxRelay
  import Jobs = JobLease

  /** The two protocols share the `jobs` table and the clock. */
  datatype State = State(outbox: Outbox.State, runners: Jobs.State)

  datatype Step =
    | OutboxStep(statement: Outbox.Step)
    | RunnerStep(action: Jobs.Step)

  /** Rows the statement made visible to the runners. */
  function NewRows(before: map<Id, Job>, after: map<Id, Job>): map<Id, Job> {
    map j | j in after && j !in before :: after[j]
  }

  ghost predicate Enabled(s: State, step: Step) {
    match step
    case OutboxStep(o) =>
      && !o.RunnersUpdate? && !o.Advance? && Outbox.Enabled(s.outbox, o)
      && Jobs.Enabled(s.runners, Jobs.Arrive(NewRows(s.outbox.jobs, Outbox.Do(s.outbox, o).jobs)))
    case RunnerStep(r) =>
      && !r.Arrive? && Jobs.Enabled(s.runners, r)
      && Outbox.Enabled(s.outbox, Outbox.RunnersUpdate(Jobs.Do(s.runners, r).jobs))
  }

  ghost function Do(s: State, step: Step): State
    requires Enabled(s, step)
  {
    match step
    case OutboxStep(o) =>
      var after := Outbox.Do(s.outbox, o);
      State(after, Jobs.Do(s.runners, Jobs.Arrive(NewRows(s.outbox.jobs, after.jobs))))
    case RunnerStep(r) =>
      var after := Jobs.Do(s.runners, r);
      State(Outbox.Do(s.outbox, Outbox.RunnersUpdate(after.jobs)).(now := after.now), after)
  }

  ghost predicate Disciplined(s: State, step: Step)
    requires Enabled(s, step)
  {
    step.RunnerStep? ==> Jobs.Disciplined(s.runners, step.action)
  }

  ghost predicate Leads(s: State, steps: seq<Step>, t: State)
    decreases |steps|
  {
    if steps == [] then s == t
    else Enabled(s, steps[0]) && Disciplined(s, steps[0]) && Leads(Do(s, steps[0]), steps[1..], t)
  }

  ghost predicate Initial(s: State) {
    Outbox.Initial(s.outbox) && Jobs.Initial(s.runners) && s.outbox.now == s.runners.now
  }

  ghost predicate Inv(s: State) {
    && Outbox.Inv(s.outbox) && Jobs.Inv(s.runners)
    && s.outbox.jobs == s.runners.jobs && s.outbox.now == s.runners.now
  }

  lemma OutboxAddsNewWork(s: Outbox.State, o: Outbox.Step)
    requires Outbox.Inv(s) && Outbox.Enabled(s, o) && !o.RunnersUpdate?
    ensures var rows := NewRows(s.jobs, Outbox.Do(s, o).jobs);
            Jobs.AllNew(rows) && rows.Keys !! s.jobs.Keys && s.jobs + rows == Outbox.Do(s, o).jobs
  {
    if o.Commit? { assert Outbox.TxOk(s, o.tx); }
  }

  /** Joining the protocols blocks nothing: whatever the outbox commits is new, pending work ... */
  lemma OutboxStepsAreNeverBlocked(s: State, o: Outbox.Step)
    requires Inv(s) && Outbox.Enabled(s.outbox, o) && !o.RunnersUpdate? && !o.Advance?
    ensures Enabled(s, OutboxStep(o))
    ensures Do(s, OutboxStep(o)).outbox.jobs == Do(s, OutboxStep(o)).runners.jobs
  {
    OutboxAddsNewWork(s.outbox, o);
  }

  /** ... and no statement of a runner changes what a job is for. */
  lemma RunnerStepsAreNeverBlocked(s: State, r: Jobs.Step)
    requires Inv(s) && Jobs.Enabled(s.runners, r) && !r.Arrive?
    ensures Enabled(s, RunnerStep(r))
  {
  }

  lemma StepKeepsInv(s: State, step: Step)
    requires Inv(s) && Enabled(s, step) && Disciplined(s, step)
    ensures Inv(Do(s, step))
  {
    match step
    case OutboxStep(o) =>
      Outbox.StepKeepsInv(s.outbox, o);
      Jobs.StepKeepsInv(s.runners, Jobs.Arrive(NewRows(s.outbox.jobs, Outbox.Do(s.outbox, o).jobs)));
      OutboxStepsAreNeverBlocked(s, o);
    case RunnerStep(r) =>
      var update := Outbox.RunnersUpdate(Jobs.Do(s.runners, r).jobs);
      Jobs.StepKeepsInv(s.runners, r);
      Outbox.StepKeepsInv(s.outbox, update);
      var now := Jobs.Do(s.runners, r).now;
      Outbox.StepKeepsInv(Outbox.Do(s.outbox, update), Outbox.Advance(now));
  }

  lemma {:induction false} RunKeepsInv(s: State, steps: seq<Step>, t: State)
    requires Inv(s) && Leads(s, steps, t)
    ensures Inv(t)
    decreases |steps|
  {
    if steps != [] {
      StepKeepsInv(s, steps[0]);
      RunKeepsInv(Do(s, steps[0]), steps[1..], t);
    }
  }

  /** The one job of a relayed event, and how it may end. */
  ghost predicate DeliveredBy(s: State, e: Id, j: Id)
    requires e in s.outbox.events
  {
    && Outbox.JobsOf(s.outbox, e) == {j} && j in s.runners.jobs && j in s.runners.trace
    && var job, trace, event := s.runners.jobs[j], s.runners.trace[j], s.outbox.events[e];
    && job.kind == event.eventType && job.payload == event.payload
    && (job.state.Done? ==> Jobs.WonInsideLease(trace))
    && job.attempts <= Max(1, job.maxAttempts)
    && (trace.expired == 0 ==> trace.runs <= Max(1, job.maxAttempts))
  }

  /** End to end, with relayers, appenders and disciplined runners interleaved in any way: an event has no
      job until it is relayed and exactly one afterwards; that job carries the event's type and payload, is
      Done only after a handler success inside its lease, and without a lost lease runs a bounded number
      of times. */
  lemma EventsAreDeliveredAndHandled(s: State, steps: seq<Step>, t: State, e: Id)
    requires Initial(s) && Leads(s, steps, t) && e in t.outbox.events
    ensures if t.outbox.events[e].relayedAt.None? then Outbox.JobsOf(t.outbox, e) == {}
            else exists j :: DeliveredBy(t, e, j)
  {
    RunKeepsInv(s, steps, t);
    Outbox.InvDeliversOnce(t.outbox, e);
    if t.outbox.events[e].relayedAt.Some? {
      var j :| Outbox.JobsOf(t.outbox, e) == {j}
        && Outbox.Carries(t.outbox.jobs, j, t.outbox.events[e].eventType, t.outbox.events[e].payload);
      assert Jobs.JobOk(t.runners.jobs[j], t.runners.trace[j]);
      assert DeliveredBy(t, e, j);
    }
  }
}
