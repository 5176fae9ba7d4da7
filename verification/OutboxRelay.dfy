/** The transactional outbox: appenders, relayers and the job table, interleaved one SQL statement
    at a time, with row locks and buffered writes until commit, and aborts at any point. */
module OutboxRelay {
  import opened Keyset
  import opened JobModel

  type TxId = int

  datatype EventRow = EventRow(eventType: string, payload: Payload, createdAt: Time, relayedAt: Option<Time>)

  /** The copy of a row that `claim_unrelayed_in_tx` returns. */
  datatype Event = Event(id: Id, eventType: string, payload: Payload)

  datatype Phase = Begun | Claiming | Marked

  /** An open transaction. A relaying one holds row locks on its claimed events; `jobs` are its
      uncommitted inserts and `origin` remembers which event each of them was made for. */
  datatype Tx =
    | Appending(beganAt: Time, events: map<Id, EventRow>)
    | Relaying(beganAt: Time, phase: Phase, claimed: seq<Event>, enqueued: nat, jobs: map<Id, Job>, origin: map<Id, Id>)

  /** Committed tables and open transactions. `origin` (the event each relayed job was made for) and
      `delivered` (events in the order their jobs were enqueued) are history. */
  datatype State = State(
    now: Time, events: map<Id, EventRow>, jobs: map<Id, Job>,
    origin: map<Id, Id>, delivered: seq<Id>, txs: map<TxId, Tx>)

  datatype Step =
    | BeginAppend(tx: TxId)
    | Append(tx: TxId, event: Id, eventType: string, payload: Payload)
    | BeginRelay(tx: TxId)
    | ClaimUnrelayed(tx: TxId, limit: nat, picked: seq<Id>)
    | EnqueueNext(tx: TxId, job: Id, maxAttempts: int, runAt: Time)
    | MarkRelayed(tx: TxId)
    | Commit(tx: TxId)
    | Abort(tx: TxId)                                  // error, rollback, crash or lost connection
    | EnqueueDirectly(job: Id, row: Job)               // a service enqueues without an event
    | RunnersUpdate(jobs: map<Id, Job>)                // any statement of the job runners
    | Advance(to: Time)

  function Ids(events: seq<Event>): seq<Id> {
    seq(|events|, i requires 0 <= i < |events| => events[i].id)
  }

  predicate Holds(tx: Tx, e: Id) {
    tx.Relaying? && e in Ids(tx.claimed)
  }

  predicate Locked(s: State, e: Id) {
    exists t | t in s.txs :: Holds(s.txs[t], e)
  }

  ghost predicate FreshJob(s: State, j: Id) {
    j !in s.jobs && forall t | t in s.txs && s.txs[t].Relaying? :: j !in s.txs[t].jobs
  }

  ghost predicate FreshEvent(s: State, e: Id) {
    e !in s.events && forall t | t in s.txs && s.txs[t].Appending? :: e !in s.txs[t].events
  }

  function EventKey(events: map<Id, EventRow>): Id -> Key {
    e => Key(if e in events then events[e].createdAt else 0, e)
  }

  function Unrelayed(events: map<Id, EventRow>): set<Id> {
    set e | e in events && events[e].relayedAt.None?
  }

  /** `FOR UPDATE SKIP LOCKED`: rows locked by open transactions are passed over. */
  function Claimable(s: State): set<Id> {
    set e | e in Unrelayed(s.events) && !Locked(s, e)
  }

  function Snapshot(events: map<Id, EventRow>, picked: seq<Id>): seq<Event>
    requires forall i | 0 <= i < |picked| :: picked[i] in events
  {
    seq(|picked|, i requires 0 <= i < |picked| => Event(picked[i], events[picked[i]].eventType, events[picked[i]].payload))
  }

  predicate SameWork(a: map<Id, Job>, b: map<Id, Job>) {
    a.Keys == b.Keys && forall j | j in a :: b[j].kind == a[j].kind && b[j].payload == a[j].payload
  }

  ghost predicate Enabled(s: State, step: Step) {
    match step
    case BeginAppend(t) => t !in s.txs
    case Append(t, e, _, _) => t in s.txs && s.txs[t].Appending? && FreshEvent(s, e)
    case BeginRelay(t) => t !in s.txs
    case ClaimUnrelayed(t, limit, picked) =>
      && t in s.txs && s.txs[t].Relaying? && s.txs[t].phase.Begun?
      && picked != []   // an empty claim rolls back
      && IsTop(Ascending, EventKey(s.events), Claimable(s), limit, picked)
    case EnqueueNext(t, j, _, _) =>
      && t in s.txs && s.txs[t].Relaying? && s.txs[t].phase.Claiming?
      && s.txs[t].enqueued < |s.txs[t].claimed| && FreshJob(s, j)
    case MarkRelayed(t) =>
      && t in s.txs && s.txs[t].Relaying? && s.txs[t].phase.Claiming?
      && s.txs[t].enqueued == |s.txs[t].claimed|
    case Commit(t) => t in s.txs && (s.txs[t].Relaying? ==> s.txs[t].phase.Marked?)
    case Abort(t) => t in s.txs
    case EnqueueDirectly(j, row) => FreshJob(s, j) && row.state.Pending? && row.attempts == 0
    case RunnersUpdate(jobs) => SameWork(s.jobs, jobs)
    case Advance(to) => s.now <= to
  }

  function Relayed(events: map<Id, EventRow>, ids: seq<Id>, at: Time): map<Id, EventRow> {
    map e | e in events :: if e in ids then events[e].(relayedAt := Some(at)) else events[e]
  }

  ghost function Do(s: State, step: Step): State
    requires Enabled(s, step)
  {
    match step
    case BeginAppend(t) => s.(txs := s.txs[t := Appending(s.now, map[])])
    case Append(t, e, eventType, payload) =>
      var tx := s.txs[t];
      s.(txs := s.txs[t := tx.(events := tx.events[e := EventRow(eventType, payload, tx.beganAt, None)])])
    case BeginRelay(t) => s.(txs := s.txs[t := Relaying(s.now, Begun, [], 0, map[], map[])])
    case ClaimUnrelayed(t, _, picked) =>
      s.(txs := s.txs[t := s.txs[t].(phase := Claiming, claimed := Snapshot(s.events, picked))])
    case EnqueueNext(t, j, maxAttempts, runAt) =>
      var tx := s.txs[t];
      var e := tx.claimed[tx.enqueued];
      s.(txs := s.txs[t := tx.(enqueued := tx.enqueued + 1,
                               jobs := tx.jobs[j := NewJob(e.eventType, e.payload, maxAttempts, runAt)],
                               origin := tx.origin[j := e.id])])
    case MarkRelayed(t) => s.(txs := s.txs[t := s.txs[t].(phase := Marked)])
    case Commit(t) =>
      (match s.txs[t]
       case Appending(_, events) => s.(events := s.events + events, txs := s.txs - {t})
       case Relaying(beganAt, _, claimed, _, jobs, origin) =>
         s.(events := Relayed(s.events, Ids(claimed), beganAt), jobs := s.jobs + jobs,
            origin := s.origin + origin, delivered := s.delivered + Ids(claimed), txs := s.txs - {t}))
    case Abort(t) => s.(txs := s.txs - {t})
    case EnqueueDirectly(j, row) => s.(jobs := s.jobs[j := row])
    case RunnersUpdate(jobs) => s.(jobs := jobs)
    case Advance(to) => s.(now := to)
  }

  ghost predicate Leads(s: State, steps: seq<Step>, t: State)
    decreases |steps|
  {
    if steps == [] then s == t
    else Enabled(s, steps[0]) && Leads(Do(s, steps[0]), steps[1..], t)
  }

  predicate Initial(s: State) {
    s.events == map[] && s.jobs == map[] && s.origin == map[] && s.delivered == [] && s.txs == map[]
  }

  // ---- exactly one job per relayed event --------------------------------------

  function JobsOf(s: State, e: Id): set<Id> {
    set j | j in s.origin && s.origin[j] == e
  }

  predicate Carries(jobs: map<Id, Job>, j: Id, eventType: string, payload: Payload) {
    j in jobs && jobs[j].kind == eventType && jobs[j].payload == payload
  }

  /** The promise of the outbox, for one committed event. */
  ghost predicate DeliveredOnce(s: State, e: Id)
    requires e in s.events
  {
    if s.events[e].relayedAt.None? then JobsOf(s, e) == {}
    else exists j :: JobsOf(s, e) == {j} && Carries(s.jobs, j, s.events[e].eventType, s.events[e].payload)
  }

  predicate Injective(m: map<Id, Id>) {
    forall i, j | i in m && j in m && m[i] == m[j] :: i == j
  }

  ghost predicate Covers(m: map<Id, Id>, e: Id) {
    exists j :: j in m && m[j] == e
  }

  predicate Distinct(ids: seq<Id>) {
    forall i, k | 0 <= i < k < |ids| :: ids[i] != ids[k]
  }

  predicate Pristine(events: map<Id, EventRow>, e: Event) {
    e.id in events && events[e.id] == EventRow(e.eventType, e.payload, events[e.id].createdAt, None)
  }

  ghost predicate RelayOk(s: State, tx: Tx)
    requires tx.Relaying?
  {
    && Distinct(Ids(tx.claimed)) && tx.enqueued <= |tx.claimed|
    && (tx.phase.Begun? ==> tx.claimed == []) && (tx.phase.Marked? ==> tx.enqueued == |tx.claimed|)
    && (forall i | 0 <= i < |tx.claimed| :: Pristine(s.events, tx.claimed[i]))
    && tx.jobs.Keys !! s.jobs.Keys && tx.origin.Keys == tx.jobs.Keys && Injective(tx.origin)
    && (forall j | j in tx.origin :: tx.origin[j] in Ids(tx.claimed)[..tx.enqueued]
          && Carries(tx.jobs, j, s.events[tx.origin[j]].eventType, s.events[tx.origin[j]].payload))
    && (forall e <- Ids(tx.claimed)[..tx.enqueued] :: Covers(tx.origin, e))
    && (forall j | j in tx.jobs :: tx.jobs[j].state.Pending? && tx.jobs[j].attempts == 0)
  }

  ghost predicate AppendOk(s: State, tx: Tx)
    requires tx.Appending?
  {
    tx.events.Keys !! s.events.Keys && forall e | e in tx.events :: tx.events[e].relayedAt.None?
  }

  ghost predicate TxOk(s: State, t: TxId)
    requires t in s.txs
  {
    if s.txs[t].Relaying? then RelayOk(s, s.txs[t]) else AppendOk(s, s.txs[t])
  }

  ghost predicate Apart(a: Tx, b: Tx) {
    && (a.Relaying? && b.Relaying? ==> a.jobs.Keys !! b.jobs.Keys && forall e <- Ids(a.claimed) :: e !in Ids(b.claimed))
    && (a.Appending? && b.Appending? ==> a.events.Keys !! b.events.Keys)
  }

  /** Every relayed job stands for one relayed event and carries it. */
  ghost predicate OriginsOk(s: State) {
    && s.origin.Keys <= s.jobs.Keys && Injective(s.origin)
    && (forall j | j in s.origin :: s.origin[j] in s.events && s.events[s.origin[j]].relayedAt.Some?
          && Carries(s.jobs, j, s.events[s.origin[j]].eventType, s.events[s.origin[j]].payload))
  }

  /** Events are enqueued once each, and exactly the relayed ones. */
  ghost predicate DeliveriesOk(s: State) {
    && Distinct(s.delivered)
    && (forall e <- s.delivered :: e in s.events && s.events[e].relayedAt.Some?)
    && (forall e | e in s.events && s.events[e].relayedAt.Some? :: e in s.delivered)
  }

  ghost predicate Committed(s: State) {
    && OriginsOk(s) && DeliveriesOk(s)
    && (forall e | e in s.events && s.events[e].relayedAt.Some? :: Covers(s.origin, e))
  }

  ghost predicate Inv(s: State) {
    && Committed(s)
    && (forall t | t in s.txs :: TxOk(s, t))
    && (forall t, u | t in s.txs && u in s.txs && t != u :: Apart(s.txs[t], s.txs[u]))
  }

  lemma RelayCommitKeepsOrigins(s: State, t: TxId)
    requires Committed(s) && t in s.txs && TxOk(s, t) && Enabled(s, Commit(t)) && s.txs[t].Relaying?
    ensures OriginsOk(Do(s, Commit(t)))
  {
    var tx := s.txs[t];
    assert Ids(tx.claimed)[..tx.enqueued] == Ids(tx.claimed);
  }

  lemma RelayCommitKeepsDeliveries(s: State, t: TxId)
    requires Committed(s) && t in s.txs && TxOk(s, t) && Enabled(s, Commit(t)) && s.txs[t].Relaying?
    ensures DeliveriesOk(Do(s, Commit(t)))
  {
    var claimed := s.txs[t].claimed;
    assert forall i | 0 <= i < |claimed| :: Pristine(s.events, claimed[i]) && Ids(claimed)[i] == claimed[i].id;
  }

  lemma RelayCommitKeepsCover(s: State, t: TxId)
    requires Committed(s) && t in s.txs && TxOk(s, t) && Enabled(s, Commit(t)) && s.txs[t].Relaying?
    ensures var u := Do(s, Commit(t)); forall e | e in u.events && u.events[e].relayedAt.Some? :: Covers(u.origin, e)
  {
    var tx, u := s.txs[t], Do(s, Commit(t));
    var ids := Ids(tx.claimed);
    assert ids[..tx.enqueued] == ids;
    forall e | e in u.events && u.events[e].relayedAt.Some? ensures Covers(u.origin, e) {
      if e in ids {
        var j :| j in tx.origin && tx.origin[j] == e;
        assert u.origin[j] == e;
      } else {
        var j :| j in s.origin && s.origin[j] == e;
        assert u.origin[j] == e;
      }
    }
  }

  lemma CommitKeepsInv(s: State, t: TxId)
    requires Inv(s) && Enabled(s, Commit(t))
    ensures Inv(Do(s, Commit(t)))
  {
    var u := Do(s, Commit(t));
    assert TxOk(s, t);
    if s.txs[t].Relaying? {
      RelayCommitKeepsOrigins(s, t);
      RelayCommitKeepsDeliveries(s, t);
      RelayCommitKeepsCover(s, t);
    }
    forall v | v in u.txs ensures TxOk(u, v) {
      assert TxOk(s, v) && Apart(s.txs[t], s.txs[v]);
      if s.txs[t].Relaying? && s.txs[v].Relaying? {
        var others := Ids(s.txs[v].claimed);
        assert forall i | 0 <= i < |others| :: others[i] == s.txs[v].claimed[i].id && others[i] in others;
      }
    }
  }

  lemma EnqueuedTxIsOk(s: State, tx: Tx, j: Id, row: Job, tx': Tx)
    requires tx.Relaying? && RelayOk(s, tx) && tx.phase.Claiming? && tx.enqueued < |tx.claimed|
    requires j !in s.jobs && j !in tx.jobs
    requires row.state.Pending? && row.attempts == 0
    requires row.kind == tx.claimed[tx.enqueued].eventType && row.payload == tx.claimed[tx.enqueued].payload
    requires tx' == tx.(enqueued := tx.enqueued + 1, jobs := tx.jobs[j := row],
                        origin := tx.origin[j := tx.claimed[tx.enqueued].id])
    ensures RelayOk(s, tx')
  {
    var ids, next := Ids(tx.claimed), tx.claimed[tx.enqueued];
    assert ids[..tx'.enqueued] == ids[..tx.enqueued] + [next.id];
    assert Pristine(s.events, next) && ids[tx.enqueued] == next.id;
    forall e <- ids[..tx'.enqueued] ensures Covers(tx'.origin, e) {
      if e in ids[..tx.enqueued] {
        var i :| i in tx.origin && tx.origin[i] == e;
        assert tx'.origin[i] == e;
      } else {
        assert tx'.origin[j] == e;
      }
    }
    assert next.id !in ids[..tx.enqueued];
  }

  lemma EnqueueKeepsInv(s: State, t: TxId, j: Id, maxAttempts: int, runAt: Time)
    requires Inv(s) && Enabled(s, EnqueueNext(t, j, maxAttempts, runAt))
    ensures Inv(Do(s, EnqueueNext(t, j, maxAttempts, runAt)))
  {
    var u := Do(s, EnqueueNext(t, j, maxAttempts, runAt));
    assert TxOk(s, t);
    EnqueuedTxIsOk(s, s.txs[t], j, u.txs[t].jobs[j], u.txs[t]);
    forall v | v in u.txs ensures TxOk(u, v) { assert TxOk(s, v); }
    EnqueueKeepsApart(s, t, j, maxAttempts, runAt);
  }

  lemma EnqueueKeepsApart(s: State, t: TxId, j: Id, maxAttempts: int, runAt: Time)
    requires Inv(s) && Enabled(s, EnqueueNext(t, j, maxAttempts, runAt))
    ensures var u := Do(s, EnqueueNext(t, j, maxAttempts, runAt));
            forall v, w | v in u.txs && w in u.txs && v != w :: Apart(u.txs[v], u.txs[w])
  {
    var u := Do(s, EnqueueNext(t, j, maxAttempts, runAt));
    forall v, w | v in u.txs && w in u.txs && v != w ensures Apart(u.txs[v], u.txs[w]) {
      assert Apart(s.txs[v], s.txs[w]);
    }
  }

  lemma ClaimKeepsInv(s: State, t: TxId, limit: nat, picked: seq<Id>)
    requires Inv(s) && Enabled(s, ClaimUnrelayed(t, limit, picked))
    ensures Inv(Do(s, ClaimUnrelayed(t, limit, picked)))
  {
    var u := Do(s, ClaimUnrelayed(t, limit, picked));
    assert Ids(u.txs[t].claimed) == picked;
    assert TxOk(s, t);
    forall v | v in u.txs ensures TxOk(u, v) { assert TxOk(s, v); }
    forall v | v in u.txs && v != t ensures Apart(u.txs[t], u.txs[v]) && Apart(u.txs[v], u.txs[t]) {
      assert Apart(s.txs[t], s.txs[v]);
      forall e <- picked ensures !Holds(s.txs[v], e) { assert e in Claimable(s); }
    }
  }

  lemma QuietStepKeepsTables(s: State, step: Step)
    requires Inv(s) && Enabled(s, step)
    requires !step.ClaimUnrelayed? && !step.EnqueueNext? && !step.Commit?
    ensures Committed(Do(s, step))
  {
  }

  lemma QuietStepKeepsApart(s: State, step: Step)
    requires Inv(s) && Enabled(s, step)
    requires !step.ClaimUnrelayed? && !step.EnqueueNext? && !step.Commit?
    ensures var u := Do(s, step);
            forall v, w | v in u.txs && w in u.txs && v != w :: Apart(u.txs[v], u.txs[w])
  {
    var u := Do(s, step);
    forall v, w | v in u.txs && w in u.txs && v != w ensures Apart(u.txs[v], u.txs[w]) {
      if v in s.txs && w in s.txs { assert Apart(s.txs[v], s.txs[w]); }
    }
  }

  lemma QuietStepKeepsInv(s: State, step: Step)
    requires Inv(s) && Enabled(s, step)
    requires !step.ClaimUnrelayed? && !step.EnqueueNext? && !step.Commit?
    ensures Inv(Do(s, step))
  {
    var u := Do(s, step);
    QuietStepKeepsTables(s, step);
    forall v | v in u.txs ensures TxOk(u, v) {
      if v in s.txs { assert TxOk(s, v); }
    }
    QuietStepKeepsApart(s, step);
  }

  lemma StepKeepsInv(s: State, step: Step)
    requires Inv(s) && Enabled(s, step)
    ensures Inv(Do(s, step))
  {
    match step
    case ClaimUnrelayed(t, limit, picked) => ClaimKeepsInv(s, t, limit, picked);
    case EnqueueNext(t, j, maxAttempts, runAt) => EnqueueKeepsInv(s, t, j, maxAttempts, runAt);
    case Commit(t) => CommitKeepsInv(s, t);
    case _ => QuietStepKeepsInv(s, step);
  }

  /** A committed append is there as it was made, and takes nothing away. */
  lemma AppendedEventIsStored(s: State, t: TxId, e: Id, eventType: string, payload: Payload)
    requires Inv(s) && Enabled(s, Append(t, e, eventType, payload))
    ensures var m := Do(s, Append(t, e, eventType, payload));
            && m.events == s.events && Enabled(m, Commit(t))
            && var u := Do(m, Commit(t));
            && e in u.events && u.events[e].eventType == eventType && u.events[e].payload == payload
            && u.events[e].createdAt == s.txs[t].beganAt && u.events[e].relayedAt == None
            && u.jobs == s.jobs && forall x | x in s.events :: x in u.events && u.events[x] == s.events[x]
  {
    assert TxOk(s, t);
  }

  /** An aborted transaction leaves the tables alone and gives up its claims. */
  lemma AbortLeavesTables(s: State, t: TxId, e: Id)
    requires Inv(s) && Enabled(s, Abort(t))
    ensures var u := Do(s, Abort(t));
            && u.events == s.events && u.jobs == s.jobs && u.delivered == s.delivered && t !in u.txs
            && (Holds(s.txs[t], e) ==> !Locked(u, e))
  {
    var u := Do(s, Abort(t));
    forall v | v in u.txs && Holds(s.txs[t], e) ensures !Holds(u.txs[v], e) {
      assert Apart(s.txs[t], s.txs[v]);
    }
  }

  lemma InvDeliversOnce(s: State, e: Id)
    requires Committed(s) && e in s.events
    ensures DeliveredOnce(s, e)
  {
    if s.events[e].relayedAt.Some? {
      assert Covers(s.origin, e);
      var j :| j in s.origin && s.origin[j] == e;
      assert j in JobsOf(s, e);
      forall k | k in JobsOf(s, e) ensures k == j { assert s.origin[k] == s.origin[j]; }
      assert JobsOf(s, e) == {j};
    } else {
      forall j ensures j !in JobsOf(s, e) { assert j in s.origin ==> s.origin[j] in s.events; }
      assert JobsOf(s, e) == {};
    }
  }

  lemma {:induction false} RunKeepsInv(s: State, steps: seq<Step>, t: State)
    requires Inv(s) && Leads(s, steps, t)
    ensures Inv(t)
    decreases |steps|
  {
    if steps != [] {
      StepKeepsInv(s, steps[0]);
      RunKeepsInv(Do(s, steps[0]), steps[1..], t);
    }
  }

  /** Any number of relayers and appenders, any interleaving, aborts anywhere: every committed event has
      exactly one job, of its type and payload, once it is relayed, and none before; no job claims an event
      that is not there; and no event is enqueued twice. */
  lemma EveryEventIsDeliveredOnce(s: State, steps: seq<Step>, t: State)
    requires Initial(s) && Leads(s, steps, t)
    ensures forall e | e in t.events :: DeliveredOnce(t, e)
    ensures forall j | j in t.origin :: j in t.jobs && t.origin[j] in t.events && t.events[t.origin[j]].relayedAt.Some?
    ensures Distinct(t.delivered) && forall e | e in t.events :: e in t.delivered <==> t.events[e].relayedAt.Some?
  {
    RunKeepsInv(s, steps, t);
    forall e | e in t.events ensures DeliveredOnce(t, e) { InvDeliversOnce(t, e); }
  }

  lemma {:induction false} LeadsOneMore(s: State, steps: seq<Step>, m: State, step: Step)
    requires Leads(s, steps, m) && Enabled(m, step)
    ensures Leads(s, steps + [step], Do(m, step))
    decreases |steps|
  {
    if steps == [] {
      assert Leads(Do(m, step), [], Do(m, step));
    } else {
      assert (steps + [step])[1..] == steps[1..] + [step];
      LeadsOneMore(Do(s, steps[0]), steps[1..], m, step);
    }
  }

  lemma Extend(s: State, steps: seq<Step>, m: State, step: Step, t: State) returns (longer: seq<Step>)
    requires Leads(s, steps, m) && Enabled(m, step) && t == Do(m, step)
    ensures Leads(s, longer, t)
  {
    LeadsOneMore(s, steps, m, step);
    longer := steps + [step];
  }
}
