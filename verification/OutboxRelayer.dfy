/** The relayer's loop over the outbox repository, updating the tables in place. Every statement is a
    step of `OutboxRelay`; a relayer working alone drains the outbox in order. */
module OutboxRelayer {
  import opened Counting
  import opened Keyset
  import opened JobModel
  import opened OutboxRelay

  /** A row as it is first stored. */
  function FreshRow(kind: string, payload: Payload, maxAttempts: int, runAt: Time): Job {
    Job(kind := kind, payload := payload, state := Pending, attempts := 0, maxAttempts := maxAttempts, runAt := runAt,
        lockedUntil := None, lockedBy := None, lastError := None)
  }

  /** `after` holds the rows of `before` and one fresh job per event of `ids`, in their order. */
  ghost predicate AddsJobs(before: map<Id, Job>, after: map<Id, Job>, made: seq<Id>, ids: seq<Id>,
                           events: map<Id, EventRow>, maxAttempts: int, runAt: Time) {
    && |made| == |ids| && Distinct(made) && (forall i | 0 <= i < |made| :: made[i] !in before)
    && (forall j :: j in after <==> j in before || j in made)
    && (forall j | j in before && j in after :: after[j] == before[j])
    && (forall i | 0 <= i < |made| ::
          && ids[i] in events && made[i] in after
          && var job, event := after[made[i]], events[ids[i]];
          && job.kind == event.eventType && job.payload == event.payload
          && job.maxAttempts == maxAttempts && job.runAt == runAt
          && job.state == Pending && job.attempts == 0
          && job.lockedUntil == None && job.lockedBy == None && job.lastError == None)
  }

  class Database {
    var now: Time
    var events: map<Id, EventRow>
    var jobs: map<Id, Job>
    var txs: map<TxId, Tx>
    var nextId: Id             // time-ordered identifiers never repeat
    var origin: map<Id, Id>
    var delivered: seq<Id>

    constructor (now: Time)
      ensures Valid() && Initial(View()) && this.now == now
    {
      this.now := now;
      events, jobs, txs, nextId, origin, delivered := map[], map[], map[], 0, map[], [];
    }

    function View(): State
      reads this
    {
      State(now, events, jobs, origin, delivered, txs)
    }

    ghost predicate Valid()
      reads this
    {
      && (forall j | j in jobs :: j < nextId)
      && (forall t | t in txs :: t < nextId && (txs[t].Relaying? ==> forall j | j in txs[t].jobs :: j < nextId))
    }

    method Begin() returns (t: TxId)
      requires Valid()
      modifies this
      ensures Valid() && Enabled(old(View()), BeginRelay(t)) && View() == Do(old(View()), BeginRelay(t))
    {
      t := nextId;
      nextId := nextId + 1;
      txs := txs[t := Relaying(now, Begun, [], 0, map[], map[])];
    }

    method ClaimUnrelayedInTx(t: TxId, limit: nat) returns (claimed: seq<Event>, ghost picked: seq<Id>)
      requires Valid() && t in txs && txs[t].Relaying? && txs[t].phase.Begun?
      modifies this
      ensures Valid() && IsTop(Ascending, EventKey(old(events)), Claimable(old(View())), limit, picked)
      ensures forall i | 0 <= i < |picked| :: picked[i] in old(events)
      ensures claimed == Snapshot(old(events), picked)
      ensures FirstInLine(old(View()), limit, picked)
      ensures View() == if picked == [] then old(View()) else Do(old(View()), ClaimUnrelayed(t, limit, picked))
    {
      var ids := OrderByLimit(Ascending, EventKey(events), Claimable(View()), limit);
      claimed, picked := Snapshot(events, ids), ids;
      TopIsFirstInLine(View(), limit, ids);
      if ids != [] {
        txs := txs[t := txs[t].(phase := Claiming, claimed := claimed)];
      }
    }

    /** Inserts a pending job for the next claimed event. */
    method EnqueueInTx(t: TxId, kind: string, payload: Payload, maxAttempts: int, runAt: Time) returns (j: Id)
      requires Valid() && t in txs && txs[t].Relaying? && txs[t].phase.Claiming? && txs[t].enqueued < |txs[t].claimed|
      requires kind == txs[t].claimed[txs[t].enqueued].eventType && payload == txs[t].claimed[txs[t].enqueued].payload
      modifies this
      ensures Valid() && Enabled(old(View()), EnqueueNext(t, j, maxAttempts, runAt))
      ensures View() == Do(old(View()), EnqueueNext(t, j, maxAttempts, runAt))
      ensures j !in old(jobs) && j !in old(txs[t].jobs) && t in txs && txs[t].Relaying?
      ensures txs[t].jobs == old(txs[t].jobs)[j := FreshRow(kind, payload, maxAttempts, runAt)]
    {
      j := nextId;
      nextId := nextId + 1;
      var tx := txs[t];
      txs := txs[t := tx.(enqueued := tx.enqueued + 1,
                          jobs := tx.jobs[j := NewJob(kind, payload, maxAttempts, runAt)],
                          origin := tx.origin[j := tx.claimed[tx.enqueued].id])];
    }

    method MarkRelayedInTx(t: TxId, ids: seq<Id>)
      requires Valid() && Enabled(View(), MarkRelayed(t)) && ids == Ids(txs[t].claimed)
      modifies this
      ensures Valid() && View() == Do(old(View()), MarkRelayed(t))
    {
      txs := txs[t := txs[t].(phase := Marked)];
    }

    method CommitTx(t: TxId)
      requires Valid() && t in txs && txs[t].Relaying? && txs[t].phase.Marked?
      modifies this
      ensures Valid() && View() == Do(old(View()), Commit(t))
    {
      var tx := txs[t];
      events := Relayed(events, Ids(tx.claimed), tx.beganAt);
      jobs := jobs + tx.jobs;
      origin := origin + tx.origin;
      delivered := delivered + Ids(tx.claimed);
      txs := txs - {t};
    }

    method RollbackTx(t: TxId)
      requires Valid() && t in txs
      modifies this
      ensures Valid() && View() == Do(old(View()), Abort(t))
    {
      txs := txs - {t};
    }
  }

  /** The uncommitted rows are one fresh job per claimed event, in their order. */
  ghost predicate Inserts(committed: map<Id, Job>, rows: map<Id, Job>, made: seq<Id>, claimed: seq<Event>, maxAttempts: int, runAt: Time) {
    && |made| == |claimed| && Distinct(made) && (forall j :: j in rows <==> j in made)
    && (forall i | 0 <= i < |made| ::
          && made[i] in rows && made[i] !in committed
          && rows[made[i]] == FreshRow(claimed[i].eventType, claimed[i].payload, maxAttempts, runAt))
  }

  lemma OneMoreInsert(committed: map<Id, Job>, rows: map<Id, Job>, made: seq<Id>, claimed: seq<Event>, e: Event, j: Id,
                      maxAttempts: int, runAt: Time)
    requires Inserts(committed, rows, made, claimed, maxAttempts, runAt) && j !in rows && j !in committed
    ensures Inserts(committed, rows[j := FreshRow(e.eventType, e.payload, maxAttempts, runAt)], made + [j], claimed + [e],
                    maxAttempts, runAt)
  {
  }

  lemma InsertsAreAdded(committed: map<Id, Job>, rows: map<Id, Job>, made: seq<Id>, ids: seq<Id>, events: map<Id, EventRow>,
                        maxAttempts: int, runAt: Time)
    requires forall i | 0 <= i < |ids| :: ids[i] in events
    requires Inserts(committed, rows, made, Snapshot(events, ids), maxAttempts, runAt)
    ensures AddsJobs(committed, committed + rows, made, ids, events, maxAttempts, runAt)
  {
  }

  /** The rows claimed are the oldest pending ones that no other transaction holds: by creation instant, then by
      identifier; fewer than `limit` only when there are no more. */
  ghost predicate FirstInLine(s: State, limit: nat, ids: seq<Id>) {
    && |ids| <= limit
    && (forall i | 0 <= i < |ids| :: ids[i] in s.events && s.events[ids[i]].relayedAt == None && !Locked(s, ids[i]))
    && (forall i, k | 0 <= i < k < |ids| :: Older(s.events, ids[i], ids[k]))
    && (forall e | e in s.events && s.events[e].relayedAt == None && !Locked(s, e) && e !in ids ::
          |ids| == limit && forall i | 0 <= i < |ids| :: Older(s.events, ids[i], e))
  }

  predicate Older(events: map<Id, EventRow>, a: Id, b: Id) {
    && a in events && b in events
    && (events[a].createdAt < events[b].createdAt || (events[a].createdAt == events[b].createdAt && a < b))
  }

  lemma TopIsFirstInLine(s: State, limit: nat, ids: seq<Id>)
    requires IsTop(Ascending, EventKey(s.events), Claimable(s), limit, ids)
    ensures FirstInLine(s, limit, ids)
  {
    forall i | 0 <= i < |ids| ensures ids[i] in s.events && s.events[ids[i]].relayedAt == None && !Locked(s, ids[i]) {
      assert ids[i] in Claimable(s);
    }
    forall e | e in s.events && s.events[e].relayedAt == None && !Locked(s, e) ensures e in Claimable(s) {
      assert e in Unrelayed(s.events);
    }
  }

  /** Opening a transaction that holds nothing changes nothing for the claim. */
  lemma SameLine(s: State, m: State, limit: nat, ids: seq<Id>)
    requires FirstInLine(m, limit, ids) && m.events == s.events && forall e :: Locked(m, e) <==> Locked(s, e)
    ensures FirstInLine(s, limit, ids)
  {
  }

  class OutboxRelayer {
    const db: Database
    const batchSize: nat
    const jobMaxAttempts: int

    constructor (db: Database, batchSize: nat, jobMaxAttempts: int)
      ensures this.db == db && this.batchSize == batchSize && this.jobMaxAttempts == jobMaxAttempts
    {
      this.db, this.batchSize, this.jobMaxAttempts := db, batchSize, jobMaxAttempts;
    }

    /** Relays one batch: the first claimable events, in order, each enqueued and marked in one
        transaction. `steps` is the run of the step machine the call performs. */
    method Tick() returns (relayed: nat, ghost ids: seq<Id>, ghost made: seq<Id>, ghost steps: seq<Step>)
      requires db.Valid()
      modifies db
      ensures db.Valid() && Leads(old(db.View()), steps, db.View())
      ensures IsTop(Ascending, EventKey(old(db.events)), Claimable(old(db.View())), batchSize, ids)
      ensures relayed == |ids| && FirstInLine(old(db.View()), batchSize, ids)
      ensures AddsJobs(old(db.jobs), db.jobs, made, ids, old(db.events), jobMaxAttempts, db.now)
      ensures db.events == Relayed(old(db.events), ids, db.now) && db.delivered == old(db.delivered) + ids
      ensures db.events.Keys == old(db.events).Keys
      ensures forall e | e in db.events ::
                db.events[e] == if e in ids then old(db.events)[e].(relayedAt := Some(db.now)) else old(db.events)[e]
      ensures db.txs == old(db.txs) && db.now == old(db.now)
    {
      ghost var s := db.View();
      made := [];
      var t, claimed;
      t, claimed, ids, steps := OpenBatch();
      if claimed == [] {
        ghost var m := db.View();
        db.RollbackTx(t);
        steps := Extend(s, steps, m, Abort(t), db.View());
        assert db.txs == s.txs && db.events == Relayed(s.events, [], db.now);
        return 0, ids, made, steps;
      }
      made, steps := RelayClaimed(t, claimed, ids, s, s.events, steps);
      assert db.txs == s.txs;
      relayed := |claimed|;
    }

    /** The rest of `Tick` once there is something to relay: enqueue, mark and commit. */
    method RelayClaimed(t: TxId, claimed: seq<Event>, ghost ids: seq<Id>, ghost s: State, ghost events: map<Id, EventRow>,
                        ghost before: seq<Step>)
      returns (ghost made: seq<Id>, ghost steps: seq<Step>)
      requires db.Valid() && Leads(s, before, db.View())
      requires t in db.txs && db.txs[t].Relaying? && db.txs[t].phase.Claiming?
      requires db.txs[t].claimed == claimed && db.txs[t].enqueued == 0 && db.txs[t].jobs == map[]
      requires (forall i | 0 <= i < |ids| :: ids[i] in events) && claimed == Snapshot(events, ids)
      modifies db
      ensures db.Valid() && Leads(s, steps, db.View())
      ensures AddsJobs(old(db.jobs), db.jobs, made, ids, events, jobMaxAttempts, db.now)
      ensures db.events == Relayed(old(db.events), ids, old(db.txs[t].beganAt))
      ensures db.delivered == old(db.delivered) + ids && db.txs == old(db.txs) - {t} && db.now == old(db.now)
    {
      ghost var committed := db.jobs;
      made, steps := EnqueueAll(t, claimed, s, before);
      ghost var rows := db.txs[t].jobs;
      steps := CloseBatch(t, claimed, s, steps);
      assert Ids(claimed) == ids;
      InsertsAreAdded(committed, rows, made, ids, events, jobMaxAttempts, db.now);
    }

    /** The first two statements of `Tick`: begin and claim. */
    method OpenBatch() returns (t: TxId, claimed: seq<Event>, ghost ids: seq<Id>, ghost steps: seq<Step>)
      requires db.Valid()
      modifies db
      ensures db.Valid() && Leads(old(db.View()), steps, db.View())
      ensures IsTop(Ascending, EventKey(old(db.events)), Claimable(old(db.View())), batchSize, ids)
      ensures |claimed| == |ids| && Ids(claimed) == ids
      ensures t !in old(db.txs) && t in db.txs && db.txs == old(db.txs)[t := db.txs[t]]
      ensures db.View() == old(db.View()).(txs := db.txs)
      ensures db.txs[t].Relaying? && db.txs[t].beganAt == db.now && db.txs[t].claimed == claimed
      ensures claimed != [] ==> db.txs[t].phase.Claiming? && db.txs[t].enqueued == 0 && db.txs[t].jobs == map[]
      ensures FirstInLine(old(db.View()), batchSize, ids)
      ensures (forall i | 0 <= i < |ids| :: ids[i] in old(db.events)) && claimed == Snapshot(old(db.events), ids)
    {
      ghost var s := db.View();
      t := db.Begin();
      ghost var m := db.View();
      steps := Extend(s, [], s, BeginRelay(t), m);
      ClaimableIgnoresEmptyTx(s, t);
      claimed, ids := db.ClaimUnrelayedInTx(t, batchSize);
      SameLine(s, m, batchSize, ids);
      if claimed != [] {
        steps := Extend(s, steps, m, ClaimUnrelayed(t, batchSize, ids), db.View());
      }
    }

    /** The last two statements of `Tick`: mark and commit. */
    method CloseBatch(t: TxId, claimed: seq<Event>, ghost s: State, ghost before: seq<Step>) returns (ghost steps: seq<Step>)
      requires db.Valid() && Leads(s, before, db.View())
      requires t in db.txs && db.txs[t].Relaying? && db.txs[t].phase.Claiming?
      requires db.txs[t].claimed == claimed && db.txs[t].enqueued == |claimed|
      modifies db
      ensures db.Valid() && Leads(s, steps, db.View())
      ensures db.events == Relayed(old(db.events), Ids(claimed), old(db.txs[t].beganAt))
      ensures db.delivered == old(db.delivered) + Ids(claimed) && db.txs == old(db.txs) - {t} && db.now == old(db.now)
      ensures db.jobs == old(db.jobs) + old(db.txs[t].jobs)
    {
      ghost var m := db.View();
      db.MarkRelayedInTx(t, Ids(claimed));
      steps := Extend(s, before, m, MarkRelayed(t), db.View());
      m := db.View();
      db.CommitTx(t);
      steps := Extend(s, steps, m, Commit(t), db.View());
      assert db.txs == old(db.txs) - {t};
    }

    /** The enqueue loop of `Tick`, inside its open transaction. */
    method EnqueueAll(t: TxId, claimed: seq<Event>, ghost s: State, ghost before: seq<Step>)
      returns (ghost made: seq<Id>, ghost steps: seq<Step>)
      requires db.Valid() && Leads(s, before, db.View())
      requires t in db.txs && db.txs[t].Relaying? && db.txs[t].phase.Claiming?
      requires db.txs[t].claimed == claimed && db.txs[t].enqueued == 0 && db.txs[t].jobs == map[]
      modifies db
      ensures db.Valid() && Leads(s, steps, db.View())
      ensures t in db.txs && db.txs == old(db.txs)[t := db.txs[t]] && db.View() == old(db.View()).(txs := db.txs)
      ensures db.txs[t].Relaying? && db.txs[t].phase.Claiming? && db.txs[t].beganAt == old(db.txs[t].beganAt)
      ensures db.txs[t].claimed == claimed && db.txs[t].enqueued == |claimed|
      ensures Inserts(db.jobs, db.txs[t].jobs, made, claimed, jobMaxAttempts, db.now)
    {
      steps, made := before, [];
      for i := 0 to |claimed|
        invariant db.Valid() && Leads(s, steps, db.View())
        invariant t in db.txs && db.txs == old(db.txs)[t := db.txs[t]] && db.View() == old(db.View()).(txs := db.txs)
        invariant db.txs[t].Relaying? && db.txs[t].phase.Claiming? && db.txs[t].beganAt == old(db.txs[t].beganAt)
        invariant db.txs[t].claimed == claimed && db.txs[t].enqueued == i
        invariant Inserts(db.jobs, db.txs[t].jobs, made, claimed[..i], jobMaxAttempts, db.now)
      {
        made, steps := EnqueueOne(t, claimed, i, s, steps, made);
      }
      assert claimed[..|claimed|] == claimed;
    }

    /** One turn of `EnqueueAll`. */
    method EnqueueOne(t: TxId, claimed: seq<Event>, i: nat, ghost s: State, ghost before: seq<Step>, ghost made: seq<Id>)
      returns (ghost more: seq<Id>, ghost steps: seq<Step>)
      requires db.Valid() && Leads(s, before, db.View()) && i < |claimed|
      requires t in db.txs && db.txs[t].Relaying? && db.txs[t].phase.Claiming?
      requires db.txs[t].claimed == claimed && db.txs[t].enqueued == i
      requires Inserts(db.jobs, db.txs[t].jobs, made, claimed[..i], jobMaxAttempts, db.now)
      modifies db
      ensures db.Valid() && Leads(s, steps, db.View())
      ensures t in db.txs && db.txs == old(db.txs)[t := db.txs[t]] && db.View() == old(db.View()).(txs := db.txs)
      ensures db.txs[t].Relaying? && db.txs[t].phase.Claiming? && db.txs[t].beganAt == old(db.txs[t].beganAt)
      ensures db.txs[t].claimed == claimed && db.txs[t].enqueued == i + 1
      ensures Inserts(db.jobs, db.txs[t].jobs, more, claimed[..i + 1], jobMaxAttempts, db.now)
    {
      ghost var m, rows := db.View(), db.txs[t].jobs;
      var j := db.EnqueueInTx(t, claimed[i].eventType, claimed[i].payload, jobMaxAttempts, db.now);
      steps := Extend(s, before, m, EnqueueNext(t, j, jobMaxAttempts, m.now), db.View());
      assert claimed[..i + 1] == claimed[..i] + [claimed[i]];
      OneMoreInsert(db.jobs, rows, made, claimed[..i], claimed[i], j, jobMaxAttempts, db.now);
      more := made + [j];
    }

    /** What `Drain` needs of `Tick`. */
    method TickInOrder() returns (relayed: nat, ghost ids: seq<Id>)
      requires db.Valid()
      modifies db
      ensures db.Valid()
      ensures IsTop(Ascending, EventKey(old(db.events)), Claimable(old(db.View())), batchSize, ids)
      ensures relayed == |ids|
      ensures db.events == Relayed(old(db.events), ids, db.now) && db.delivered == old(db.delivered) + ids
      ensures db.txs == old(db.txs)
    {
      ghost var made, steps;
      relayed, ids, made, steps := Tick();
    }

    /** One round of `Drain`. */
    method Round(ghost before: map<Id, EventRow>, ghost order: seq<Id>, ghost ticks: nat) returns (n: nat, ghost longer: seq<Id>)
      requires db.Valid() && db.txs == map[] && batchSize >= 1
      requires Progress(before, db.events, order, batchSize, ticks)
      modifies db
      ensures db.Valid() && db.txs == map[]
      ensures Progress(before, db.events, longer, batchSize, ticks + if n == 0 then 0 else 1)
      ensures if n == 0 then longer == order && Unrelayed(db.events) == {} == Unrelayed(old(db.events))
              else |Unrelayed(db.events)| < |Unrelayed(old(db.events))|
      ensures exists ids :: longer == order + ids && db.delivered == old(db.delivered) + ids
    {
      ghost var events := db.events;
      assert Claimable(db.View()) == Unrelayed(events);
      ghost var ids;
      n, ids := TickInOrder();
      longer := order + ids;
      if n == 0 {
        TopCount(Ascending, EventKey(events), Unrelayed(events), batchSize, ids);
        assert db.events == events;
      } else {
        RoundKeepsProgress(before, events, order, batchSize, ticks, ids, db.now);
      }
    }

    /** Polling until a tick finds nothing, alone and with no new appends: every pending event is relayed,
        in (created_at, id) order, in the fewest batches. */
    method Drain() returns (ticks: nat, ghost order: seq<Id>)
      requires db.Valid() && db.txs == map[] && batchSize >= 1
      modifies db
      ensures db.Valid() && db.txs == map[]
      ensures var pending := Unrelayed(old(db.events));
              && IsTop(Ascending, EventKey(old(db.events)), pending, |pending|, order) && |order| == |pending|
              && ticks == CeilDiv(|pending|, batchSize)
      ensures db.delivered == old(db.delivered) + order
      ensures Unrelayed(db.events) == {}
    {
      ghost var before := db.events;
      order, ticks := [], 0;
      var idle := false;
      while !idle
        invariant db.Valid() && db.txs == map[] && db.delivered == old(db.delivered) + order
        invariant Progress(before, db.events, order, batchSize, ticks)
        invariant idle ==> Unrelayed(db.events) == {}
        decreases |Unrelayed(db.events)|, !idle
      {
        var n;
        n, order := Round(before, order, ticks);
        if n == 0 {
          idle := true;
        } else {
          ticks := ticks + 1;
        }
      }
      forall e | e in Unrelayed(before) ensures e in order {
        assert e !in Rest(Unrelayed(before), order);
      }
      DistinctCount(order, Unrelayed(before));
      TicksAreCeiling(before, db.events, order, batchSize, ticks);
    }
  }

  lemma TicksAreCeiling(before: map<Id, EventRow>, events: map<Id, EventRow>, order: seq<Id>, batch: nat, ticks: nat)
    requires Progress(before, events, order, batch, ticks) && batch >= 1
    ensures ticks == CeilDiv(|order|, batch)
  {
    if ticks == 0 {
      NothingFillsNone(batch);
    } else {
      FillsIsCeiling(batch, ticks, |order|);
    }
  }

  /** After `ticks` productive rounds: `order` is a front of the original queue, and only the
      last round may have been short. */
  ghost predicate Progress(before: map<Id, EventRow>, events: map<Id, EventRow>, order: seq<Id>, batch: nat, ticks: nat) {
    && SameSchedule(before, events)
    && IsTop(Ascending, EventKey(before), Unrelayed(before), |order|, order)
    && Unrelayed(events) == Rest(Unrelayed(before), order)
    && (Unrelayed(events) != {} ==> |order| == Blocks(batch, ticks))
    && (if ticks == 0 then order == [] else Fills(batch, ticks, |order|))
  }

  lemma RoundKeepsProgress(before: map<Id, EventRow>, events: map<Id, EventRow>, order: seq<Id>, batch: nat, ticks: nat,
                           ids: seq<Id>, at: Time)
    requires Progress(before, events, order, batch, ticks)
    requires IsTop(Ascending, EventKey(events), Unrelayed(events), batch, ids) && ids != []
    ensures Progress(before, Relayed(events, ids, at), order + ids, batch, ticks + 1)
    ensures |Unrelayed(Relayed(events, ids, at))| < |Unrelayed(events)|
  {
    BatchContinuesOrder(before, events, order, batch, ids);
    BatchLeavesQueue(events, ids, at);
    TopCount(Ascending, EventKey(events), Unrelayed(events), batch, ids);
    assert ids[0] in Unrelayed(events);
  }

  ghost predicate SameSchedule(before: map<Id, EventRow>, after: map<Id, EventRow>) {
    after.Keys == before.Keys && forall e | e in before :: after[e].createdAt == before[e].createdAt
  }

  lemma BatchContinuesOrder(before: map<Id, EventRow>, events: map<Id, EventRow>, order: seq<Id>, limit: nat, ids: seq<Id>)
    requires SameSchedule(before, events)
    requires IsTop(Ascending, EventKey(before), Unrelayed(before), |order|, order)
    requires Unrelayed(events) == Rest(Unrelayed(before), order)
    requires IsTop(Ascending, EventKey(events), Unrelayed(events), limit, ids)
    ensures IsTop(Ascending, EventKey(before), Unrelayed(before), |order + ids|, order + ids)
  {
    SameKeysSameTop(Ascending, EventKey(events), EventKey(before), Unrelayed(events), limit, ids);
    TopsConcatenate(Ascending, EventKey(before), Unrelayed(before), order, limit, ids);
  }

  /** Relaying the picked events takes exactly them off the queue. */
  lemma BatchLeavesQueue(events: map<Id, EventRow>, ids: seq<Id>, at: Time)
    requires ids != [] && forall i | 0 <= i < |ids| :: ids[i] in Unrelayed(events)
    ensures Unrelayed(Relayed(events, ids, at)) == Rest(Unrelayed(events), ids)
    ensures |Unrelayed(Relayed(events, ids, at))| < |Unrelayed(events)|
  {
    var rest := Rest(Unrelayed(events), ids);
    assert Unrelayed(Relayed(events, ids, at)) == rest;
    assert ids[0] in Unrelayed(events) - rest;
    assert |Unrelayed(events)| == |Unrelayed(events) - rest| + |rest|;
  }

  /** A transaction that has claimed nothing locks nothing. */
  lemma ClaimableIgnoresEmptyTx(s: State, t: TxId)
    requires t !in s.txs
    ensures Claimable(Do(s, BeginRelay(t))) == Claimable(s)
    ensures forall e :: Locked(Do(s, BeginRelay(t)), e) <==> Locked(s, e)
  {
    var u := Do(s, BeginRelay(t));
    forall e ensures Locked(u, e) <==> Locked(s, e) {
      if Locked(s, e) {
        var v :| v in s.txs && Holds(s.txs[v], e);
        assert v in u.txs && Holds(u.txs[v], e);
      }
      assert !Holds(u.txs[t], e);
    }
  }
}
