/** The audit trail: a bounded queue filled without blocking and one consumer that retries inserts. */
module AuditPipeline {
  import opened Keyset
  import opened Backoff

  type Event = int

  datatype RecorderError = ChannelFull | Closed

  /** An event being written: failed inserts so far, the next pause and the pauses already made, in ms. */
  datatype Attempt = Attempt(event: Event, failures: nat, backoff: nat, waited: nat)

  /** How an accepted event ended. */
  datatype Fate = Fate(event: Event, stored: bool, failures: nat, waited: nat)

  datatype Config = Config(capacity: nat, maxRetries: nat, initialBackoff: nat)

  /** `accepted` and `settled` are history. */
  datatype State = State(
    cfg: Config, senders: bool, running: bool, queue: seq<Event>, current: Option<Attempt>,
    table: seq<Event>, accepted: seq<Event>, settled: seq<Fate>)

  datatype Step =
    | Record(event: Event)      // some task records an event
    | DropSenders
    | Receive
    | InsertOk
    | InsertFails               // and stores nothing
    | Stop                      // the channel is closed and drained

  predicate Enabled(s: State, step: Step) {
    match step
    case Record(_) => s.senders
    case DropSenders => s.senders
    case Receive => s.running && s.current.None? && s.queue != []
    case InsertOk => s.running && s.current.Some?
    case InsertFails => s.running && s.current.Some?
    case Stop => s.running && s.current.None? && s.queue == [] && !s.senders
  }

  /** What `record` answers. */
  function Answer(s: State): Option<RecorderError> {
    if !s.running then Some(Closed) else if |s.queue| >= s.cfg.capacity then Some(ChannelFull) else None
  }

  function Do(s: State, step: Step): State
    requires Enabled(s, step)
  {
    match step
    case Record(e) =>
      if Answer(s).Some? then s else s.(queue := s.queue + [e], accepted := s.accepted + [e])
    case DropSenders => s.(senders := false)
    case Receive => s.(queue := s.queue[1..], current := Some(Attempt(s.queue[0], 0, s.cfg.initialBackoff, 0)))
    case InsertOk =>
      var a := s.current.value;
      s.(current := None, table := s.table + [a.event], settled := s.settled + [Fate(a.event, true, a.failures, a.waited)])
    case InsertFails =>
      var a := s.current.value;
      if a.failures + 1 > s.cfg.maxRetries
      then s.(current := None, settled := s.settled + [Fate(a.event, false, a.failures + 1, a.waited)])
      else s.(current := Some(Attempt(a.event, a.failures + 1, Saturate(a.backoff * 4), a.waited + a.backoff)))
    case Stop => s.(running := false)
  }

  predicate Leads(s: State, steps: seq<Step>, t: State)
    decreases |steps|
  {
    if steps == [] then s == t
    else Enabled(s, steps[0]) && Leads(Do(s, steps[0]), steps[1..], t)
  }

  predicate Initial(s: State) {
    && s.cfg.initialBackoff <= U64_MAX && s.cfg.maxRetries < U32_MAX
    && s.senders && s.running && s.queue == [] && s.current.None?
    && s.table == [] && s.accepted == [] && s.settled == []
  }

  // ---- pauses ------------------------------------------------------------------------

  /** The pause after the `n`-th failure, counting from 0. */
  function Pause(initial: nat, n: nat): nat {
    if n == 0 then initial else Saturate(Pause(initial, n - 1) * 4)
  }

  function TotalPause(initial: nat, n: nat): nat {
    if n == 0 then 0 else TotalPause(initial, n - 1) + Pause(initial, n - 1)
  }

  lemma {:induction false} PauseIsPower(initial: nat, n: nat)
    requires initial <= U64_MAX
    ensures Pause(initial, n) == Saturate(initial * Pow(4, n))
  {
    if n > 0 {
      PauseIsPower(initial, n - 1);
      TimesFour(initial, n);
      SaturateOnce(initial * Pow(4, n - 1));
    }
  }

  lemma SaturateOnce(n: nat)
    ensures Saturate(Saturate(n) * 4) == Saturate(4 * n)
  {
  }

  /** `n` pauses last `initial * (4^n - 1) / 3` in all, or less once a pause saturates. */
  lemma {:induction false} TotalPauseIsGeometric(initial: nat, n: nat)
    requires initial <= U64_MAX
    ensures 3 * TotalPause(initial, n) <= initial * Pow(4, n) - initial
    ensures n == 0 || initial * Pow(4, n - 1) <= U64_MAX <==> 3 * TotalPause(initial, n) == initial * Pow(4, n) - initial
  {
    if n > 0 {
      var last := initial * Pow(4, n - 1);
      TotalPauseIsGeometric(initial, n - 1);
      PauseIsPower(initial, n - 1);
      TimesFour(initial, n);
      if n > 1 { TimesFour(initial, n - 1); }
      assert TotalPause(initial, n) == TotalPause(initial, n - 1) + Saturate(last);
    }
  }

  lemma TimesFour(initial: nat, n: nat)
    requires n > 0
    ensures initial * Pow(4, n) == 4 * (initial * Pow(4, n - 1))
  {
    FourOut(initial, Pow(4, n - 1));
  }

  lemma FourOut(a: nat, p: nat)
    ensures a * (4 * p) == 4 * (a * p)
  {
  }

  // ---- invariant -----------------------------------------------------------------------

  function Events(fates: seq<Fate>): seq<Event> {
    if fates == [] then [] else Events(fates[..|fates| - 1]) + [fates[|fates| - 1].event]
  }

  /** The events of the stored fates, in order: a subsequence of `Events(fates)`. */
  function StoredEvents(fates: seq<Fate>): seq<Event> {
    if fates == [] then []
    else StoredEvents(fates[..|fates| - 1]) + if fates[|fates| - 1].stored then [fates[|fates| - 1].event] else []
  }

  function Dropped(fates: seq<Fate>): nat {
    if fates == [] then 0 else Dropped(fates[..|fates| - 1]) + if fates[|fates| - 1].stored then 0 else 1
  }

  function CurrentEvent(s: State): seq<Event> {
    if s.current.Some? then [s.current.value.event] else []
  }

  predicate FateOk(cfg: Config, f: Fate) {
    if f.stored then f.failures <= cfg.maxRetries && f.waited == TotalPause(cfg.initialBackoff, f.failures)
    else f.failures == cfg.maxRetries + 1 && f.waited == TotalPause(cfg.initialBackoff, cfg.maxRetries)
  }

  predicate AttemptOk(cfg: Config, a: Attempt) {
    && a.failures <= cfg.maxRetries
    && a.backoff == Pause(cfg.initialBackoff, a.failures) && a.waited == TotalPause(cfg.initialBackoff, a.failures)
  }

  ghost predicate Inv(s: State) {
    && s.accepted == Events(s.settled) + CurrentEvent(s) + s.queue
    && s.table == StoredEvents(s.settled)
    && |s.queue| <= s.cfg.capacity
    && (s.current.Some? ==> AttemptOk(s.cfg, s.current.value))
    && (forall i | 0 <= i < |s.settled| :: FateOk(s.cfg, s.settled[i]))
    && (!s.running ==> !s.senders && s.current.None? && s.queue == [])
  }

  lemma OneMoreFate(fates: seq<Fate>, f: Fate)
    ensures Events(fates + [f]) == Events(fates) + [f.event]
    ensures StoredEvents(fates + [f]) == StoredEvents(fates) + if f.stored then [f.event] else []
    ensures Dropped(fates + [f]) == Dropped(fates) + if f.stored then 0 else 1
  {
    assert (fates + [f])[..|fates|] == fates;
  }

  lemma SettlingKeepsInv(s: State, f: Fate, t: State)
    requires Inv(s) && s.running && s.current.Some? && f.event == s.current.value.event && FateOk(s.cfg, f)
    requires t == s.(current := None, settled := s.settled + [f], table := s.table + if f.stored then [f.event] else [])
    ensures Inv(t)
  {
    OneMoreFate(s.settled, f);
    var done := Events(s.settled);
    assert done + [f.event] + s.queue == done + [f.event] + [] + s.queue;
    assert StoredEvents(s.settled) + [] == StoredEvents(s.settled);
    forall i | 0 <= i < |t.settled| ensures FateOk(t.cfg, t.settled[i]) {
      assert i < |s.settled| ==> t.settled[i] == s.settled[i];
    }
  }

  lemma JoinsAssociate(a: seq<Event>, b: seq<Event>, c: seq<Event>)
    ensures a + b + c == a + (b + c)
  {
  }

  lemma RecordKeepsInv(s: State, e: Event)
    requires Inv(s) && Enabled(s, Record(e))
    ensures Inv(Do(s, Record(e)))
  {
    JoinsAssociate(Events(s.settled) + CurrentEvent(s), s.queue, [e]);
  }

  lemma ReceiveKeepsInv(s: State)
    requires Inv(s) && Enabled(s, Receive)
    ensures Inv(Do(s, Receive))
  {
    var before := Events(s.settled);
    JoinsAssociate(before, [s.queue[0]], s.queue[1..]);
    assert [s.queue[0]] + s.queue[1..] == s.queue && before + [] == before;
  }

  lemma InsertOkKeepsInv(s: State)
    requires Inv(s) && Enabled(s, InsertOk)
    ensures Inv(Do(s, InsertOk))
  {
    var a := s.current.value;
    SettlingKeepsInv(s, Fate(a.event, true, a.failures, a.waited), Do(s, InsertOk));
  }

  lemma InsertFailsKeepsInv(s: State)
    requires Inv(s) && Enabled(s, InsertFails)
    ensures Inv(Do(s, InsertFails))
  {
    var a := s.current.value;
    if a.failures + 1 > s.cfg.maxRetries {
      assert s.table + [] == s.table;
      SettlingKeepsInv(s, Fate(a.event, false, a.failures + 1, a.waited), Do(s, InsertFails));
    } else {
      RetryKeepsInv(s, Do(s, InsertFails));
    }
  }

  lemma RetryKeepsInv(s: State, t: State)
    requires Inv(s) && s.running && s.current.Some? && s.current.value.failures < s.cfg.maxRetries
    requires var a := s.current.value;
             t == s.(current := Some(Attempt(a.event, a.failures + 1, Saturate(a.backoff * 4), a.waited + a.backoff)))
    ensures Inv(t)
  {
    assert CurrentEvent(t) == CurrentEvent(s);
  }

  lemma StepKeepsInv(s: State, step: Step)
    requires Inv(s) && Enabled(s, step)
    ensures Inv(Do(s, step)) && Do(s, step).cfg == s.cfg
  {
    match step
    case Record(e) => RecordKeepsInv(s, e);
    case Receive => ReceiveKeepsInv(s);
    case InsertOk => InsertOkKeepsInv(s);
    case InsertFails => InsertFailsKeepsInv(s);
    case _ =>
  }

  lemma {:induction false} RunKeepsInv(s: State, steps: seq<Step>, t: State)
    requires Inv(s) && Leads(s, steps, t)
    ensures Inv(t) && t.cfg == s.cfg
    decreases |steps|
  {
    if steps != [] {
      StepKeepsInv(s, steps[0]);
      RunKeepsInv(Do(s, steps[0]), steps[1..], t);
    }
  }

  /** At every instant the accepted events are, in order, those settled, the one in hand and those queued;
      the table holds exactly the stored ones, in that order; the queue is bounded; an event is given up only
      after `max_retries + 1` failed inserts; and once the worker has stopped nothing is left unsettled. */
  lemma NothingAcceptedIsLost(s: State, steps: seq<Step>, t: State)
    requires Initial(s) && Leads(s, steps, t)
    ensures t.accepted == Events(t.settled) + CurrentEvent(t) + t.queue && t.table == StoredEvents(t.settled)
    ensures |t.accepted| == |t.table| + Dropped(t.settled) + |CurrentEvent(t)| + |t.queue|
    ensures |t.queue| <= s.cfg.capacity
    ensures forall f <- t.settled :: !f.stored ==>
              f.failures == s.cfg.maxRetries + 1 && f.waited == TotalPause(s.cfg.initialBackoff, s.cfg.maxRetries)
    ensures forall f <- t.settled :: f.stored ==> f.failures <= s.cfg.maxRetries
    ensures !t.running ==> t.accepted == Events(t.settled)
    ensures t.senders ==> Answer(t) != Some(Closed)
  {
    RunKeepsInv(s, steps, t);
    EventCount(t.settled);
  }

  lemma {:induction false} EventCount(fates: seq<Fate>)
    ensures |Events(fates)| == |fates|
    ensures |StoredEvents(fates)| + Dropped(fates) == |fates|
  {
    if fates != [] { EventCount(fates[..|fates| - 1]); }
  }

  lemma {:induction false} LeadsOneMore(s: State, steps: seq<Step>, m: State, step: Step)
    requires Leads(s, steps, m) && Enabled(m, step)
    ensures Leads(s, steps + [step], Do(m, step))
    decreases |steps|
  {
    if steps == [] {
      assert Leads(Do(m, step), [], Do(m, step));
    } else {
      assert (steps + [step])[1..] == steps[1..] + [step];
      LeadsOneMore(Do(s, steps[0]), steps[1..], m, step);
    }
  }

  lemma Extend(s: State, steps: seq<Step>, m: State, step: Step, t: State) returns (longer: seq<Step>)
    requires Leads(s, steps, m) && Enabled(m, step) && t == Do(m, step)
    ensures Leads(s, longer, t)
  {
    LeadsOneMore(s, steps, m, step);
    longer := steps + [step];
  }
}
