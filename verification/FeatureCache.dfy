/** The feature-flag cache under concurrency: evaluations, override writes and invalidations
    interleaved between any two awaits. */
module FeatureCache {
  import opened Keyset
  import opened Json

  type Slug = string

  datatype FlagKey = FlagKey(org: Id, slug: Slug)

  type Overrides = map<FlagKey, Json>

  type Defaults = map<Slug, Json>

  /** Override, else the definition's default, else unknown: what the cache must agree with. */
  function Lookup(overrides: Overrides, defaults: Defaults, key: FlagKey): Option<Json> {
    if key in overrides then Some(overrides[key])
    else if key.slug in defaults then Some(defaults[key.slug])
    else None
  }

  /** The overrides table from `since` on. */
  datatype Version = Version(since: Time, overrides: Overrides)

  /** A cached value; `readAt`, when its override was looked up, is history. */
  datatype Entry = Entry(value: Json, expiresAt: Time, readAt: Time)

  datatype Phase = Started | Missed | NoOverride(readAt: Time) | Loaded(value: Json, readAt: Time)

  /** A call of `evaluate` in flight; `start` is the instant it captures first. */
  datatype Call = Call(key: FlagKey, start: Time, phase: Phase)

  /** What a call returned; `None` is the unknown-slug error. */
  datatype Return = Return(key: FlagKey, start: Time, at: Time, result: Option<Json>, readAt: Time)

  datatype State = State(
    now: Time, ttl: Time, defaults: Defaults, history: seq<Version>,
    cache: map<FlagKey, Entry>, calls: map<int, Call>, answers: seq<Return>)

  datatype Step =
    | Evaluate(call: int, key: FlagKey)
    | ReadCache(call: int)
    | ReadOverride(call: int)
    | ReadDefinition(call: int)
    | Insert(call: int)
    | Fail(call: int)                                  // repository error or cancelled call
    | Write(key: FlagKey, value: Option<Json>)         // upsert or delete, by set, clear or anyone else
    | Invalidate(key: FlagKey)
    | InvalidateAll
    | Advance(to: Time)

  function Current(s: State): Overrides
    requires s.history != []
  {
    s.history[|s.history| - 1].overrides
  }

  predicate InPhase(s: State, c: int, step: Step) {
    && c in s.calls
    && match step
       case ReadCache(_) => s.calls[c].phase.Started?
       case ReadOverride(_) => s.calls[c].phase.Missed?
       case ReadDefinition(_) => s.calls[c].phase.NoOverride?
       case Insert(_) => s.calls[c].phase.Loaded?
       case _ => true
  }

  predicate Enabled(s: State, step: Step) {
    && s.history != []
    && match step
       case Evaluate(c, _) => c !in s.calls
       case Write(_, _) => true
       case Invalidate(_) => true
       case InvalidateAll => true
       case Advance(to) => s.now <= to
       case _ => InPhase(s, step.call, step)
  }

  function Returned(s: State, c: int, result: Option<Json>, readAt: Time): State
    requires c in s.calls
  {
    var call := s.calls[c];
    s.(calls := s.calls - {c}, answers := s.answers + [Return(call.key, call.start, s.now, result, readAt)])
  }

  function InState(s: State, c: int, phase: Phase): State
    requires c in s.calls
  {
    s.(calls := s.calls[c := s.calls[c].(phase := phase)])
  }

  function Do(s: State, step: Step): State
    requires Enabled(s, step)
  {
    match step
    case Evaluate(c, key) => s.(calls := s.calls[c := Call(key, s.now, Started)])
    case ReadCache(c) =>
      var call := s.calls[c];
      if call.key in s.cache && s.cache[call.key].expiresAt > call.start
      then Returned(s, c, Some(s.cache[call.key].value), s.cache[call.key].readAt)
      else InState(s, c, Missed)
    case ReadOverride(c) =>
      var key := s.calls[c].key;
      if key in Current(s) then InState(s, c, Loaded(Current(s)[key], s.now)) else InState(s, c, NoOverride(s.now))
    case ReadDefinition(c) =>
      var call := s.calls[c];
      if call.key.slug in s.defaults
      then InState(s, c, Loaded(s.defaults[call.key.slug], call.phase.readAt))
      else Returned(s, c, None, call.phase.readAt)
    case Insert(c) =>
      var call := s.calls[c];
      Returned(s, c, Some(call.phase.value), call.phase.readAt).(
        cache := s.cache[call.key := Entry(call.phase.value, call.start + s.ttl, call.phase.readAt)])
    case Fail(c) => s.(calls := s.calls - {c})
    case Write(key, value) =>
      var table := if value.Some? then Current(s)[key := value.value] else Current(s) - {key};
      s.(history := s.history + [Version(s.now, table)])
    case Invalidate(key) => s.(cache := s.cache - {key})
    case InvalidateAll => s.(cache := map[])
    case Advance(to) => s.(now := to)
  }

  predicate Leads(s: State, steps: seq<Step>, t: State)
    decreases |steps|
  {
    if steps == [] then s == t
    else Enabled(s, steps[0]) && Leads(Do(s, steps[0]), steps[1..], t)
  }

  predicate Initial(s: State) {
    |s.history| == 1 && s.history[0].since <= s.now && s.cache == map[] && s.calls == map[] && s.answers == []
  }

  /** Version `i` of the table was in force at instant `t`. */
  predicate InForce(history: seq<Version>, i: int, t: Time) {
    0 <= i < |history| && history[i].since <= t && (i + 1 < |history| ==> t <= history[i + 1].since)
  }

  /** Looking `key` up in the store at instant `t` could have given `result`. */
  ghost predicate TrueAt(s: State, key: FlagKey, result: Option<Json>, t: Time) {
    exists i :: InForce(s.history, i, t) && Lookup(s.history[i].overrides, s.defaults, key) == result
  }

  /** The promise of one call: its answer was true at some instant no later than the return, and
      no earlier than the start or, for a cached answer, later than the start minus the TTL. */
  ghost predicate BoundedlyStale(s: State, r: Return) {
    exists t :: TrueAt(s, r.key, r.result, t) && t <= r.at && (r.start <= t || r.start - s.ttl < t)
  }

  ghost predicate CallOk(s: State, call: Call) {
    && call.start <= s.now
    && match call.phase
       case NoOverride(r) =>
         call.start <= r <= s.now
         && TrueAt(s, call.key, Lookup(map[], s.defaults, call.key), r)
       case Loaded(v, r) => call.start <= r <= s.now && TrueAt(s, call.key, Some(v), r)
       case _ => true
  }

  ghost predicate EntryOk(s: State, key: FlagKey, e: Entry) {
    e.expiresAt - s.ttl <= e.readAt <= s.now && TrueAt(s, key, Some(e.value), e.readAt)
  }

  ghost predicate ReturnOk(s: State, r: Return) {
    TrueAt(s, r.key, r.result, r.readAt) && r.readAt <= r.at <= s.now && (r.start <= r.readAt || r.start - s.ttl < r.readAt)
  }

  ghost predicate Inv(s: State) {
    && s.history != [] && s.history[|s.history| - 1].since <= s.now
    && (forall c | c in s.calls :: CallOk(s, s.calls[c]))
    && (forall key | key in s.cache :: EntryOk(s, key, s.cache[key]))
    && (forall r <- s.answers :: ReturnOk(s, r))
  }

  /** What was true at a past instant stays so when the table is written again. */
  lemma TruthsRemain(s: State, t: State, key: FlagKey, result: Option<Json>, at: Time)
    requires TrueAt(s, key, result, at) && t.defaults == s.defaults
    requires t.history == s.history
          || (at <= s.now && exists v: Version :: v.since == s.now && t.history == s.history + [v])
    ensures TrueAt(t, key, result, at)
  {
    var i :| InForce(s.history, i, at) && Lookup(s.history[i].overrides, s.defaults, key) == result;
    assert InForce(t.history, i, at);
  }

  lemma OldTruthsRemain(s: State, step: Step)
    requires Inv(s) && Enabled(s, step)
    ensures forall r <- s.answers :: ReturnOk(Do(s, step), r)
    ensures forall key | key in s.cache :: EntryOk(Do(s, step), key, s.cache[key])
    ensures forall c | c in s.calls :: CallOk(Do(s, step), s.calls[c])
  {
    var t := Do(s, step);
    if step.Write? { assert t.history == s.history + [t.history[|s.history|]]; }
    forall r | r in s.answers ensures ReturnOk(t, r) {
      TruthsRemain(s, t, r.key, r.result, r.readAt);
    }
    forall key | key in s.cache ensures EntryOk(t, key, s.cache[key]) {
      assert EntryOk(s, key, s.cache[key]);
      TruthsRemain(s, t, key, Some(s.cache[key].value), s.cache[key].readAt);
    }
    forall c | c in s.calls ensures CallOk(t, s.calls[c]) {
      var call := s.calls[c];
      assert CallOk(s, call);
      match call.phase {
        case NoOverride(r) => TruthsRemain(s, t, call.key, Lookup(map[], s.defaults, call.key), r);
        case Loaded(v, r) => TruthsRemain(s, t, call.key, Some(v), r);
        case _ =>
      }
    }
  }

  lemma NewAnswerIsOk(s: State, step: Step)
    requires Inv(s) && Enabled(s, step)
    ensures forall r <- Do(s, step).answers :: ReturnOk(Do(s, step), r)
  {
    OldTruthsRemain(s, step);
    match step
    case ReadCache(c) => assert CallOk(s, s.calls[c]);
    case ReadDefinition(c) => assert CallOk(s, s.calls[c]);
    case Insert(c) => assert CallOk(s, s.calls[c]);
    case _ =>
  }

  lemma NewEntryIsOk(s: State, step: Step)
    requires Inv(s) && Enabled(s, step)
    ensures forall key | key in Do(s, step).cache :: EntryOk(Do(s, step), key, Do(s, step).cache[key])
  {
    OldTruthsRemain(s, step);
    if step.Insert? {
      assert CallOk(s, s.calls[step.call]);
    }
  }

  lemma NewPhaseIsOk(s: State, step: Step)
    requires Inv(s) && Enabled(s, step)
    ensures forall c | c in Do(s, step).calls :: CallOk(Do(s, step), Do(s, step).calls[c])
  {
    OldTruthsRemain(s, step);
    match step
    case ReadOverride(c) => assert InForce(Do(s, step).history, |s.history| - 1, s.now);
    case ReadDefinition(c) => assert CallOk(s, s.calls[c]);
    case _ =>
  }

  lemma StepKeepsInv(s: State, step: Step)
    requires Inv(s) && Enabled(s, step)
    ensures Inv(Do(s, step))
  {
    NewAnswerIsOk(s, step);
    NewEntryIsOk(s, step);
    NewPhaseIsOk(s, step);
  }

  lemma {:induction false} RunKeepsInv(s: State, steps: seq<Step>, t: State)
    requires Inv(s) && Leads(s, steps, t)
    ensures Inv(t)
    decreases |steps|
  {
    if steps != [] {
      StepKeepsInv(s, steps[0]);
      RunKeepsInv(Do(s, steps[0]), steps[1..], t);
    }
  }

  /** Whatever is interleaved, an answer is never staler than one TTL before the call. */
  lemma AnswersAreBoundedlyStale(s: State, steps: seq<Step>, t: State)
    requires Initial(s) && Leads(s, steps, t)
    ensures forall r <- t.answers :: BoundedlyStale(t, r)
  {
    RunKeepsInv(s, steps, t);
    forall r | r in t.answers ensures BoundedlyStale(t, r) {
      assert ReturnOk(t, r);
    }
  }

  // ---- building runs -----------------------------------------------------------

  lemma {:induction false} LeadsOneMore(s: State, steps: seq<Step>, m: State, step: Step)
    requires Leads(s, steps, m) && Enabled(m, step)
    ensures Leads(s, steps + [step], Do(m, step))
    decreases |steps|
  {
    if steps == [] {
      assert Leads(Do(m, step), [], Do(m, step));
    } else {
      assert (steps + [step])[1..] == steps[1..] + [step];
      LeadsOneMore(Do(s, steps[0]), steps[1..], m, step);
    }
  }

  lemma Extend(s: State, steps: seq<Step>, m: State, step: Step) returns (longer: seq<Step>, t: State)
    requires Leads(s, steps, m) && Enabled(m, step)
    ensures Leads(s, longer, t) && t == Do(m, step) && longer == steps + [step]
  {
    LeadsOneMore(s, steps, m, step);
    longer, t := steps + [step], Do(m, step);
  }
}
