/** When an invalidation can be overtaken: the exact window, in the concurrent machine. */
module FeatureWindow {
  import opened Keyset
  import opened Json
  import opened FeatureCache

  /** The value a call past its look at the overrides is about to cache, if any. */
  function Prospect(s: State, call: Call): Option<Json> {
    match call.phase
    case NoOverride(_) => Lookup(map[], s.defaults, call.key)
    case Loaded(v, _) => Some(v)
    case _ => None
  }

  /** What it caches will still be live, unless time passes. */
  predicate CachesLive(s: State, call: Call) {
    Prospect(s, call).Some? && s.now < call.start + s.ttl
  }

  function Written(table: Overrides, key: FlagKey, value: Option<Json>): Overrides {
    if value.Some? then table[key := value.value] else table - {key}
  }

  /** Call `c` would put a value other than the one being written back into the cache. */
  predicate Overtakes(s: State, c: int, key: FlagKey, value: Option<Json>)
    requires s.history != []
  {
    && c in s.calls && s.calls[c].key == key && CachesLive(s, s.calls[c])
    && Prospect(s, s.calls[c]) != Lookup(Written(Current(s), key, value), s.defaults, key)
  }

  /** The window of a write, which a caller could check before it. */
  predicate Window(s: State, key: FlagKey, value: Option<Json>)
    requires s.history != []
  {
    exists c | c in s.calls :: Overtakes(s, c, key, value)
  }

  /** An evaluation started now and left alone is answered otherwise than from the store. */
  predicate ServesStale(s: State, key: FlagKey)
    requires s.history != []
  {
    && key in s.cache && s.now < s.cache[key].expiresAt
    && Lookup(Current(s), s.defaults, key) != Some(s.cache[key].value)
  }

  // ---- outside the window ------------------------------------------------------------

  predicate ReadsAgree(s: State)
    requires s.history != []
  {
    forall c | c in s.calls && CachesLive(s, s.calls[c]) ::
      Prospect(s, s.calls[c]) == Lookup(Current(s), s.defaults, s.calls[c].key)
  }

  /** Values in the cache and on their way to it agree with the store, but for `pending` entries. */
  predicate Agrees(s: State, pending: set<FlagKey>) {
    s.history != [] && ReadsAgree(s) && forall key | key in s.cache && ServesStale(s, key) :: key in pending
  }

  predicate Guarded(s: State, step: Step)
    requires Enabled(s, step)
  {
    step.Write? ==> !Window(s, step.key, step.value)
  }

  predicate GuardedRun(s: State, steps: seq<Step>)
    decreases |steps|
  {
    steps == [] || (Enabled(s, steps[0]) && Guarded(s, steps[0]) && GuardedRun(Do(s, steps[0]), steps[1..]))
  }

  /** Cached keys that have been written and not yet invalidated or replaced. */
  function PendingAfter(s: State, step: Step, pending: set<FlagKey>): set<FlagKey>
    requires Enabled(s, step)
  {
    match step
    case Write(key, _) => if key in s.cache then pending + {key} else pending
    case Invalidate(key) => pending - {key}
    case InvalidateAll => {}
    case Insert(c) => pending - {s.calls[c].key}
    case _ => pending
  }

  function Pending(s: State, steps: seq<Step>, pending: set<FlagKey>): set<FlagKey>
    requires GuardedRun(s, steps)
    decreases |steps|
  {
    if steps == [] then pending else Pending(Do(s, steps[0]), steps[1..], PendingAfter(s, steps[0], pending))
  }

  lemma GuardedStepAgrees(s: State, step: Step, pending: set<FlagKey>)
    requires Agrees(s, pending) && Enabled(s, step) && Guarded(s, step)
    ensures Agrees(Do(s, step), PendingAfter(s, step, pending))
  {
    GuardedStepKeepsReads(s, step, pending);
    var t := Do(s, step);
    forall key | ServesStale(t, key) ensures key in PendingAfter(s, step, pending) {
      if !step.Insert? || s.calls[step.call].key != key { assert (step.Write? && step.key == key) || ServesStale(s, key); }
    }
  }

  lemma GuardedWriteKeepsReads(s: State, step: Step, c: int)
    requires s.history != [] && ReadsAgree(s) && step.Write? && Enabled(s, step) && Guarded(s, step)
    requires c in s.calls && CachesLive(s, s.calls[c])
    ensures var t := Do(s, step); Prospect(t, t.calls[c]) == Lookup(Current(t), t.defaults, t.calls[c].key)
  {
    if s.calls[c].key == step.key { assert !Overtakes(s, c, step.key, step.value); }
  }

  lemma QuietStepKeepsRead(s: State, step: Step, c: int)
    requires s.history != [] && ReadsAgree(s) && !step.Write? && Enabled(s, step)
    requires c in Do(s, step).calls && CachesLive(Do(s, step), Do(s, step).calls[c])
    ensures var t := Do(s, step); Prospect(t, t.calls[c]) == Lookup(Current(t), t.defaults, t.calls[c].key)
  {
  }

  lemma GuardedStepKeepsReads(s: State, step: Step, pending: set<FlagKey>)
    requires Agrees(s, pending) && Enabled(s, step) && Guarded(s, step)
    ensures ReadsAgree(Do(s, step))
  {
    var t := Do(s, step);
    if step.Write? {
      forall c | c in t.calls && CachesLive(t, t.calls[c])
        ensures Prospect(t, t.calls[c]) == Lookup(Current(t), t.defaults, t.calls[c].key)
      {
        GuardedWriteKeepsReads(s, step, c);
      }
    } else {
      forall c | c in t.calls && CachesLive(t, t.calls[c])
        ensures Prospect(t, t.calls[c]) == Lookup(Current(t), t.defaults, t.calls[c].key)
      {
        QuietStepKeepsRead(s, step, c);
      }
    }
  }

  /** Any interleaving in which no write falls into its window: every live entry is the one the store
      would give, except for keys written and not yet invalidated. */
  lemma {:induction false} GuardedRunsAgree(s: State, steps: seq<Step>, t: State, pending: set<FlagKey>)
    requires Agrees(s, pending) && GuardedRun(s, steps) && Leads(s, steps, t)
    ensures Agrees(t, Pending(s, steps, pending))
    decreases |steps|
  {
    if steps != [] {
      GuardedStepAgrees(s, steps[0], pending);
      GuardedRunsAgree(Do(s, steps[0]), steps[1..], t, PendingAfter(s, steps[0], pending));
    }
  }

  predicate NoWrites(steps: seq<Step>) {
    forall i | 0 <= i < |steps| :: !steps[i].Write?
  }

  // ---- after an invalidation: answers ---------------------------------------------------

  function Invalidated(s: State, key: FlagKey, value: Option<Json>): State
    requires s.history != []
  {
    Do(Do(s, Write(key, value)), Invalidate(key))
  }

  /** The calls in flight that began after the starting point. */
  function LateAfter(s: State, step: Step, late: set<int>): set<int>
    requires Enabled(s, step)
  {
    (if step.Evaluate? then late + {step.call} else late) * Do(s, step).calls.Keys
  }

  /** The step answers a late call on `key` otherwise than the store would. */
  predicate AnswersStale(s: State, step: Step, late: set<int>, key: FlagKey)
    requires Enabled(s, step)
  {
    var t := Do(s, step);
    && |t.answers| > |s.answers| && !step.Evaluate? && step.call in late
    && t.answers[|s.answers|].key == key
    && t.answers[|s.answers|].result != Lookup(Current(s), s.defaults, key)
  }

  /** Somewhere in the run a late call is answered otherwise than from the store. */
  predicate SomeStaleAnswer(s: State, steps: seq<Step>, late: set<int>, key: FlagKey)
    decreases |steps|
  {
    && steps != [] && Enabled(s, steps[0])
    && (AnswersStale(s, steps[0], late, key)
        || SomeStaleAnswer(Do(s, steps[0]), steps[1..], LateAfter(s, steps[0], late), key))
  }

  /** Some continuation without writes answers an evaluation begun from here on otherwise than from the store. */
  ghost predicate CanAnswerStale(s: State, key: FlagKey) {
    exists rest: seq<Step>, t: State :: NoWrites(rest) && Leads(s, rest, t) && SomeStaleAnswer(s, rest, {}, key)
  }

  /** A call on `key` agrees with the store: a late one always, an early one if what it caches outlives `since`. */
  predicate CallCurrent(s: State, c: int, since: Time, late: bool)
    requires s.history != [] && c in s.calls
  {
    var call := s.calls[c];
    var truth := Lookup(Current(s), s.defaults, call.key);
    && (late ==> call.start >= since && (call.phase.NoOverride? || call.phase.Loaded? ==> Prospect(s, call) == truth))
    && (Prospect(s, call).Some? && since < call.start + s.ttl ==> Prospect(s, call) == truth)
  }

  /** What has held for `key` since its invalidation at instant `since`. */
  ghost predicate StaysCurrent(s: State, key: FlagKey, since: Time, late: set<int>) {
    && s.history != [] && since <= s.now
    && (forall c | c in s.calls && s.calls[c].key == key :: CallCurrent(s, c, since, c in late))
    && (key in s.cache && since < s.cache[key].expiresAt ==> Some(s.cache[key].value) == Lookup(Current(s), s.defaults, key))
  }

  lemma CallStaysCurrent(s: State, step: Step, c: int, key: FlagKey, since: Time, late: set<int>)
    requires StaysCurrent(s, key, since, late) && Enabled(s, step) && !step.Write?
    requires c in Do(s, step).calls && Do(s, step).calls[c].key == key
    ensures CallCurrent(Do(s, step), c, since, c in LateAfter(s, step, late))
  {
    if c in s.calls {
      assert CallCurrent(s, c, since, c in late);
      if Do(s, step).calls[c] != s.calls[c] { ReadingStaysCurrent(s, step, c, since, c in late); }
    }
  }

  /** A call that moves on has just read the store, or keeps what it read. */
  lemma ReadingStaysCurrent(s: State, step: Step, c: int, since: Time, late: bool)
    requires s.history != [] && Enabled(s, step) && !step.Write? && c in s.calls && CallCurrent(s, c, since, late)
    requires c in Do(s, step).calls && Do(s, step).calls[c] != s.calls[c]
    ensures CallCurrent(Do(s, step), c, since, late)
  {
  }

  lemma EntryStaysCurrent(s: State, step: Step, key: FlagKey, since: Time, late: set<int>)
    requires StaysCurrent(s, key, since, late) && Enabled(s, step) && !step.Write?
    ensures var t := Do(s, step);
            key in t.cache && since < t.cache[key].expiresAt ==> Some(t.cache[key].value) == Lookup(Current(t), t.defaults, key)
  {
    if step.Insert? && s.calls[step.call].key == key { assert CallCurrent(s, step.call, since, step.call in late); }
  }

  lemma LateAnswerIsCurrent(s: State, step: Step, key: FlagKey, since: Time, late: set<int>)
    requires StaysCurrent(s, key, since, late) && Enabled(s, step) && !step.Write?
    ensures !AnswersStale(s, step, late, key)
  {
    if (step.ReadCache? || step.ReadDefinition? || step.Insert?) && s.calls[step.call].key == key {
      assert CallCurrent(s, step.call, since, step.call in late);
    }
  }

  lemma StepStaysCurrent(s: State, step: Step, key: FlagKey, since: Time, late: set<int>)
    requires StaysCurrent(s, key, since, late) && Enabled(s, step) && !step.Write?
    ensures StaysCurrent(Do(s, step), key, since, LateAfter(s, step, late))
  {
    var t := Do(s, step);
    forall c | c in t.calls && t.calls[c].key == key
      ensures CallCurrent(t, c, since, c in LateAfter(s, step, late))
    {
      CallStaysCurrent(s, step, c, key, since, late);
    }
    EntryStaysCurrent(s, step, key, since, late);
  }

  lemma {:induction false} RunStaysCurrent(s: State, steps: seq<Step>, t: State, key: FlagKey, since: Time, late: set<int>)
    requires StaysCurrent(s, key, since, late) && Leads(s, steps, t) && NoWrites(steps)
    ensures !SomeStaleAnswer(s, steps, late, key)
    decreases |steps|
  {
    if steps != [] {
      LateAnswerIsCurrent(s, steps[0], key, since, late);
      StepStaysCurrent(s, steps[0], key, since, late);
      RunStaysCurrent(Do(s, steps[0]), steps[1..], t, key, since, LateAfter(s, steps[0], late));
    }
  }

  predicate NoEvaluations(steps: seq<Step>) {
    forall i | 0 <= i < |steps| :: !steps[i].Evaluate?
  }

  lemma OvertakingCallInserts(s: State, c: int, key: FlagKey, value: Option<Json>)
    returns (rest: seq<Step>, t: State)
    requires s.history != [] && Overtakes(s, c, key, value)
    ensures NoWrites(rest) && NoEvaluations(rest) && Leads(Invalidated(s, key, value), rest, t)
    ensures t.history == Invalidated(s, key, value).history && t.defaults == s.defaults && t.now == s.now
    ensures t.calls == s.calls - {c}
    ensures t.history != [] && ServesStale(t, key) && Some(t.cache[key].value) == Prospect(s, s.calls[c])
  {
    rest, t := [], Invalidated(s, key, value);
    if s.calls[c].phase.NoOverride? {
      rest, t := Extend(t, rest, t, ReadDefinition(c));
    }
    rest, t := Extend(Invalidated(s, key, value), rest, t, Insert(c));
  }

  /** A stale entry is what the next evaluation answers with. */
  lemma StaleEntryIsServed(s: State, before: seq<Step>, m: State, c: int, key: FlagKey) returns (t: State)
    requires Leads(s, before, m) && m.history != [] && c !in m.calls && ServesStale(m, key)
    ensures Leads(s, before + [Evaluate(c, key), ReadCache(c)], t) && t.calls == m.calls && t.history == m.history
    ensures t.answers != []
    ensures var r := t.answers[|t.answers| - 1];
            r.key == key && r.start == m.now && r.result == Some(m.cache[key].value)
    ensures SomeStaleAnswer(m, [Evaluate(c, key), ReadCache(c)], {}, key)
  {
    var steps;
    steps, t := Extend(s, before, m, Evaluate(c, key));
    var asked := t;
    steps, t := Extend(s, steps, t, ReadCache(c));
    assert t.calls == m.calls;
    assert steps == before + [Evaluate(c, key), ReadCache(c)];
    var tail := [Evaluate(c, key), ReadCache(c)];
    assert tail[1..] == [ReadCache(c)] && LateAfter(m, tail[0], {}) == {c};
    assert AnswersStale(asked, ReadCache(c), {c}, key);
  }

  lemma {:induction false} StaleAnswerComesLater(s: State, first: seq<Step>, m: State, tail: seq<Step>, key: FlagKey)
    requires Leads(s, first, m) && NoEvaluations(first) && SomeStaleAnswer(m, tail, {}, key)
    ensures SomeStaleAnswer(s, first + tail, {}, key)
    decreases |first|
  {
    if first == [] {
      assert first + tail == tail;
    } else {
      StaleAnswerComesLater(Do(s, first[0]), first[1..], m, tail, key);
      assert (first + tail)[1..] == first[1..] + tail;
      assert LateAfter(s, first[0], {}) == {};
    }
  }

  /** From any state with such a call in flight: after the write and its invalidation a new evaluation is
      answered with the other value. */
  lemma OpenWindowAnswersStale(s: State, c: int, key: FlagKey, value: Option<Json>) returns (rest: seq<Step>, t: State)
    requires s.history != [] && Overtakes(s, c, key, value)
    ensures NoWrites(rest) && Leads(Invalidated(s, key, value), rest, t) && SomeStaleAnswer(Invalidated(s, key, value), rest, {}, key)
    ensures t.history == Invalidated(s, key, value).history && t.answers != []
    ensures var r := t.answers[|t.answers| - 1];
            r.key == key && r.start == s.now && r.result == Prospect(s, s.calls[c])
            && r.result != Lookup(Current(t), s.defaults, key)
  {
    var m := Invalidated(s, key, value);
    var first, stale := OvertakingCallInserts(s, c, key, value);
    t := StaleEntryIsServed(m, first, stale, c, key);
    rest := first + [Evaluate(c, key), ReadCache(c)];
    StaleAnswerComesLater(m, first, stale, [Evaluate(c, key), ReadCache(c)], key);
  }

  /** After a write and its invalidation, and until the next write, an evaluation begun from then on can be
      answered otherwise than from the store if and only if the write fell into its window. */
  lemma InvalidationHoldsOutsideTheWindow(s: State, key: FlagKey, value: Option<Json>)
    requires s.history != []
    ensures CanAnswerStale(Invalidated(s, key, value), key) <==> Window(s, key, value)
  {
    var m := Invalidated(s, key, value);
    if Window(s, key, value) {
      var c :| c in s.calls && Overtakes(s, c, key, value);
      var rest, t := OpenWindowAnswersStale(s, c, key, value);
    } else {
      assert StaysCurrent(m, key, s.now, {}) by {
        forall c | c in m.calls && m.calls[c].key == key ensures CallCurrent(m, c, s.now, false) {
          assert !Overtakes(s, c, key, value);
        }
      }
      forall rest: seq<Step>, t: State | NoWrites(rest) && Leads(m, rest, t) ensures !SomeStaleAnswer(m, rest, {}, key) {
        RunStaysCurrent(m, rest, t, key, s.now, {});
      }
    }
  }

  /** A call begun before the write is not covered: it compares an entry's expiry with its own start, so it
      can be answered with a value cached since, although the window is closed. */
  lemma EarlierCallsMayStillReadIt(s: State, writer: int, reader: int, key: FlagKey, value: Option<Json>)
    returns (steps: seq<Step>, t: State)
    requires s.history != [] && writer != reader && writer in s.calls && reader in s.calls
    requires s.calls[writer].key == s.calls[reader].key == key
    requires s.calls[writer].phase.Loaded? && s.calls[reader].phase.Started?
    requires s.calls[reader].start < s.calls[writer].start + s.ttl <= s.now
    ensures !Overtakes(s, writer, key, value)
    ensures Leads(Invalidated(s, key, value), steps, t) && NoWrites(steps) && t.answers != []
    ensures var r := t.answers[|t.answers| - 1];
            r.key == key && r.start == s.calls[reader].start && r.result == Some(s.calls[writer].phase.value)
  {
    var m := Invalidated(s, key, value);
    steps, t := Extend(m, [], m, Insert(writer));
    steps, t := Extend(m, steps, t, ReadCache(reader));
  }

  /** Every write that changes an answer can find its window open, whatever the table held at first. */
  lemma WindowsOpen(s: State, key: FlagKey, value: Option<Json>) returns (steps: seq<Step>, t: State)
    requires Initial(s) && s.ttl > 0 && Lookup(Current(s), s.defaults, key).Some?
    requires Lookup(Written(Current(s), key, value), s.defaults, key) != Lookup(Current(s), s.defaults, key)
    ensures Leads(s, steps, t) && t.history == s.history && Window(t, key, value) && Agrees(t, {})
  {
    steps, t := Extend(s, [], s, Evaluate(1, key));
    steps, t := Extend(s, steps, t, ReadCache(1));
    steps, t := Extend(s, steps, t, ReadOverride(1));
    assert Overtakes(t, 1, key, value);
  }
}
