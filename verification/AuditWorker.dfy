/** The audit channel, its recorder and its worker, updating their state in place. */
module AuditWorker {
  import opened Keyset
  import opened Backoff
  import opened AuditPipeline

  class Audit {
    const cfg: Config
    var senders: bool
    var running: bool
    var queue: seq<Event>
    var current: Option<Attempt>
    var table: seq<Event>
    var accepted: seq<Event>
    var settled: seq<Fate>

    constructor (cfg: Config)
      requires cfg.initialBackoff <= U64_MAX && cfg.maxRetries < U32_MAX
      ensures Initial(View()) && Inv(View()) && this.cfg == cfg
    {
      this.cfg, senders, running, queue, current := cfg, true, true, [], None;
      table, accepted, settled := [], [], [];
    }

    function View(): State
      reads this
    {
      State(cfg, senders, running, queue, current, table, accepted, settled)
    }

    /** `try_send`: never waits. */
    method Record(event: Event) returns (error: Option<RecorderError>)
      requires senders && Inv(View())
      modifies this
      ensures View() == Do(old(View()), AuditPipeline.Record(event)) && Inv(View())
      ensures error == Answer(old(View())) && error != Some(Closed)
      ensures if |old(queue)| < cfg.capacity
              then error == None && queue == old(queue) + [event] && accepted == old(accepted) + [event]
              else error == Some(ChannelFull) && queue == old(queue) && accepted == old(accepted)
      ensures table == old(table) && settled == old(settled) && current == old(current) && running && senders
    {
      StepKeepsInv(View(), AuditPipeline.Record(event));
      if !running {
        error := Some(Closed);
      } else if |queue| >= cfg.capacity {
        error := Some(ChannelFull);
      } else {
        queue, accepted := queue + [event], accepted + [event];
        error := None;
      }
    }

    /** Writes the event just received. Its first `failing` inserts fail; `waited` is the time slept. */
    method WriteWithRetry(event: Event, failing: nat) returns (waited: nat, ghost steps: seq<Step>)
      requires running && current == Some(Attempt(event, 0, cfg.initialBackoff, 0))
      modifies this
      ensures Leads(old(View()), steps, View())
      ensures waited == TotalPause(cfg.initialBackoff, if failing <= cfg.maxRetries then failing else cfg.maxRetries)
      ensures View() == old(View()).(
                current := None,
                table := if failing <= cfg.maxRetries then old(table) + [event] else old(table),
                settled := old(settled) + [if failing <= cfg.maxRetries then Fate(event, true, failing, waited)
                                           else Fate(event, false, cfg.maxRetries + 1, waited)])
    {
      ghost var s := View();
      steps, waited := [], 0;
      var attempt, backoffMs := 0, cfg.initialBackoff;
      while true
        invariant attempt <= cfg.maxRetries && attempt <= failing
        invariant View() == s.(current := Some(Attempt(event, attempt, backoffMs, waited)))
        invariant backoffMs == Pause(cfg.initialBackoff, attempt) && waited == TotalPause(cfg.initialBackoff, attempt)
        invariant Leads(s, steps, View())
        decreases cfg.maxRetries - attempt
      {
        ghost var m := View();
        if attempt >= failing {
          table, current := table + [event], None;
          settled := settled + [Fate(event, true, attempt, waited)];
          steps := Extend(s, steps, m, InsertOk, View());
          return;
        }
        attempt := attempt + 1;
        if attempt > cfg.maxRetries {
          current := None;
          settled := settled + [Fate(event, false, attempt, waited)];
          steps := Extend(s, steps, m, InsertFails, View());
          return;
        }
        waited := waited + backoffMs;
        backoffMs := Saturate(backoffMs * 4);
        current := Some(Attempt(event, attempt, backoffMs, waited));
        steps := Extend(s, steps, m, InsertFails, View());
      }
    }

    /** The worker's loop once every sender is gone: drain the queue, then stop. `failing` tells how many
        inserts of an event fail. */
    method Run(failing: Event -> nat) returns (ghost steps: seq<Step>)
      requires running && !senders && current.None? && Inv(View())
      modifies this
      ensures Leads(old(View()), steps, View()) && Inv(View())
      ensures !running && queue == [] && accepted == old(accepted) == Events(settled)
    {
      ghost var s := View();
      steps := [];
      while queue != []
        invariant running && !senders && current.None? && accepted == s.accepted
        invariant Leads(s, steps, View()) && Inv(View())
        decreases |queue|
      {
        steps := RunOnce(failing, s, steps);
      }
      ghost var m := View();
      running := false;
      StepKeepsInv(m, Stop);
      steps := Extend(s, steps, m, Stop, View());
      assert Events(settled) + [] + [] == Events(settled);
    }

    /** One turn of `Run`: receive and write. */
    method RunOnce(failing: Event -> nat, ghost s: State, ghost before: seq<Step>) returns (ghost steps: seq<Step>)
      requires running && current.None? && queue != [] && Leads(s, before, View()) && Inv(View())
      modifies this
      ensures Leads(s, steps, View()) && Inv(View())
      ensures running && current.None? && queue == old(queue)[1..] && senders == old(senders) && accepted == old(accepted)
    {
      ghost var m := View();
      var event := queue[0];
      queue, current := queue[1..], Some(Attempt(event, 0, cfg.initialBackoff, 0));
      ghost var received := Extend(s, before, m, Receive, View());
      m := View();
      var waited;
      ghost var written;
      waited, written := WriteWithRetry(event, failing(event));
      steps := Join(s, received, m, written, View());
      StepKeepsInv(old(View()), Receive);
      RunKeepsInv(m, written, View());
    }
  }

  lemma {:induction false} Join(s: State, first: seq<Step>, m: State, second: seq<Step>, t: State) returns (both: seq<Step>)
    requires Leads(s, first, m) && Leads(m, second, t)
    ensures both == first + second && Leads(s, both, t)
    decreases |first|
  {
    both := first + second;
    if first == [] {
      assert both == second;
    } else {
      assert both[1..] == first[1..] + second;
      var rest := Join(Do(s, first[0]), first[1..], m, second, t);
    }
  }
}
