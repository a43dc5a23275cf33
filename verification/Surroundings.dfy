/**
 Everything a run does not control: the clock, cancellation, the jitter, sleeping
 and the adapters. A world is a script of what happens at each interaction, so a
 statement about every world is a statement about every behaviour of all of them.
 Times are nanoseconds. The clock never goes back and a context error stays set.
 */
module Surroundings {
  import opened Wrappers
  import opened Codes
  import opened Evaluations
  import opened Profiles

  /** The error of the run's context. */
  datatype Signal = Quiet | CancelSignal | DeadlineSignal

  /** One adapter's return, and whether the attempt's own context had expired by then. */
  datatype Answer = Answer(result: Result, fault: Option<Fault>, expired: bool)

  /** What happens at one interaction: time passes, the context may end, and an answer or a sleep is ready. */
  datatype Moment = Moment(advance: nat, signal: Signal, answer: Answer, sleepFails: bool)

  /**
   A record of one call of an adapter: what it was asked and given, the last clock reading made to judge its answer,
   the context error seen before that, and the clock reading after it.
   */
  datatype Call = Call(start: int, deadline: int, returned: int, judged: int, ended: int, signal: Signal,
                       adapter: Component, request: Request, given: Option<string>, answer: Answer)

  datatype WaitKind = Skipped | Slept | Interrupted

  /** A record of one backoff decision, made after `after` calls at time `at` with `remaining` left of the budget. */
  datatype Wait = Wait(after: nat, evaluatorID: string, attempt: nat, base: int, floor: int, delay: int, at: int, remaining: int, kind: WaitKind)

  datatype World = World(script: nat -> Moment, jitter: (int, nat) -> int, tick: nat, now: int, signal: Signal,
                         calls: seq<Call>, waits: seq<Wait>)

  function Coming(w: World): Moment {
    w.script(w.tick)
  }

  /** One interaction. */
  function Tick(w: World): (t: World)
    ensures t.now >= w.now
    ensures w.signal != Quiet ==> t.signal == w.signal
    ensures t.calls == w.calls && t.waits == w.waits && t.jitter == w.jitter
  {
    w.(tick := w.tick + 1, now := w.now + Coming(w).advance,
       signal := if w.signal.Quiet? then Coming(w).signal else w.signal)
  }

  /** A sleep that is not cut short takes at least what was asked. */
  function Sleep(w: World, delay: int): (t: World)
    requires delay >= 0
    ensures t.now >= w.now
    ensures !Coming(w).sleepFails ==> t.now >= w.now + delay
    ensures t.calls == w.calls && t.waits == w.waits && t.jitter == w.jitter
  {
    if Coming(w).sleepFails then Tick(w) else Tick(w).(now := Tick(w).now + delay)
  }

  /** A code, or none to go on, and the world after asking. */
  datatype Check = Check(code: Option<Code>, world: World)

  /** execution.stopped: one clock reading, then up to two readings of the context. */
  function Stopped(w: World, deadline: int): (c: Check)
    ensures c.world.now >= w.now
    ensures c.code.Some? ==> c.code.value == DeadlineExceeded || c.code.value == Cancelled
    ensures c.code.None? ==> c.world.signal.Quiet?
    ensures c.world.calls == w.calls && c.world.waits == w.waits && c.world.jitter == w.jitter
  {
    var clock := Tick(w);
    if clock.now >= deadline then Check(Some(DeadlineExceeded), clock)
    else
      var first := Tick(clock);
      if first.signal.DeadlineSignal? then Check(Some(DeadlineExceeded), first)
      else
        var second := Tick(first);
        if !second.signal.Quiet? then Check(Some(Cancelled), second) else Check(None, second)
  }
}
