/**
 A run that retries sooner than its adapter asked: one whose attempts all run out of time with an error that is not
 retryable and yet asks for a wait. Its retries need no permission from the error, and do not wait for it.
 */
module Haste {
  import opened Wrappers
  import opened Codes
  import opened Traces
  import opened CanonicalPolicy
  import opened Decisions
  import opened Evaluations
  import opened Profiles
  import opened Surroundings
  import opened Routes
  import opened Invariants
  import opened Deciding
  import opened Examples

  /** Two attempts, with no backoff between them. */
  const TWICE := RetryPolicy(2, Some([TimeoutClass]), Some(0), Some(0), Some(1.0))

  const ASKING := Fault(EvaluatorUnavailable, false, 1000000000)
  const TOO_LATE := Answer(Result([], NO_METADATA, None), Some(ASKING), true)

  /** Every interaction takes a millisecond, and every adapter answers that late. */
  function Hasty(): World {
    World((n: nat) => Moment(MILLISECOND, Quiet, TOO_LATE, false),
          (base: int, n: nat) => if base >= 0 then DefaultJitter(base, 0) else 0, 0, 0, Quiet, [], [])
  }

  /** That world after `n` interactions. */
  ghost predicate IsHasty(w: World, n: nat) {
    && w.script == Hasty().script && w.jitter == Hasty().jitter && w.signal.Quiet?
    && w.tick == n && w.now == n * MILLISECOND
  }

  lemma HastyTick(w: World, n: nat)
    requires IsHasty(w, n)
    ensures IsHasty(Tick(w), n + 1) && Tick(w).calls == w.calls
  {
  }

  lemma HastyNow(w: World, n: nat)
    requires IsHasty(w, n)
    ensures w.now == n * MILLISECOND && w.signal.Quiet? && Coming(w) == Moment(MILLISECOND, Quiet, TOO_LATE, false)
  {
  }

  lemma HastyStop(p: Plan, w: World, n: nat)
    requires IsHasty(w, n) && p.request.deadline > (n + 1) * MILLISECOND
    ensures var stop := Stopped(w, p.request.deadline);
      stop.code.None? && IsHasty(stop.world, n + 3) && stop.world.calls == w.calls
  {
    HastyTick(w, n);
    HastyTick(Tick(w), n + 1);
    HastyTick(Tick(Tick(w)), n + 2);
    HastyNow(Tick(w), n + 1);
    HastyNow(Tick(Tick(w)), n + 2);
    HastyNow(Tick(Tick(Tick(w))), n + 3);
    hide Tick, IsHasty;
  }

  lemma HastyCall(p: Plan, w: World, n: nat, e: Entry, indexes: seq<nat>)
    requires IsHasty(w, n) && IndexesOk(p, indexes) && e.timeoutMS == 1 && p.request.deadline > (n + 7) * MILLISECOND
    ensures var c := CallAdapter(p, w, e, indexes);
      && c.failure == Some(EvaluatorTimeout) && IsHasty(c.world, n + 7) && c.world.calls == w.calls + [c.call]
      && c.call.start == (n + 1) * MILLISECOND && c.call.deadline == (n + 2) * MILLISECOND == c.call.returned
      && c.call.judged == (n + 6) * MILLISECOND && c.call.answer == c.answer == TOO_LATE
  {
    hide Covers, AttemptRequest, Stopped, Tick, IsHasty, Coming;
    var begun := Tick(w);
    HastyTick(w, n);
    HastyNow(begun, n + 1);
    HastyTick(begun, n + 1);
    HastyNow(Tick(begun), n + 2);
    HastyStop(p, Tick(begun), n + 2);
    var stop := Stopped(Tick(begun), p.request.deadline).world;
    HastyTick(stop, n + 5);
    HastyNow(Tick(stop), n + 6);
    HastyTick(Tick(stop), n + 6);
    CallsDoNotMatter(Tick(Tick(stop)), n + 7, CallAdapter(p, w, e, indexes).world);
  }

  lemma CallsDoNotMatter(w: World, n: nat, v: World)
    requires IsHasty(w, n) && v == w.(calls := v.calls, waits := v.waits)
    ensures IsHasty(v, n)
  {
  }

  lemma HastyBackoff(p: Plan, w: World, n: nat, e: Entry, attempt: nat)
    requires IsHasty(w, n) && p.request.deadline > (n + 6) * MILLISECOND && attempt >= 1 && e.retry == TWICE
    ensures var pause := Backoff(p, e, attempt, Some(ASKING), w);
      pause.Resume? && IsHasty(pause.world, n + 6) && pause.world.calls == w.calls
  {
    hide BackoffMS, Stopped, Tick, IsHasty, Coming;
    BackoffSchedule(e.retry, attempt);
    NoJitter(w, n);
    HastyTick(w, n);
    HastyStop(p, Tick(w), n + 1);
    var stop := Stopped(Tick(w), p.request.deadline).world;
    HastyTick(stop, n + 4);
    var clock := Tick(stop);
    HastyNow(clock, n + 5);
    var note := Deliberate(e, attempt, 0, 0, 0, p.request.deadline - clock.now, clock);
    CallsDoNotMatter(clock, n + 5, Noted(clock, note));
    HastyNow(Noted(clock, note), n + 5);
    HastyTick(Noted(clock, note), n + 5);
    HastyNow(Tick(Noted(clock, note)), n + 6);
  }

  lemma NoJitter(w: World, n: nat)
    requires IsHasty(w, n)
    ensures w.jitter(0, w.tick) == 0
  {
  }

  /** One such attempt: it is recorded, and then the retries are used up or the backoff decides. */
  lemma HastyAttempt(p: Plan, x: Execution, n: nat, e: Entry, leg: Leg, indexes: seq<nat>, attempt: nat) returns (y: Execution)
    requires IsHasty(x.world, n) && p.request.deadline > (n + 10) * MILLISECOND && IndexesOk(p, indexes)
    requires e.timeoutMS == 1 && e.retry == TWICE && 1 <= attempt <= 2
    requires |x.trace| == |x.world.calls| < MAX_EVALUATOR_ATTEMPTS
    ensures IsHasty(y.world, n + 10) && |y.trace| == |y.world.calls| == |x.world.calls| + 1
    ensures y.world.calls[..|x.world.calls|] == x.world.calls
    ensures var c := y.world.calls[|x.world.calls|];
      && c.start == (n + 4) * MILLISECOND && c.deadline == (n + 5) * MILLISECOND == c.returned
      && c.judged == (n + 9) * MILLISECOND && c.answer == TOO_LATE
    ensures Invoke(p, x, e, leg, indexes, attempt)
         == if attempt == 2 then FailedWith(p, indexes, EvaluatorTimeout, y)
            else
              match Backoff(p, e, attempt, Some(ASKING), y.world)
              case Halt(code, w) => FailedWith(p, indexes, code, y.(world := w))
              case GiveUp(w) => FailedWith(p, indexes, EvaluatorTimeout, y.(world := w))
              case Resume(w) => Invoke(p, y.(world := w), e, leg, indexes, attempt + 1)
  {
    hide Stopped, CallAdapter, RecordCall, Record, Backoff, FailedRules, Invoke, IsHasty, IndexesOk, Covers;
    InvokeStep(p, x, e, leg, indexes, attempt);
    HastyStop(p, x.world, n);
    var stop := Stopped(x.world, p.request.deadline);
    HastyCall(p, stop.world, n + 3, e, indexes);
    var c := CallAdapter(p, stop.world, e, indexes);
    RecordShape(x.(world := stop.world), e, leg, indexes, attempt, c);
    y := RecordCall(x.(world := stop.world), e, leg, indexes, attempt, c);
  }

  /** Both attempts of an invocation that starts in a fresh state. */
  lemma HastyInvoke(p: Plan, w: World, e: Entry, leg: Leg, indexes: seq<nat>) returns (z: Execution)
    requires IsHasty(w, 1) && w.calls == [] && p.request.deadline > 27 * MILLISECOND && IndexesOk(p, indexes)
    requires e.timeoutMS == 1 && e.retry == TWICE
    ensures Invoke(p, Fresh(w), e, leg, indexes, 1) == FailedWith(p, indexes, EvaluatorTimeout, z)
    ensures z.trace != [] && |z.world.calls| == 2
    ensures z.world.calls[0].answer == TOO_LATE && z.world.calls[0].returned == z.world.calls[0].deadline
    ensures z.world.calls[0].judged == 10 * MILLISECOND && z.world.calls[1].start == 21 * MILLISECOND
  {
    hide Backoff, Invoke, FailedWith, IsHasty, IndexesOk;
    var y := HastyAttempt(p, Fresh(w), 1, e, leg, indexes, 1);
    HastyBackoff(p, y.world, 11, e, 1);
    var next := y.(world := Backoff(p, e, 1, Some(ASKING), y.world).world);
    z := HastyAttempt(p, next, 17, e, leg, indexes, 2);
    assert z.world.calls[0] == z.world.calls[..1][0];
  }

  /**
   The example, with two attempts of a millisecond each, is decided in that world; its first attempt was answered
   at its deadline with an error that asks for a second, and its second attempt starts eleven milliseconds after the
   first was judged.
   */
  lemma SoonerThanAsked(hash: string -> Sum)
    ensures var outcome := Run(Example(1, TWICE, hash), Hasty(), hash);
      && outcome.Decided?
      && var calls := outcome.report.x.world.calls;
         && |calls| == 2 && calls[0].answer.fault == Some(ASKING) && calls[0].returned == calls[0].deadline
         && calls[1].start == calls[0].judged + 11 * MILLISECOND < calls[0].judged + ASKING.retryAfter
  {
    hide Run, PlanOf, Example, ExampleProfile, Stopped, PlanOk, Probed, Decide, Terminal, RouteAll, IsHasty, Tick, Hasty;
    var input, w := Example(1, TWICE, hash), Hasty();
    HastyStart();
    HastyTick(w, 0);
    HastyNow(Tick(w), 1);
    ExamplePlan(1, TWICE, Tick(w).now, hash);
    var p := PlanOf(input, Tick(w).now, hash);
    HastyStop(p, Tick(w), 1);
    ExampleIsDecided(1, TWICE, w, hash);
    DecidedParts(input, w, hash);
    HastyRoute(p, Tick(w));
  }

  lemma HastyStart()
    ensures IsHasty(Hasty(), 0) && Calm(Hasty()) && Hasty().signal.Quiet?
  {
  }

  lemma HastyRoute(p: Plan, w: World)
    requires IsHasty(w, 1) && w.calls == [] && p.request.deadline > 27 * MILLISECOND && PlanOk(p)
    requires p.profile == ExampleProfile(1, TWICE)
    ensures RouteAll(p, Fresh(w)).Some?
    ensures var calls := RouteAll(p, Fresh(w)).value.x.world.calls;
      && |calls| == 2 && calls[0].answer == TOO_LATE && calls[0].returned == calls[0].deadline
      && calls[0].judged == 10 * MILLISECOND && calls[1].start == 21 * MILLISECOND
  {
    hide PlanOk, Invoke, Chain, IsHasty, Entries, FailedRules;
    PrimaryIsPlanned(p);
    ExampleEntries(ExampleEntry(1, TWICE));
    var e, all := EntryOf(p, p.profile.routing.primary), AllIndexes(|p.request.rules|);
    var z := HastyInvoke(p, w, e, PrimaryLeg, all);
    var first := First(p, Fresh(w));
    ChainStep(p, first.x, 0, all, first.evidence, EvaluatorTimeout);
  }
}
