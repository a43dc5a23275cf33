/** Why a run fails: every failure a run ends with has its cause on record. */
module Causes {
  import opened Wrappers
  import opened Codes
  import opened Traces
  import opened Decisions
  import opened Evaluations
  import opened Profiles
  import opened Surroundings
  import opened Routes
  import opened Invariants
  import opened Runs

  ghost predicate WasInterrupted(w: World) {
    w.waits != [] && w.waits[|w.waits| - 1].kind.Interrupted?
  }

  /**
   A cancellation means that the context was seen to end or the last sleep was cut short, an exceeded deadline that it
   was passed or the context said so, and an attempt limit that it was reached; any other code is the last attempt's own.
   */
  ghost predicate Caused(p: Plan, x: Execution, code: Code) {
    match code
    case Cancelled => !x.world.signal.Quiet? || WasInterrupted(x.world)
    case DeadlineExceeded => x.world.now >= p.request.deadline || x.world.signal.DeadlineSignal?
    case AttemptLimit => |x.trace| >= MAX_EVALUATOR_ATTEMPTS
    case _ => x.trace != [] && x.trace[|x.trace| - 1].code == code
  }

  lemma CallTells(p: Plan, w: World, e: Entry, indexes: seq<nat>)
    requires IndexesOk(p, indexes)
    ensures var c := CallAdapter(p, w, e, indexes);
      && (c.failure == Some(Cancelled) ==> !c.world.signal.Quiet?)
      && (c.failure == Some(DeadlineExceeded) ==> c.world.now >= p.request.deadline || c.world.signal.DeadlineSignal?)
      && c.failure != Some(AttemptLimit)
  {
    hide Stopped, AttemptRequest, Covers, ResultOk, MetadataMatches, Coming, Lent, Classify;
    var begun := Tick(w);
    var answer := Coming(begun).answer;
    StopTells(Tick(begun), p.request.deadline);
    if answer.fault.Some? {
      ClassifiedCode(answer.fault.value);
    }
  }

  lemma BackoffTells(p: Plan, e: Entry, attempt: nat, fault: Option<Fault>, w: World)
    requires Scheduled(e.retry) && attempt >= 1
    ensures var pause := Backoff(p, e, attempt, fault, w);
      && (pause.Halt? && pause.code == Cancelled ==> !pause.world.signal.Quiet? || WasInterrupted(pause.world))
      && (pause.Halt? && pause.code == DeadlineExceeded ==>
            pause.world.now >= p.request.deadline || pause.world.signal.DeadlineSignal?)
      && (pause.Halt? ==> pause.code in {Cancelled, DeadlineExceeded})
  {
    hide Stopped, BackoffMS, RetryAfter, Tick, Coming;
    var base := BackoffMS(e.retry, attempt) * MILLISECOND;
    var jittered := w.jitter(base, w.tick);
    var floor := RetryAfter(fault);
    var delay := if floor > jittered then floor else jittered;
    var stop := Stopped(Tick(w), p.request.deadline);
    StopTells(Tick(w), p.request.deadline);
    if stop.code.None? {
      var clock := Tick(stop.world);
      var remaining := p.request.deadline - clock.now;
      if remaining > 0 {
        var note := Deliberate(e, attempt, base, floor, delay, remaining, clock);
        if note.kind.Interrupted? {
          StopTells(Sleep(Noted(clock, note), note.delay), p.request.deadline);
        }
      }
    }
  }

  lemma {:induction false} InvokeCaused(p: Plan, x: Execution, e: Entry, leg: Leg, indexes: seq<nat>, attempt: nat)
    requires RetryOk(e.retry) && IndexesOk(p, indexes) && 1 <= attempt <= e.retry.maxAttempts
    ensures var r := Invoke(p, x, e, leg, indexes, attempt);
      r.failure.Some? ==> Caused(p, r.x, r.failure.value)
    decreases e.retry.maxAttempts - attempt
  {
    hide RetryOk, CallAdapter, RecordCall, Record, Stopped, Backoff, Covers, Invoke, FailedRules, WasInterrupted;
    InvokeStep(p, x, e, leg, indexes, attempt);
    StopTells(x.world, p.request.deadline);
    var stop := Stopped(x.world, p.request.deadline);
    var x0 := x.(world := stop.world);
    if stop.code.None? && |x.trace| < MAX_EVALUATOR_ATTEMPTS {
      var c := CallAdapter(p, stop.world, e, indexes);
      var y := RecordCall(x0, e, leg, indexes, attempt, c);
      RecordShape(x0, e, leg, indexes, attempt, c);
      CallTells(p, stop.world, e, indexes);
      if c.failure.Some? && attempt < e.retry.maxAttempts && Transient(c.failure.value) in RetryOn(e.retry) {
        RetryingIsScheduled(e.retry, attempt, c.failure.value);
        BackoffTells(p, e, attempt, c.answer.fault, c.world);
        var pause := Backoff(p, e, attempt, c.answer.fault, c.world);
        if pause.Resume? {
          InvokeCaused(p, y.(world := pause.world), e, leg, indexes, attempt + 1);
        }
      }
    }
  }

  lemma {:induction false} ChainCaused(p: Plan, x: Execution, k: nat, indexes: seq<nat>, evidence: seq<Evidence>, code: Code)
    requires PlanOk(p) && Probed(p) && k <= |Fallbacks(p.profile.routing)|
    requires IndexesOk(p, indexes) && |evidence| == |indexes| && Caused(p, x, code)
    ensures var r := Chain(p, x, k, indexes, evidence, code); r.failure.Some? ==> Caused(p, r.x, r.failure.value)
    decreases |Fallbacks(p.profile.routing)| - k
  {
    hide PlanOk, Probed, OnRoute, RetryOk, Invoke, Chain, Entries, Transient, Caused;
    ChainStep(p, x, k, indexes, evidence, code);
    var ids := Fallbacks(p.profile.routing);
    if k < |ids| && Transient(code) in FallbackOn(p.profile.routing) {
      RoutedFallbackOfPlan(p, k);
      var e := EntryOf(p, ids[k]);
      FirstAttempt(p, e);
      InvokeCaused(p, x, e, FallbackLeg, indexes, 1);
      var next := Invoke(p, x, e, FallbackLeg, indexes, 1);
      if next.failure.Some? {
        ChainCaused(p, next.x, k + 1, indexes, next.evidence, next.failure.value);
      }
    }
  }

  lemma FirstCaused(p: Plan, x: Execution)
    requires PlanOk(p) && Probed(p) && Begins(p, x)
    ensures First(p, x).failure.Some? ==> Caused(p, First(p, x).x, First(p, x).failure.value)
  {
    hide PlanOk, Probed, OnRoute, RetryOk, Invoke, Entries, Caused;
    PlannedPrimary(p);
    var e := EntryOf(p, p.profile.routing.primary);
    FirstAttempt(p, e);
    InvokeCaused(p, x, e, PrimaryLeg, AllIndexes(|p.request.rules|), 1);
  }

  lemma EscalateCaused(p: Plan, x: Execution, low: seq<nat>)
    requires PlanOk(p) && Probed(p) && p.profile.routing.escalation.Some? && IndexesOk(p, low)
    ensures var r := Escalate(p, x, low); r.failure.Some? ==> Caused(p, r.x, r.failure.value)
  {
    hide PlanOk, Probed, OnRoute, RetryOk, Invoke, Chain, Entries, Caused;
    PlannedEscalation(p);
    var e := EntryOf(p, p.profile.routing.escalation.value);
    FirstAttempt(p, e);
    InvokeCaused(p, x, e, EscalationLeg, low, 1);
    var second := Invoke(p, x, e, EscalationLeg, low, 1);
    if second.failure.Some? {
      ChainCaused(p, second.x, 0, low, second.evidence, second.failure.value);
    }
  }

  /** Every failure a run ends with has its cause. */
  lemma FailureHasCause(p: Plan, x: Execution)
    requires PlanOk(p) && Probed(p) && Begins(p, x) && RouteAll(p, x).Some?
    ensures var r := RouteAll(p, x).value; r.failure.Some? ==> Caused(p, r.x, r.failure.value)
  {
    hide PlanOk, Probed, Begins, Caused, First, Chain, Escalate, Overwritten, LowIndexes, Confident, Entries;
    FirstCaused(p, x);
    ConfidenceIsSetByPlan(p);
    var first := First(p, x);
    if first.x.trace != [] {
      if first.failure.Some? {
        ChainCaused(p, first.x, 0, AllIndexes(|p.request.rules|), first.evidence, first.failure.value);
      } else {
        var low := LowIndexes(p.profile.routing.confidence, first.evidence);
        if low != [] && p.profile.routing.escalation.Some? {
          EscalateCaused(p, first.x, low);
        }
      }
    }
  }
}
