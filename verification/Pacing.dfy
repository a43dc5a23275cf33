/**
 Retries wait: every retry follows a slept-out wait for the attempt before it, no shorter than that attempt's
 retryable error requires.
 */
module Pacing {
  import opened Wrappers
  import opened Codes
  import opened Traces
  import opened Decisions
  import opened Evaluations
  import opened Profiles
  import opened Surroundings
  import opened Routes
  import opened Invariants
  import opened Runs

  /** Wait `n` was made for attempt `n.after - 1`, which may be retried, and knows what its adapter required. */
  ghost predicate WaitsFor(p: Plan, trace: seq<Attempt>, calls: seq<Call>, n: Wait) {
    && 1 <= n.after <= |trace| && n.after <= |calls|
    && var a := trace[n.after - 1];
       && a.evaluatorID == n.evaluatorID && a.attempt == n.attempt
       && n.evaluatorID in Entries(p.profile.evaluators)
       && n.attempt < EntryOf(p, n.evaluatorID).retry.maxAttempts
       && Listed(a.code, EntryOf(p, n.evaluatorID).retry.retryOn)
       && n.floor == RetryAfter(calls[n.after - 1].answer.fault)
       && n.floor <= n.delay
       && calls[n.after - 1].judged <= n.at
  }

  /** Attempt `k` began after the wait `n` for the attempt before it had been slept out. */
  ghost predicate SleptBefore(calls: seq<Call>, k: nat, n: Wait)
    requires k < |calls|
  {
    n.after == k && n.kind.Slept? && n.at + n.delay <= calls[k].start
  }

  ghost predicate Rested(calls: seq<Call>, waits: seq<Wait>, k: nat)
    requires k < |calls|
  {
    exists i :: 0 <= i < |waits| && SleptBefore(calls, k, waits[i])
  }

  ghost predicate RetriesRest(trace: seq<Attempt>, calls: seq<Call>, waits: seq<Wait>)
    requires |trace| == |calls|
  {
    forall k :: 0 <= k < |trace| && trace[k].attempt > 1 ==> Rested(calls, waits, k)
  }

  /** At most one wait for each attempt, in the order of the attempts. */
  ghost predicate InOrder(waits: seq<Wait>) {
    forall i, j :: 0 <= i < j < |waits| ==> waits[i].after < waits[j].after
  }

  ghost predicate Paced(p: Plan, x: Execution) {
    && |x.trace| == |x.world.calls|
    && (forall i :: 0 <= i < |x.world.waits| ==> WaitsFor(p, x.trace, x.world.calls, x.world.waits[i]))
    && InOrder(x.world.waits)
    && RetriesRest(x.trace, x.world.calls, x.world.waits)
    && (x.world.calls != [] ==> x.world.calls[|x.world.calls| - 1].judged <= x.world.now)
  }

  /** Nothing has been waited for after the last attempt. */
  ghost predicate Unrested(x: Execution) {
    forall i :: 0 <= i < |x.world.waits| ==> x.world.waits[i].after < |x.trace|
  }

  /** The last wait was for the last attempt, and it is over. */
  ghost predicate Ready(x: Execution) {
    x.world.waits != [] &&
    var n := x.world.waits[|x.world.waits| - 1];
    n.after == |x.trace| && n.kind.Slept? && n.at + n.delay <= x.world.now
  }

  lemma PacedOnward(p: Plan, x: Execution, w: World)
    requires Paced(p, x) && w.calls == x.world.calls && w.waits == x.world.waits && w.now >= x.world.now
    ensures Paced(p, x.(world := w))
    ensures Ready(x) ==> Ready(x.(world := w))
  {
    hide WaitsFor, RetriesRest, InOrder;
  }

  /** What an adapter call adds to the records of the world. */
  lemma CallShape(p: Plan, w: World, e: Entry, indexes: seq<nat>)
    requires IndexesOk(p, indexes)
    ensures var c := CallAdapter(p, w, e, indexes);
      && c.world.calls == w.calls + [c.call] && c.world.waits == w.waits
      && w.now <= c.call.start && c.call.judged <= c.world.now && c.call.answer == c.answer
  {
    hide Judge, Stopped, AttemptRequest, Covers;
  }

  lemma EarlierStay(p: Plan, trace: seq<Attempt>, calls: seq<Call>, waits: seq<Wait>, a: Attempt, c: Call, n: Wait)
    requires |trace| == |calls|
    ensures WaitsFor(p, trace, calls, n) ==> WaitsFor(p, trace + [a], calls + [c], n)
    ensures forall k :: 0 <= k < |calls| && Rested(calls, waits, k) ==> Rested(calls + [c], waits, k)
  {
    if WaitsFor(p, trace, calls, n) {
      assert (trace + [a])[n.after - 1] == trace[n.after - 1] && (calls + [c])[n.after - 1] == calls[n.after - 1];
    }
    forall k | 0 <= k < |calls| && Rested(calls, waits, k) ensures Rested(calls + [c], waits, k) {
      var i :| 0 <= i < |waits| && SleptBefore(calls, k, waits[i]);
      assert (calls + [c])[k] == calls[k];
      assert SleptBefore(calls + [c], k, waits[i]);
    }
  }

  /** A recorded call keeps the pace: a first attempt needs no rest, and a retry has had it. */
  lemma RecordPaces(p: Plan, x: Execution, e: Entry, leg: Leg, indexes: seq<nat>, attempt: nat)
    requires Paced(p, x) && IndexesOk(p, indexes) && (attempt > 1 ==> Ready(x))
    ensures var y := RecordCall(x, e, leg, indexes, attempt, CallAdapter(p, x.world, e, indexes));
      Paced(p, y) && Unrested(y)
  {
    hide CallAdapter, RecordCall, Record, WaitsFor, Rested;
    var c := CallAdapter(p, x.world, e, indexes);
    var y := RecordCall(x, e, leg, indexes, attempt, c);
    var a := Record(e, leg, attempt, indexes, c.failure, c.answer.result.metadata, c.elapsed);
    RecordShape(x, e, leg, indexes, attempt, c);
    CallShape(p, x.world, e, indexes);
    var waits := x.world.waits;
    assert y.trace == x.trace + [a] && y.world.calls == x.world.calls + [c.call] && y.world.waits == waits;
    forall i | 0 <= i < |waits|
      ensures WaitsFor(p, y.trace, y.world.calls, waits[i]) && waits[i].after < |y.trace|
    {
      EarlierStay(p, x.trace, x.world.calls, waits, a, c.call, waits[i]);
      AfterBound(p, x.trace, x.world.calls, waits[i]);
    }
    forall k | 0 <= k < |y.trace| && y.trace[k].attempt > 1 ensures Rested(y.world.calls, waits, k) {
      if k < |x.trace| {
        assert y.trace[k] == x.trace[k];
        EarlierStay(p, x.trace, x.world.calls, waits, a, c.call, NO_WAIT);
      } else {
        RestedAtLast(y.world.calls, waits, k);
      }
    }
  }

  const NO_WAIT := Wait(0, "", 0, 0, 0, 0, 0, 0, Skipped)

  lemma AfterBound(p: Plan, trace: seq<Attempt>, calls: seq<Call>, n: Wait)
    requires WaitsFor(p, trace, calls, n)
    ensures n.after <= |trace|
  {
  }

  lemma RestedAtLast(calls: seq<Call>, waits: seq<Wait>, k: nat)
    requires k < |calls| && waits != [] && SleptBefore(calls, k, waits[|waits| - 1])
    ensures Rested(calls, waits, k)
  {
  }

  /** What a backoff notes and where it leaves the clock. */
  lemma BackoffShape(p: Plan, e: Entry, attempt: nat, fault: Option<Fault>, w: World)
    requires Scheduled(e.retry) && attempt >= 1
    ensures var t := Backoff(p, e, attempt, fault, w).world;
      && t.calls == w.calls && t.now >= w.now
      && (t.waits == w.waits
          || exists n :: t.waits == w.waits + [n] && NoteOf(n, w, e, attempt, fault))
    ensures Backoff(p, e, attempt, fault, w).Resume? ==>
              var t := Backoff(p, e, attempt, fault, w).world;
              && t.waits != [] && t.waits[..|t.waits| - 1] == w.waits
              && NoteOf(t.waits[|t.waits| - 1], w, e, attempt, fault)
              && t.waits[|t.waits| - 1].kind.Slept?
              && t.waits[|t.waits| - 1].at + t.waits[|t.waits| - 1].delay <= t.now
  {
    hide Stopped, BackoffMS, RetryAfter, Tick;
    var base := BackoffMS(e.retry, attempt) * MILLISECOND;
    var jittered := w.jitter(base, w.tick);
    var floor := RetryAfter(fault);
    var delay := if floor > jittered then floor else jittered;
    var stop := Stopped(Tick(w), p.request.deadline);
    if stop.code.None? {
      var clock := Tick(stop.world);
      var remaining := p.request.deadline - clock.now;
      if remaining > 0 {
        var note := Deliberate(e, attempt, base, floor, delay, remaining, clock);
        assert NoteOf(note, w, e, attempt, fault);
        assert Noted(clock, note).waits == w.waits + [note];
        assert Coming(Noted(clock, note)) == Coming(clock);
        hide Coming, NoteOf;
      }
    }
  }

  ghost predicate NoteOf(n: Wait, w: World, e: Entry, attempt: nat, fault: Option<Fault>) {
    && n.after == |w.calls| && n.evaluatorID == e.id && n.attempt == attempt
    && n.floor == RetryAfter(fault) && n.floor <= n.delay && w.now <= n.at
  }

  /** After a backoff the pace is kept, and if it says resume the next attempt may begin. */
  lemma BackoffPaces(p: Plan, x: Execution, e: Entry, attempt: nat, fault: Option<Fault>)
    requires Paced(p, x) && Unrested(x) && OnRoute(p, e) && Scheduled(e.retry)
    requires 1 <= attempt < e.retry.maxAttempts && x.trace != []
    requires var a := x.trace[|x.trace| - 1];
      a.evaluatorID == e.id && a.attempt == attempt && Listed(a.code, e.retry.retryOn)
    requires fault == x.world.calls[|x.world.calls| - 1].answer.fault
    ensures var pause := Backoff(p, e, attempt, fault, x.world);
      Paced(p, x.(world := pause.world)) && (pause.Resume? ==> Ready(x.(world := pause.world)))
  {
    hide Backoff, Listed, RetryAfter, RetryOk, MetadataOk;
    BackoffShape(p, e, attempt, fault, x.world);
    var t := Backoff(p, e, attempt, fault, x.world).world;
    if t.waits != x.world.waits {
      var n :| t.waits == x.world.waits + [n] && NoteOf(n, x.world, e, attempt, fault);
      assert WaitsFor(p, x.trace, t.calls, n);
      hide WaitsFor, NoteOf, Rested;
      forall k | 0 <= k < |t.calls| && Rested(x.world.calls, x.world.waits, k) ensures Rested(t.calls, t.waits, k) {
        MoreWaits(t.calls, x.world.waits, n, k);
      }
    }
    hide WaitsFor, Rested;
  }

  lemma MoreWaits(calls: seq<Call>, waits: seq<Wait>, n: Wait, k: nat)
    requires k < |calls| && Rested(calls, waits, k)
    ensures Rested(calls, waits + [n], k)
  {
    var i :| 0 <= i < |waits| && SleptBefore(calls, k, waits[i]);
    assert (waits + [n])[i] == waits[i];
  }

  lemma {:induction false} InvokePaces(p: Plan, x: Execution, e: Entry, leg: Leg, indexes: seq<nat>, attempt: nat)
    requires Paced(p, x) && (attempt > 1 ==> Ready(x)) && OnRoute(p, e) && IndexesOk(p, indexes)
    requires RetryOk(e.retry) && 1 <= attempt <= e.retry.maxAttempts
    ensures Paced(p, Invoke(p, x, e, leg, indexes, attempt).x)
    decreases e.retry.maxAttempts - attempt
  {
    hide Paced, Unrested, Ready, OnRoute, RetryOk, CallAdapter, RecordCall, Record, Stopped, Backoff, Covers, Transient;
    InvokeStep(p, x, e, leg, indexes, attempt);
    var stop := Stopped(x.world, p.request.deadline);
    var x0 := x.(world := stop.world);
    PacedOnward(p, x, stop.world);
    if stop.code.None? && |x.trace| < MAX_EVALUATOR_ATTEMPTS {
      var c := CallAdapter(p, stop.world, e, indexes);
      var y := RecordCall(x0, e, leg, indexes, attempt, c);
      RecordPaces(p, x0, e, leg, indexes, attempt);
      RecordShape(x0, e, leg, indexes, attempt, c);
      CallShape(p, stop.world, e, indexes);
      if c.failure.Some? && attempt < e.retry.maxAttempts && Transient(c.failure.value) in RetryOn(e.retry) {
        RetryingIsScheduled(e.retry, attempt, c.failure.value);
        BackoffPaces(p, y, e, attempt, c.answer.fault);
        var pause := Backoff(p, e, attempt, c.answer.fault, c.world);
        if pause.Resume? {
          InvokePaces(p, y.(world := pause.world), e, leg, indexes, attempt + 1);
        }
      }
    }
  }

  lemma {:induction false} ChainPaces(p: Plan, x: Execution, k: nat, indexes: seq<nat>, evidence: seq<Evidence>, code: Code)
    requires PlanOk(p) && Probed(p) && k <= |Fallbacks(p.profile.routing)|
    requires Paced(p, x) && IndexesOk(p, indexes) && |evidence| == |indexes|
    ensures Paced(p, Chain(p, x, k, indexes, evidence, code).x)
    decreases |Fallbacks(p.profile.routing)| - k
  {
    hide PlanOk, Probed, Paced, OnRoute, RetryOk, Invoke, Chain, Entries, Transient;
    ChainStep(p, x, k, indexes, evidence, code);
    var ids := Fallbacks(p.profile.routing);
    if k < |ids| && Transient(code) in FallbackOn(p.profile.routing) {
      RoutedFallbackOfPlan(p, k);
      var e := EntryOf(p, ids[k]);
      FirstAttempt(p, e);
      InvokePaces(p, x, e, FallbackLeg, indexes, 1);
      var next := Invoke(p, x, e, FallbackLeg, indexes, 1);
      if next.failure.Some? {
        ChainPaces(p, next.x, k + 1, indexes, next.evidence, next.failure.value);
      }
    }
  }

  lemma EscalatePaces(p: Plan, x: Execution, low: seq<nat>)
    requires PlanOk(p) && Probed(p) && p.profile.routing.escalation.Some? && IndexesOk(p, low) && Paced(p, x)
    ensures Paced(p, Escalate(p, x, low).x)
  {
    hide PlanOk, Probed, Paced, OnRoute, RetryOk, Invoke, Chain, Entries;
    PlannedEscalation(p);
    var e := EntryOf(p, p.profile.routing.escalation.value);
    FirstAttempt(p, e);
    InvokePaces(p, x, e, EscalationLeg, low, 1);
    var second := Invoke(p, x, e, EscalationLeg, low, 1);
    if second.failure.Some? {
      ChainPaces(p, second.x, 0, low, second.evidence, second.failure.value);
    }
  }

  lemma FirstPaces(p: Plan, x: Execution)
    requires PlanOk(p) && Probed(p) && Begins(p, x)
    ensures Paced(p, First(p, x).x)
  {
    hide PlanOk, Probed, OnRoute, RetryOk, Invoke, Entries;
    PlannedPrimary(p);
    var e := EntryOf(p, p.profile.routing.primary);
    FirstAttempt(p, e);
    InvokePaces(p, x, e, PrimaryLeg, AllIndexes(|p.request.rules|), 1);
  }

  lemma RoutePaces(p: Plan, x: Execution)
    requires PlanOk(p) && Probed(p) && Begins(p, x) && RouteAll(p, x).Some?
    ensures Paced(p, RouteAll(p, x).value.x)
  {
    hide PlanOk, Probed, Begins, Paced, First, Chain, Escalate, Overwritten, LowIndexes, Confident, Entries;
    FirstPaces(p, x);
    ConfidenceIsSetByPlan(p);
    var first := First(p, x);
    if first.x.trace != [] {
      if first.failure.Some? {
        ChainPaces(p, first.x, 0, AllIndexes(|p.request.rules|), first.evidence, first.failure.value);
      } else {
        var low := LowIndexes(p.profile.routing.confidence, first.evidence);
        if low != [] && p.profile.routing.escalation.Some? {
          EscalatePaces(p, first.x, low);
        }
      }
    }
  }

  /**
   Every wait on record was made for one attempt of its evaluator that may be retried, after that attempt was judged,
   for no less than its adapter's retryable error required; no attempt has two.
   */
  lemma WaitsAreForRetries(p: Plan, x: Execution, i: nat)
    requires PlanOk(p) && Probed(p) && Begins(p, x) && RouteAll(p, x).Some?
    requires i < |RouteAll(p, x).value.x.world.waits|
    ensures var y := RouteAll(p, x).value.x;
      && WaitsFor(p, y.trace, y.world.calls, y.world.waits[i])
      && forall j :: 0 <= j < i ==> y.world.waits[j].after < y.world.waits[i].after
  {
    hide PlanOk, Probed, Begins, RouteAll, WaitsFor, RetriesRest;
    RoutePaces(p, x);
  }

  /**
   A retry begins only after a wait, slept out, for the attempt before it, and never sooner than that attempt's
   retryable error requires.
   */
  lemma RetriesWait(p: Plan, x: Execution, k: nat)
    requires PlanOk(p) && Probed(p) && Begins(p, x) && RouteAll(p, x).Some?
    requires k < |RouteAll(p, x).value.x.trace| && RouteAll(p, x).value.x.trace[k].attempt > 1
    ensures var y := RouteAll(p, x).value.x;
      && 1 <= k && k < |y.world.calls|
      && Rested(y.world.calls, y.world.waits, k)
      && y.world.calls[k - 1].judged <= y.world.calls[k].start
      && var fault := y.world.calls[k - 1].answer.fault;
         fault.Some? && fault.value.Fault? && fault.value.retryable ==>
           y.world.calls[k - 1].judged + fault.value.retryAfter <= y.world.calls[k].start
  {
    hide PlanOk, Probed, Begins, RouteAll;
    RoutePaces(p, x);
    var y := RouteAll(p, x).value.x;
    var i :| 0 <= i < |y.world.waits| && SleptBefore(y.world.calls, k, y.world.waits[i]);
    assert WaitsFor(p, y.trace, y.world.calls, y.world.waits[i]);
  }

  /** `drawn` is what the jitter left of this wait's base. */
  ghost predicate Drew(jitter: (int, nat) -> int, n: Wait, drawn: int) {
    && n.delay == Later(n.floor, drawn)
    && exists k: nat :: drawn == jitter(n.base, k)
  }

  /**
   Exactly when a wait covers what the error of its attempt asked for: when that error is retryable, or the jitter
   alone left as much. An attempt that ran out of time is retried whatever its error, so the other case is real.
   */
  lemma RequiredWaitExactly(p: Plan, x: Execution, i: nat) returns (drawn: int)
    requires PlanOk(p) && Probed(p) && Begins(p, x) && RouteAll(p, x).Some?
    requires i < |RouteAll(p, x).value.x.world.waits|
    ensures var y := RouteAll(p, x).value.x;
      var n := y.world.waits[i];
      && Drew(x.world.jitter, n, drawn)
      && 1 <= n.after <= |y.world.calls|
      && var fault := y.world.calls[n.after - 1].answer.fault;
         fault.Some? && fault.value.Fault? ==>
           (n.delay >= fault.value.retryAfter <==> fault.value.retryable || Later(0, drawn) >= fault.value.retryAfter)
  {
    hide PlanOk, Probed, Begins, RouteAll, Paced, Budget, BackoffMS, Entries, RetryOn, Inv, Sound, SomeRuleFailed;
    WaitsAreForRetries(p, x, i);
    var n := RouteAll(p, x).value.x.world.waits[i];
    DrawnFor(p, x, i);
    var k: nat :| n.delay == Later(n.floor, x.world.jitter(n.base, k));
    drawn := x.world.jitter(n.base, k);
  }

  lemma DrawnFor(p: Plan, x: Execution, i: nat)
    requires PlanOk(p) && Probed(p) && Begins(p, x) && RouteAll(p, x).Some?
    requires i < |RouteAll(p, x).value.x.world.waits|
    ensures var n := RouteAll(p, x).value.x.world.waits[i];
      exists k: nat :: n.delay == Later(n.floor, x.world.jitter(n.base, k))
  {
    hide PlanOk, Probed, Begins, RouteAll, Inv, Sound, SomeRuleFailed;
    RouteKeeps(p, x);
    assert WaitOk(p, x.world.jitter, RouteAll(p, x).value.x.world.waits[i]);
  }
}
