/** What every accepted run guarantees, for all adapters, clocks, jitters and cancellations. */
module RunTheorems {
  import opened Wrappers
  import opened Codes
  import opened Traces
  import opened Decisions
  import opened Evaluations
  import opened Profiles
  import opened Surroundings
  import opened Routes
  import opened Invariants
  import opened Runs

  /** The trace of every run obeys the grammar. */
  lemma EveryTraceIsGrammatical(p: Plan, x: Execution)
    requires PlanOk(p) && Probed(p) && Begins(p, x) && RouteAll(p, x).Some?
    ensures Grammar(p, RouteAll(p, x).value.x.trace)
    ensures RouteAll(p, x).value.x.trace != []
  {
    hide PlanOk, Probed, Begins, RouteAll, Grammar, Timely, Aligned, Summarised, LastOk, Budget, Sound;
    RouteKeeps(p, x);
  }

  /**
   At most 64 attempts; usage and trace correspond record by record, each record being what its own
   adapter reported if that was in order; the route and the fallback flag are the trace's own.
   */
  lemma EveryRunIsAccounted(p: Plan, x: Execution)
    requires PlanOk(p) && Probed(p) && Begins(p, x) && RouteAll(p, x).Some?
    ensures var y := RouteAll(p, x).value.x;
      && |y.usage| == |y.trace| <= MAX_EVALUATOR_ATTEMPTS
      && |y.world.calls| == |y.trace|
      && (forall i :: 0 <= i < |y.usage| ==>
            y.usage[i] == UsageRecord(i, y.world.calls[i].answer) && UsageOk(y.usage[i].usage))
      && (y.usageEnabled <==> AnyReported(y.world.calls))
      && y.route == Collapsed(y.trace)
      && (y.fallback <==> AnyFallback(y.trace))
  {
    hide PlanOk, Probed, Begins, RouteAll, Grammar, Timely, LastOk, Budget, Sound, UsageOk, Accounted, Collapsed, AnyFallback,
         AnyReported;
    RouteKeeps(p, x);
    forall i | 0 <= i < |RouteAll(p, x).value.x.usage| ensures UsageOk(RouteAll(p, x).value.x.usage[i].usage) {
      AccountedIsOk(RouteAll(p, x).value.x.world.calls[i].answer.result.usage);
    }
  }

  /**
   No late evidence: an attempt counts as succeeded exactly when it was judged before its own
   deadline, which never passes the run's, with no context error seen and a valid result.
   */
  lemma NoLateEvidence(p: Plan, x: Execution, i: nat)
    requires PlanOk(p) && Probed(p) && Begins(p, x) && RouteAll(p, x).Some?
    requires i < |RouteAll(p, x).value.x.trace|
    ensures var y := RouteAll(p, x).value.x;
      && |y.world.calls| == |y.trace| && CallOk(p, y.trace[i], y.world.calls[i])
      && y.world.calls[i].deadline <= p.request.deadline
      && (y.trace[i].code == Succeeded <==>
            && y.world.calls[i].judged < y.world.calls[i].deadline
            && y.world.calls[i].signal.Quiet? && !y.world.calls[i].answer.expired && y.world.calls[i].answer.fault.None?
            && ResultOk(y.world.calls[i].request, y.world.calls[i].answer.result)
            && IsFrom(EntryOf(p, y.trace[i].evaluatorID), y.world.calls[i].answer.result.metadata))
  {
    hide PlanOk, Probed, Begins, RouteAll, Grammar, Aligned, Summarised, LastOk, Budget, Sound, ResultOk, IsFrom, Asks, Names,
         Entries;
    RouteKeeps(p, x);
    var y := RouteAll(p, x).value.x;
    assert CallOk(p, y.trace[i], y.world.calls[i]);
  }

  /** Every sleep fits what was left when it was asked for, and together they fit the timeout. */
  lemma WaitsFitTheBudget(p: Plan, x: Execution)
    requires PlanOk(p) && Probed(p) && Begins(p, x) && RouteAll(p, x).Some?
    ensures var w := RouteAll(p, x).value.x.world;
      && (forall i :: 0 <= i < |w.waits| ==> WaitOk(p, x.world.jitter, w.waits[i]))
      && Spent(w.waits) < p.profile.totalTimeoutMS * MILLISECOND
  {
    RouteKeeps(p, x);
    DeadlineWithinTimeout(p);
    hide PlanOk, Probed, Begins, RouteAll, Inv, Sound, WaitOk, SomeRuleFailed;
  }

  lemma DeadlineWithinTimeout(p: Plan)
    requires PlanOk(p)
    ensures p.request.deadline <= p.started + p.profile.totalTimeoutMS * MILLISECOND && p.profile.totalTimeoutMS >= 1
  {
  }

  /**
   With the default jitter a wait is at least half of the scheduled backoff and at most all of it,
   unless its floor is longer; the backoff itself never passes the evaluator's cap.
   */
  lemma DefaultWaits(p: Plan, jitter: (int, nat) -> int, w: Wait)
    requires ValidProfile(p.profile) && WaitOk(p, jitter, w)
    requires EntryOf(p, w.evaluatorID).retry.maxAttempts > 1
    requires forall base, k :: base >= 0 ==> exists draw :: 0 <= draw <= base - base / 2 && jitter(base, k) == DefaultJitter(base, draw)
    ensures w.base / 2 <= w.delay && (w.delay <= w.base || w.delay == w.floor)
    ensures 0 <= w.base <= EntryOf(p, w.evaluatorID).retry.maxBackoffMS.value * MILLISECOND
  {
    hide ValidProfile, BackoffMS, Entries;
    var e := EntryOf(p, w.evaluatorID);
    DeclaredRetries(p.profile, w.evaluatorID);
    BackoffSchedule(e.retry, w.attempt);
    var k: nat :| w.delay == Later(w.floor, jitter(w.base, k));
    assert w.base >= 0;
    var draw :| 0 <= draw <= w.base - w.base / 2 && jitter(w.base, k) == DefaultJitter(w.base, draw);
  }

  lemma DeclaredRetries(p: Profile, id: string)
    requires ValidProfile(p) && id in Entries(p.evaluators)
    ensures RetryOk(Entries(p.evaluators)[id].retry)
  {
    hide Entries, EntryOk, RoutingOk;
    var i :| 0 <= i < |p.evaluators| && p.evaluators[i] == Entries(p.evaluators)[id];
    RetryOfEntry(p.evaluators[i], p);
  }

  /** The evidence handed to the reducer: one valid piece per policy rule in policy order, each trustworthy. */
  lemma EvidenceCovers(p: Plan, x: Execution)
    requires PlanOk(p) && Probed(p) && Begins(p, x) && RouteAll(p, x).Some?
    ensures var evidence := RouteAll(p, x).value.evidence;
      && |evidence| == |p.policy.rules|
      && forall i :: 0 <= i < |evidence| ==>
           && evidence[i].ruleID == p.policy.rules[i].id
           && EvidenceOk(evidence[i])
           && Safe(p.profile.routing.confidence, evidence[i])
  {
    hide PlanOk, Probed, Begins, RouteAll, Inv, Budget, EvidenceOk, Safe, SomeRuleFailed;
    RouteKeeps(p, x);
    PlannedRules(p);
  }

  lemma PlannedRules(p: Plan)
    requires PlanOk(p)
    ensures |p.request.rules| == |p.policy.rules|
    ensures forall i :: 0 <= i < |p.policy.rules| ==> p.request.rules[i].id == p.policy.rules[i].id
  {
  }

  /** The rules sent on: the low results of a primary that succeeded, when there is an escalation to send them to. */
  ghost predicate SentOnLow(p: Plan, first: Invocation, escalated: seq<nat>)
    requires p.profile.routing.confidence.enabled ==> p.profile.routing.confidence.minimumAccepted.Some?
  {
    && StrictlyIncreasing(escalated, |first.evidence|)
    && forall i: nat :: i in escalated <==>
         && i < |first.evidence| && first.failure.None? && p.profile.routing.escalation.Some?
         && IsLow(p.profile.routing.confidence, first.evidence[i])
  }

  /** What each rule's evidence is when the primary succeeded: kept as it was, or replaced by what the escalation settled. */
  ghost predicate KeptOrReplaced(c: Confidence, first: Invocation, r: Routed, settled: Invocation)
    requires c.enabled ==> c.minimumAccepted.Some?
  {
    && |r.evidence| == |first.evidence| && |settled.evidence| == |r.escalated|
    && (forall i: nat :: i < |r.evidence| && i !in r.escalated ==> r.evidence[i] == Confident(c, first.evidence)[i])
    && forall k :: 0 <= k < |r.escalated| ==>
         r.escalated[k] < |r.evidence| && r.evidence[r.escalated[k]] == settled.evidence[k]
  }

  /**
   Which invocation each piece belongs to. Rules are escalated exactly when the primary succeeded, an escalation is
   configured and some non-failed results are below the threshold, and then exactly those rules; every other
   result stays the primary's own, and each escalated one is the settled escalation's.
   */
  lemma EvidenceIsPreserved(p: Plan, x: Execution)
    requires PlanOk(p) && RouteAll(p, x).Some?
    ensures p.profile.routing.confidence.enabled ==> p.profile.routing.confidence.minimumAccepted.Some?
    ensures SentOnLow(p, First(p, x), RouteAll(p, x).value.escalated)
    ensures var r, first := RouteAll(p, x).value, First(p, x);
      if first.failure.Some? then
        r.evidence == Chain(p, first.x, 0, AllIndexes(|p.request.rules|), first.evidence, first.failure.value).evidence
      else if r.escalated == [] then KeptOrReplaced(p.profile.routing.confidence, first, r, Invocation([], None, first.x))
      else
        && p.profile.routing.escalation.Some? && IndexesOk(p, r.escalated)
        && var settled := Escalate(p, first.x, r.escalated);
           r.failure == settled.failure && KeptOrReplaced(p.profile.routing.confidence, first, r, settled)
  {
    hide PlanOk, First, Chain, Escalate, LowIndexes, IsLow, Confident, Overwritten, KeptOrReplaced;
    ConfidenceIsSetByPlan(p);
    var c, first, r := p.profile.routing.confidence, First(p, x), RouteAll(p, x).value;
    LowIsExact(c, first.evidence);
    var low := LowIndexes(c, first.evidence);
    if first.failure.None? {
      if low != [] && p.profile.routing.escalation.Some? {
        ReplacedWhereLow(c, first, low, Escalate(p, first.x, low), r);
      } else {
        AllKept(c, first, r);
      }
    }
  }

  lemma ReplacedWhereLow(c: Confidence, first: Invocation, low: seq<nat>, settled: Invocation, r: Routed)
    requires c.enabled ==> c.minimumAccepted.Some?
    requires StrictlyIncreasing(low, |first.evidence|) && |settled.evidence| == |low|
    requires r.escalated == low && r.evidence == Overwritten(Confident(c, first.evidence), low, settled.evidence)
    ensures KeptOrReplaced(c, first, r, settled)
  {
    hide Confident, Overwritten;
    OverwrittenAt(Confident(c, first.evidence), low, settled.evidence);
  }

  lemma AllKept(c: Confidence, first: Invocation, r: Routed)
    requires c.enabled ==> c.minimumAccepted.Some?
    requires r.escalated == [] && r.evidence == Confident(c, first.evidence)
    ensures KeptOrReplaced(c, first, r, Invocation([], None, first.x))
  {
  }

  // Nothing is given up early

  ghost predicate TooLong(w: World, id: string, attempt: nat) {
    w.waits != [] && var last := w.waits[|w.waits| - 1];
    last.kind.Skipped? && last.evaluatorID == id && last.attempt == attempt
  }

  /** A failure the evaluator retries on is final only at its attempt limit or when the wait would not fit the budget. */
  lemma {:induction false} InvokePersists(p: Plan, x: Execution, e: Entry, leg: Leg, indexes: seq<nat>, attempt: nat)
    requires RetryOk(e.retry) && IndexesOk(p, indexes) && 1 <= attempt <= e.retry.maxAttempts
    ensures var r := Invoke(p, x, e, leg, indexes, attempt);
      r.failure.Some? && Listed(r.failure.value, e.retry.retryOn) ==>
        && r.x.trace != []
        && var a := r.x.trace[|r.x.trace| - 1];
           a.attempt == e.retry.maxAttempts || TooLong(r.x.world, e.id, a.attempt)
    decreases e.retry.maxAttempts - attempt
  {
    hide RetryOk, CallAdapter, RecordCall, Record, Stopped, Backoff, TooLong, Covers, Invoke, FailedRules;
    InvokeStep(p, x, e, leg, indexes, attempt);
    var stop := Stopped(x.world, p.request.deadline);
    var x0 := x.(world := stop.world);
    ListedOnly(e.retry);
    if stop.code.None? && |x.trace| < MAX_EVALUATOR_ATTEMPTS {
      var c := CallAdapter(p, stop.world, e, indexes);
      var y := RecordCall(x0, e, leg, indexes, attempt, c);
      RecordShape(x0, e, leg, indexes, attempt, c);
      assert y.trace[|x.trace|] == Record(e, leg, attempt, indexes, c.failure, c.answer.result.metadata, c.elapsed);
      if c.failure.Some? && attempt < e.retry.maxAttempts && Transient(c.failure.value) in RetryOn(e.retry) {
        RetryingIsScheduled(e.retry, attempt, c.failure.value);
        PauseMeans(p, e, attempt, c.answer.fault, c.world);
        var pause := Backoff(p, e, attempt, c.answer.fault, c.world);
        if pause.Resume? {
          InvokePersists(p, y.(world := pause.world), e, leg, indexes, attempt + 1);
        }
      }
    }
  }

  lemma ListedOnly(r: RetryPolicy)
    requires RetryOk(r)
    ensures forall c :: c in RetryOn(r) ==> !c.UnlistedClass?
  {
  }

  lemma PauseMeans(p: Plan, e: Entry, attempt: nat, fault: Option<Fault>, w: World)
    requires Scheduled(e.retry) && attempt >= 1
    ensures var pause := Backoff(p, e, attempt, fault, w);
      && (pause.Halt? ==> pause.code == DeadlineExceeded || pause.code == Cancelled)
      && (pause.GiveUp? ==> TooLong(pause.world, e.id, attempt))
  {
    hide Stopped, BackoffMS, RetryAfter, Tick, Sleep;
  }

  /** A failure the profile falls back on is final only when every fallback has been tried. */
  lemma {:induction false} ChainPersists(p: Plan, x: Execution, k: nat, indexes: seq<nat>, evidence: seq<Evidence>, code: Code)
    requires PlanOk(p) && Probed(p) && k <= |Fallbacks(p.profile.routing)|
    requires Inv(p, x) && Budget(p, x.world) && x.trace != [] && StrictlyIncreasing(indexes, |p.request.rules|)
    requires Operational(code) && |evidence| == |indexes|
    requires IsTransient(code) ==> Paid(p, x.world) && Continues(p, x, k, indexes, code)
    ensures var r := Chain(p, x, k, indexes, evidence, code);
      r.failure.Some? && Listed(r.failure.value, p.profile.routing.fallbackOn) ==>
        Continues(p, r.x, |Fallbacks(p.profile.routing)|, indexes, r.failure.value)
    decreases |Fallbacks(p.profile.routing)| - k
  {
    hide PlanOk, Probed, Inv, Budget, Paid, Covers, Invoke, OnRoute, Follows, Kept, RetryOk, Entries;
    var ids := Fallbacks(p.profile.routing);
    ConfidenceIsSetByPlan(p);
    PlannedFallbacks(p);
    if k < |ids| && Transient(code) in FallbackOn(p.profile.routing) {
      RoutedFallbackOfPlan(p, k);
      var e := EntryOf(p, ids[k]);
      FallbackFollows(p, x, k, indexes, code);
      FirstAttempt(p, e);
      InvokeKeeps(p, x, e, FallbackLeg, indexes, 1);
      var next := Invoke(p, x, e, FallbackLeg, indexes, 1);
      KeptMeans(p, next, e.id, FallbackLeg, indexes, x.world.jitter);
      assert ids[k..][1..] == ids[k + 1..];
      if next.failure.Some? {
        ChainPersists(p, next.x, k + 1, indexes, next.evidence, next.failure.value);
      }
    }
  }

  /** A run that ends with a failure it was configured to fall back on has tried its last fallback. */
  lemma EveryFallbackIsTried(p: Plan, x: Execution)
    requires PlanOk(p) && Probed(p) && Begins(p, x) && RouteAll(p, x).Some?
    ensures var r := RouteAll(p, x).value;
      r.failure.Some? && Listed(r.failure.value, p.profile.routing.fallbackOn) ==>
        && r.x.trace != [] && Fallbacks(p.profile.routing) != []
        && var a := r.x.trace[|r.x.trace| - 1];
           a.leg.FallbackLeg? && a.evaluatorID == Fallbacks(p.profile.routing)[|Fallbacks(p.profile.routing)| - 1]
           && a.code == r.failure.value
  {
    hide PlanOk, Probed, Begins, Inv, Budget, Paid, Covers, First, Chain, Kept, Overwritten, LowIndexes,
         Invoke, OnRoute, RetryOk, Entries, Follows;
    var c := p.profile.routing.confidence;
    var all := AllIndexes(|p.request.rules|);
    ConfidenceIsSetByPlan(p);
    FallbackOnNeedsFallbacks(p);
    FirstKeeps(p, x);
    var first := First(p, x);
    AllIncreasing(|p.request.rules|);
    KeptMeans(p, first, p.profile.routing.primary, PrimaryLeg, all, x.world.jitter);
    if first.failure.Some? {
      ChainPersists(p, first.x, 0, all, first.evidence, first.failure.value);
    } else {
      var low := LowIndexes(c, first.evidence);
      LowIsExact(c, first.evidence);
      if low != [] && p.profile.routing.escalation.Some? {
        PlannedEscalation(p);
        var e := EntryOf(p, p.profile.routing.escalation.value);
        FirstAttempt(p, e);
        EscalationFollows(p, first.x, e, low);
        InvokeKeeps(p, first.x, e, EscalationLeg, low, 1);
        var second := Invoke(p, first.x, e, EscalationLeg, low, 1);
        KeptMeans(p, second, e.id, EscalationLeg, low, x.world.jitter);
        if second.failure.Some? {
          ChainPersists(p, second.x, 0, low, second.evidence, second.failure.value);
        }
      }
    }
  }

  lemma FallbackOnNeedsFallbacks(p: Plan)
    requires PlanOk(p)
    ensures FallbackOn(p.profile.routing) != [] ==> Fallbacks(p.profile.routing) != []
  {
  }
}
