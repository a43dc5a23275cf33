/** The invariants over whole invocations, fallback chains and runs. */
module Runs {
  import opened Wrappers
  import opened Text
  import opened Codes
  import opened Traces
  import opened Decisions
  import opened Evaluations
  import opened Profiles
  import opened Surroundings
  import opened Routes
  import opened Invariants

  /** The world an execution is in may change as long as the calls on record do not. */
  lemma MovingOn(p: Plan, x: Execution, w: World)
    requires Inv(p, x) && w.calls == x.world.calls
    ensures Inv(p, x.(world := w))
  {
    hide Grammar, CallOk, Accounted, Collapsed, AnyFallback, MetadataOk, MetadataMatches;
  }

  lemma EndedStays(x: Execution, w: World, id: string, leg: Leg, indexes: seq<nat>, code: Code)
    requires Ended(x, id, leg, indexes, code)
    ensures Ended(x.(world := w), id, leg, indexes, code)
  {
  }

  /** How an invocation ends: in time and with its code on the last record, or stopped for good. */
  ghost predicate Settled(p: Plan, r: Invocation, id: string, leg: Leg, indexes: seq<nat>) {
    && (r.failure.Some? ==> Operational(r.failure.value))
    && (r.failure.None? || IsTransient(r.failure.value) ==>
          Paid(p, r.x.world) && Ended(r.x, id, leg, indexes, r.failure.GetOr(Succeeded)))
  }

  /** What an invocation's evidence is: valid answers to its own questions, or its failure for each of them. */
  ghost predicate Answered(p: Plan, r: Invocation, indexes: seq<nat>)
    requires IndexesOk(p, indexes)
  {
    var rules := Select(p.request.rules, indexes);
    if r.failure.Some? then r.evidence == FailedRules(rules, r.failure.value)
    else Covers(rules, r.evidence) && forall i :: 0 <= i < |rules| ==> r.evidence[i].message == ""
  }

  lemma ClonedCovers(rules: seq<Question>, source: seq<Evidence>)
    requires Covers(rules, source)
    ensures Covers(rules, CloneResults(source))
  {
    var clone := CloneResults(source);
    assert ValidString("") && RuneCount("") == 0;
    forall i | 0 <= i < |rules| ensures clone[i].ruleID == rules[i].id && EvidenceOk(clone[i]) {
      assert EvidenceOk(source[i]);
    }
  }

  lemma FollowsItself(p: Plan, x: Execution, e: Entry, leg: Leg, indexes: seq<nat>, attempt: nat, code: Code)
    requires OnRoute(p, e) && StrictlyIncreasing(indexes, |p.request.rules|)
    requires Ended(x, e.id, leg, indexes, code) && x.trace[|x.trace| - 1].attempt == attempt
    requires 1 <= attempt < e.retry.maxAttempts && Listed(code, e.retry.retryOn)
    ensures Follows(p, Last(x.trace), e.id, leg, indexes, attempt + 1)
  {
    hide RetryOk, MetadataOk;
  }

  lemma RetryingIsScheduled(r: RetryPolicy, attempt: nat, code: Code)
    requires RetryOk(r) && 1 <= attempt < r.maxAttempts
    ensures Scheduled(r)
    ensures forall c :: c in RetryOn(r) ==> !c.UnlistedClass?
    ensures Transient(code) in RetryOn(r) <==> Listed(code, r.retryOn)
    ensures IsTransient(code) <==> Passing(code)
  {
    ListedExactly(code, r.retryOn);
  }

  ghost predicate Kept(p: Plan, r: Invocation, id: string, leg: Leg, indexes: seq<nat>, jitter: (int, nat) -> int)
    requires IndexesOk(p, indexes)
  {
    && Inv(p, r.x) && Budget(p, r.x.world) && r.x.world.jitter == jitter
    && Settled(p, r, id, leg, indexes)
    && Answered(p, r, indexes)
  }

  lemma FailureIsKept(p: Plan, x: Execution, code: Code, id: string, leg: Leg, indexes: seq<nat>)
    requires IndexesOk(p, indexes) && Inv(p, x) && Budget(p, x.world) && Operational(code)
    requires IsTransient(code) ==> Paid(p, x.world) && Ended(x, id, leg, indexes, code)
    ensures Kept(p, FailedWith(p, indexes, code, x), id, leg, indexes, x.world.jitter)
  {
    hide Inv, Budget, Paid, Ended;
  }

  lemma SuccessIsKept(p: Plan, x: Execution, c: Called, id: string, leg: Leg, indexes: seq<nat>)
    requires IndexesOk(p, indexes) && Inv(p, x) && Budget(p, x.world) && Paid(p, x.world)
    requires Ended(x, id, leg, indexes, Succeeded)
    requires Covers(Select(p.request.rules, indexes), c.answer.result.evidence)
    ensures Kept(p, Invocation(CloneResults(c.answer.result.evidence), None, x), id, leg, indexes, x.world.jitter)
  {
    hide Inv, Budget, Paid, Ended, Covers;
    ClonedCovers(Select(p.request.rules, indexes), c.answer.result.evidence);
  }

  /** Every invocation, whatever the world does, keeps the invariants and the budget and settles. */
  lemma {:induction false} InvokeKeeps(p: Plan, x: Execution, e: Entry, leg: Leg, indexes: seq<nat>, attempt: nat)
    requires Inv(p, x) && Budget(p, x.world) && Paid(p, x.world)
    requires OnRoute(p, e) && StrictlyIncreasing(indexes, |p.request.rules|) && 1 <= attempt <= e.retry.maxAttempts
    requires Follows(p, Last(x.trace), e.id, leg, indexes, attempt)
    ensures Kept(p, Invoke(p, x, e, leg, indexes, attempt), e.id, leg, indexes, x.world.jitter)
    decreases e.retry.maxAttempts - attempt
  {
    hide Inv, Follows, RetryOk, MetadataOk, CallAdapter, RecordCall, Backoff, Stopped, WaitOk, Covers, BackoffMS, Kept,
         FailedWith, Spent, Invoke;
    InvokeStep(p, x, e, leg, indexes, attempt);
    var stop := Stopped(x.world, p.request.deadline);
    RecordIgnoresWorld(x, stop.world, e, leg, indexes, attempt, CallAdapter(p, stop.world, e, indexes));
    MovingOn(p, x, stop.world);
    CallsAligned(p, x);
    if stop.code.Some? {
      FailureIsKept(p, x.(world := stop.world), stop.code.value, e.id, leg, indexes);
    } else if |x.trace| >= MAX_EVALUATOR_ATTEMPTS {
      FailureIsKept(p, x.(world := stop.world), AttemptLimit, e.id, leg, indexes);
    } else {
      var c := CallAdapter(p, stop.world, e, indexes);
      var y := RecordCall(x, e, leg, indexes, attempt, c);
      RecordKeeps(p, x, stop.world, e, leg, indexes, attempt);
      RecordedWorld(x, e, leg, indexes, attempt, c);
      if c.failure.None? {
        SuccessIsKept(p, y, c, e.id, leg, indexes);
      } else if attempt == e.retry.maxAttempts || Transient(c.failure.value) !in RetryOn(e.retry) {
        FailureIsKept(p, y, c.failure.value, e.id, leg, indexes);
      } else {
        RetryingIsScheduled(e.retry, attempt, c.failure.value);
        BackoffKeeps(p, e, attempt, c.answer.fault, c.world);
        var pause := Backoff(p, e, attempt, c.answer.fault, c.world);
        var z := y.(world := pause.world);
        MovingOn(p, y, pause.world);
        EndedStays(y, pause.world, e.id, leg, indexes, c.failure.value);
        match pause
        case Halt(code, _) =>
          FailureIsKept(p, z, code, e.id, leg, indexes);
        case GiveUp(_) =>
          FailureIsKept(p, z, c.failure.value, e.id, leg, indexes);
        case Resume(_) =>
          FollowsItself(p, z, e, leg, indexes, attempt, c.failure.value);
          InvokeKeeps(p, z, e, leg, indexes, attempt + 1);
      }
    }
  }

  lemma CallsAligned(p: Plan, x: Execution)
    requires Inv(p, x)
    ensures |x.trace| <= MAX_EVALUATOR_ATTEMPTS
  {
  }

  lemma RecordedWorld(x: Execution, e: Entry, leg: Leg, indexes: seq<nat>, attempt: nat, c: Called)
    ensures RecordCall(x, e, leg, indexes, attempt, c).world == c.world
  {
  }

  // Evidence

  /** Evidence the reducer may trust: a judgment carries enough confidence when confidence routing is on. */
  ghost predicate Safe(c: Confidence, e: Evidence) {
    c.enabled && (e.status.Matched? || e.status.NotMatched?) ==>
      c.minimumAccepted.Some? && e.confidence.Some? && e.confidence.value >= c.minimumAccepted.value
  }

  /** One valid, trusted piece of evidence per question, in order, with no adapter message left. */
  ghost predicate Sound(c: Confidence, rules: seq<Question>, evidence: seq<Evidence>) {
    && Covers(rules, evidence)
    && forall i :: 0 <= i < |evidence| ==> Safe(c, evidence[i]) && evidence[i].message == ""
  }

  lemma FailedIsSound(c: Confidence, rules: seq<Question>, code: Code)
    requires Operational(code)
    ensures Sound(c, rules, FailedRules(rules, code))
  {
    assert ValidString("") && RuneCount("") == 0;
    var evidence := FailedRules(rules, code);
    forall i | 0 <= i < |rules| ensures EvidenceOk(evidence[i]) {
      assert evidence[i].reasonCodes == [code];
    }
  }

  lemma ConfidentIsSound(c: Confidence, rules: seq<Question>, evidence: seq<Evidence>)
    requires c.enabled ==> c.minimumAccepted.Some?
    requires Covers(rules, evidence) && forall i :: 0 <= i < |rules| ==> evidence[i].message == ""
    ensures Sound(c, rules, Confident(c, evidence))
  {
    var r := Confident(c, evidence);
    forall i | 0 <= i < |rules| ensures r[i].ruleID == rules[i].id && EvidenceOk(r[i]) && Safe(c, r[i]) {
      assert EvidenceOk(evidence[i]);
      DemotedIsOk(evidence[i]);
    }
  }

  lemma DemotedIsOk(e: Evidence)
    requires EvidenceOk(e)
    ensures EvidenceOk(Demoted(e))
  {
  }

  lemma ConfidenceIsSet(p: Plan)
    requires ValidProfile(p.profile)
    ensures p.profile.routing.confidence.enabled ==> p.profile.routing.confidence.minimumAccepted.Some?
    ensures forall c :: c in FallbackOn(p.profile.routing) ==> !c.UnlistedClass?
    ensures p.profile.routing.escalation.Some? ==> p.profile.routing.confidence.enabled
    ensures |p.profile.routing.fallbacks.GetOr([])| <= MAX_FALLBACKS
  {
    hide EntryOk, PositionsOk, Entries;
  }

  // Fallbacks

  /** The last attempt on record is the one a chain of fallbacks from position `k` continues. */
  ghost predicate Continues(p: Plan, x: Execution, k: nat, indexes: seq<nat>, code: Code) {
    x.trace != [] &&
    var a := x.trace[|x.trace| - 1];
    && a.ruleIndexes == indexes && a.code == code
    && (if k == 0 then !a.leg.FallbackLeg?
        else a.leg.FallbackLeg? && k <= |Fallbacks(p.profile.routing)| && a.evaluatorID == Fallbacks(p.profile.routing)[k - 1])
  }

  lemma FallbackFollows(p: Plan, x: Execution, k: nat, indexes: seq<nat>, code: Code)
    requires Continues(p, x, k, indexes, code) && StrictlyIncreasing(indexes, |p.request.rules|)
    requires k < |Fallbacks(p.profile.routing)| && Fallbacks(p.profile.routing)[k] in Entries(p.profile.evaluators)
    requires Listed(code, p.profile.routing.fallbackOn)
    ensures Follows(p, Last(x.trace), Fallbacks(p.profile.routing)[k], FallbackLeg, indexes, 1)
  {
    hide Entries, StrictlyIncreasing;
  }

  /** The plan routes position `i` through the entry of that ID. */
  lemma RoutedPosition(p: Plan, i: nat)
    requires ValidProfile(p.profile) && Probed(p) && i < |RouteOf(p.profile.routing)|
    ensures RouteOf(p.profile.routing)[i] in Entries(p.profile.evaluators)
    ensures var e := EntryOf(p, RouteOf(p.profile.routing)[i]);
      OnRoute(p, e) && e.id == RouteOf(p.profile.routing)[i]
  {
    PlannedEntries(p);
    hide ValidProfile, MetadataOk, RouteOf, FallbackIDs, Entries, MetadataOf;
    RetryOfEntry(EntryOf(p, RouteOf(p.profile.routing)[i]), p.profile);
  }

  lemma RoutedFallback(p: Plan, k: nat)
    requires ValidProfile(p.profile) && Probed(p) && k < |Fallbacks(p.profile.routing)|
    ensures Fallbacks(p.profile.routing)[k] in Entries(p.profile.evaluators)
    ensures var e := EntryOf(p, Fallbacks(p.profile.routing)[k]);
      OnRoute(p, e) && e.id == Fallbacks(p.profile.routing)[k]
  {
    hide ValidProfile, Entries, OnRoute, Probed;
    var r := p.profile.routing;
    var i := |RouteOf(r)| - |Fallbacks(r)| + k;
    assert RouteOf(r)[i] == Fallbacks(r)[k];
    RoutedPosition(p, i);
  }

  /** What is kept once confidence has been applied or every route has failed. */
  ghost predicate Finished(p: Plan, r: Invocation, indexes: seq<nat>, jitter: (int, nat) -> int)
    requires IndexesOk(p, indexes)
  {
    var rules := Select(p.request.rules, indexes);
    && Inv(p, r.x) && Budget(p, r.x.world) && r.x.world.jitter == jitter
    && Sound(p.profile.routing.confidence, rules, r.evidence)
    && (r.failure.Some? ==> Operational(r.failure.value) && r.evidence == FailedRules(rules, r.failure.value))
    && r.x.trace != []
  }

  lemma {:induction false} FallbacksKeep(p: Plan, x: Execution, k: nat, indexes: seq<nat>, evidence: seq<Evidence>, code: Code)
    requires PlanOk(p) && Probed(p) && k <= |Fallbacks(p.profile.routing)|
    requires Inv(p, x) && Budget(p, x.world) && x.trace != [] && StrictlyIncreasing(indexes, |p.request.rules|)
    requires Operational(code) && evidence == FailedRules(Select(p.request.rules, indexes), code)
    requires IsTransient(code) ==> Paid(p, x.world) && Continues(p, x, k, indexes, code)
    ensures Finished(p, Chain(p, x, k, indexes, evidence, code), indexes, x.world.jitter)
    decreases |Fallbacks(p.profile.routing)| - k
  {
    hide PlanOk, Probed, Inv, Budget, Paid, Sound, Covers, Invoke, OnRoute, Follows, Kept, RetryOk, Entries;
    var ids := Fallbacks(p.profile.routing);
    ConfidenceIsSetByPlan(p);
    PlannedFallbacks(p);
    if k == |ids| || Transient(code) !in FallbackOn(p.profile.routing) {
      FailedIsSound(p.profile.routing.confidence, Select(p.request.rules, indexes), code);
    } else {
      RoutedFallbackOfPlan(p, k);
      var e := EntryOf(p, ids[k]);
      ListedExactly(code, p.profile.routing.fallbackOn);
      FallbackFollows(p, x, k, indexes, code);
      FirstAttempt(p, e);
      InvokeKeeps(p, x, e, FallbackLeg, indexes, 1);
      var next := Invoke(p, x, e, FallbackLeg, indexes, 1);
      KeptMeans(p, next, e.id, FallbackLeg, indexes, x.world.jitter);
      if next.failure.None? {
        ConfidentIsSound(p.profile.routing.confidence, Select(p.request.rules, indexes), next.evidence);
      } else {
        assert ids[k..][1..] == ids[k + 1..];
        FallbacksKeep(p, next.x, k + 1, indexes, next.evidence, next.failure.value);
      }
    }
  }

  lemma PlannedFallbacks(p: Plan)
    requires PlanOk(p)
    ensures FallbackIDs(p, Fallbacks(p.profile.routing))
  {
    PlannedEntries(p);
  }

  lemma ConfidenceIsSetByPlan(p: Plan)
    requires PlanOk(p)
    ensures p.profile.routing.confidence.enabled ==> p.profile.routing.confidence.minimumAccepted.Some?
    ensures forall c :: c in FallbackOn(p.profile.routing) ==> !c.UnlistedClass?
  {
    ConfidenceIsSet(p);
  }

  lemma RoutedFallbackOfPlan(p: Plan, k: nat)
    requires PlanOk(p) && Probed(p) && k < |Fallbacks(p.profile.routing)|
    ensures Fallbacks(p.profile.routing)[k] in Entries(p.profile.evaluators)
    ensures var e := EntryOf(p, Fallbacks(p.profile.routing)[k]);
      OnRoute(p, e) && e.id == Fallbacks(p.profile.routing)[k]
  {
    hide OnRoute, Probed, Entries;
    RoutedFallback(p, k);
  }

  lemma FirstAttempt(p: Plan, e: Entry)
    requires OnRoute(p, e)
    ensures RetryOk(e.retry) && 1 <= e.retry.maxAttempts
  {
  }

  lemma KeptMeans(p: Plan, r: Invocation, id: string, leg: Leg, indexes: seq<nat>, jitter: (int, nat) -> int)
    requires IndexesOk(p, indexes) && Kept(p, r, id, leg, indexes, jitter) && |r.evidence| == |indexes|
    ensures Inv(p, r.x) && Budget(p, r.x.world) && r.x.world.jitter == jitter
    ensures Settled(p, r, id, leg, indexes) && Answered(p, r, indexes)
  {
  }

  // Escalation

  /** The escalated indexes are exactly those of the non-failed results below the threshold, in increasing order. */
  lemma {:induction false} LowIsExact(c: Confidence, evidence: seq<Evidence>)
    requires c.enabled ==> c.minimumAccepted.Some?
    ensures StrictlyIncreasing(LowIndexes(c, evidence), |evidence|)
    ensures forall i: nat :: i in LowIndexes(c, evidence) <==> i < |evidence| && IsLow(c, evidence[i])
  {
    if evidence != [] {
      var n := |evidence| - 1;
      LowIsExact(c, evidence[..n]);
      forall i: nat | i < n ensures evidence[..n][i] == evidence[i] {}
    }
  }

  /** Each escalated index holds its replacement and every other index what it held before. */
  lemma {:induction false} OverwrittenAt(evidence: seq<Evidence>, low: seq<nat>, replacement: seq<Evidence>)
    requires |replacement| == |low| && StrictlyIncreasing(low, |evidence|)
    ensures forall k :: 0 <= k < |low| ==> Overwritten(evidence, low, replacement)[low[k]] == replacement[k]
    ensures forall i :: 0 <= i < |evidence| && i !in low ==> Overwritten(evidence, low, replacement)[i] == evidence[i]
    decreases |low|
  {
    if low != [] {
      OverwrittenAt(evidence[low[0] := replacement[0]], low[1..], replacement[1..]);
      assert forall k :: 1 <= k < |low| ==> low[k] == low[1..][k - 1] && replacement[k] == replacement[1..][k - 1];
      assert low[0] !in low[1..];
    }
  }

  lemma OverwrittenIsSound(c: Confidence, rules: seq<Question>, kept: seq<Evidence>, low: seq<nat>, replacement: seq<Evidence>)
    requires StrictlyIncreasing(low, |rules|) && |replacement| == |low|
    requires Sound(c, rules, kept) && Sound(c, Select(rules, low), replacement)
    ensures Sound(c, rules, Overwritten(kept, low, replacement))
  {
    hide EvidenceOk;
    OverwrittenAt(kept, low, replacement);
    var r := Overwritten(kept, low, replacement);
    forall i | 0 <= i < |r|
      ensures r[i].ruleID == rules[i].id && EvidenceOk(r[i]) && Safe(c, r[i]) && r[i].message == ""
    {
      if i in low {
        var k :| 0 <= k < |low| && low[k] == i;
        assert r[low[k]] == replacement[k];
      }
    }
  }

  lemma EscalateKeeps(p: Plan, x: Execution, low: seq<nat>)
    requires PlanOk(p) && Probed(p) && p.profile.routing.escalation.Some?
    requires Inv(p, x) && Budget(p, x.world) && Paid(p, x.world)
    requires low != [] && StrictlyIncreasing(low, |p.request.rules|)
    requires Ended(x, p.profile.routing.primary, PrimaryLeg, AllIndexes(|p.request.rules|), Succeeded)
    ensures Finished(p, Escalate(p, x, low), low, x.world.jitter)
  {
    hide PlanOk, Probed, Inv, Budget, Paid, Sound, Covers, Invoke, OnRoute, Kept, RetryOk, Entries, Chain;
    ConfidenceIsSetByPlan(p);
    PlannedEscalation(p);
    var e := EntryOf(p, p.profile.routing.escalation.value);
    FirstAttempt(p, e);
    EscalationFollows(p, x, e, low);
    hide Follows;
    InvokeKeeps(p, x, e, EscalationLeg, low, 1);
    var second := Invoke(p, x, e, EscalationLeg, low, 1);
    KeptMeans(p, second, e.id, EscalationLeg, low, x.world.jitter);
    if second.failure.None? {
      ConfidentIsSound(p.profile.routing.confidence, Select(p.request.rules, low), second.evidence);
    } else {
      FallbacksKeep(p, second.x, 0, low, second.evidence, second.failure.value);
    }
  }

  lemma PlannedEscalation(p: Plan)
    requires PlanOk(p) && Probed(p) && p.profile.routing.escalation.Some?
    ensures p.profile.routing.escalation.value in Entries(p.profile.evaluators)
    ensures var e := EntryOf(p, p.profile.routing.escalation.value);
      OnRoute(p, e) && e.id == p.profile.routing.escalation.value
  {
    hide OnRoute, Probed, Entries, PlanOk, ValidProfile;
    ValidPlan(p);
    RoutedPosition(p, 1);
  }

  lemma EscalationFollows(p: Plan, x: Execution, e: Entry, low: seq<nat>)
    requires OnRoute(p, e) && p.profile.routing.escalation == Some(e.id)
    requires low != [] && StrictlyIncreasing(low, |p.request.rules|)
    requires Ended(x, p.profile.routing.primary, PrimaryLeg, AllIndexes(|p.request.rules|), Succeeded)
    ensures Follows(p, Last(x.trace), e.id, EscalationLeg, low, 1)
  {
    hide RetryOk, MetadataOk;
  }

  // Whole runs

  /** The state a run begins in: nothing recorded, and the deadline taken from a clock reading already made. */
  ghost predicate Begins(p: Plan, x: Execution) {
    x == Fresh(x.world) && x.world.calls == [] && x.world.waits == [] && p.started <= x.world.now
  }

  lemma FirstKeeps(p: Plan, x: Execution)
    requires PlanOk(p) && Probed(p) && Begins(p, x)
    ensures Kept(p, First(p, x), p.profile.routing.primary, PrimaryLeg, AllIndexes(|p.request.rules|), x.world.jitter)
  {
    hide PlanOk, OnRoute, RetryOk, Entries, Invoke, Kept;
    BeginsWell(p, x);
    PlannedPrimary(p);
    var e := EntryOf(p, p.profile.routing.primary);
    FirstAttempt(p, e);
    hide Probed, Inv, Budget, Paid, Begins;
    InvokeKeeps(p, x, e, PrimaryLeg, AllIndexes(|p.request.rules|), 1);
  }

  lemma BeginsWell(p: Plan, x: Execution)
    requires Begins(p, x)
    ensures Inv(p, x) && Budget(p, x.world) && Paid(p, x.world) && Last(x.trace).None?
  {
    assert Spent([]) == 0;
  }

  lemma PlannedPrimary(p: Plan)
    requires PlanOk(p) && Probed(p)
    ensures p.profile.routing.primary in Entries(p.profile.evaluators)
    ensures var e := EntryOf(p, p.profile.routing.primary);
      OnRoute(p, e) && e.id == p.profile.routing.primary
  {
    hide OnRoute, Probed, Entries;
    RoutedPosition(p, 0);
  }

  /** Some rule failed with exactly this code. */
  ghost predicate SomeRuleFailed(p: Plan, evidence: seq<Evidence>, code: Code)
    requires |evidence| == |p.request.rules|
  {
    exists i :: 0 <= i < |evidence| && evidence[i] == Evidence(p.request.rules[i].id, Failed, None, [code], "")
  }

  /** What holds of every run that attempted anything. */
  ghost predicate RunOk(p: Plan, r: Routed, jitter: (int, nat) -> int) {
    && Inv(p, r.x) && Budget(p, r.x.world) && r.x.world.jitter == jitter && r.x.trace != []
    && Sound(p.profile.routing.confidence, p.request.rules, r.evidence)
    && (r.failure.Some? ==> Operational(r.failure.value) && SomeRuleFailed(p, r.evidence, r.failure.value))
  }

  lemma SelectAll(rules: seq<Question>)
    ensures Select(rules, AllIndexes(|rules|)) == rules
  {
  }

  lemma FinishedWhole(p: Plan, r: Invocation, jitter: (int, nat) -> int, kept: seq<Evidence>)
    requires Finished(p, r, AllIndexes(|p.request.rules|), jitter) && |p.request.rules| > 0
    ensures RunOk(p, Routed(r.evidence, r.failure, r.x, [], kept), jitter)
  {
    hide Inv, Budget, Sound;
    SelectAll(p.request.rules);
    if r.failure.Some? {
      assert r.evidence[0] == Evidence(p.request.rules[0].id, Failed, None, [r.failure.value], "");
    }
  }

  lemma FinishedPart(p: Plan, r: Invocation, jitter: (int, nat) -> int, low: seq<nat>, kept: seq<Evidence>)
    requires low != [] && StrictlyIncreasing(low, |p.request.rules|) && |r.evidence| == |low|
    requires Finished(p, r, low, jitter)
    requires Sound(p.profile.routing.confidence, p.request.rules, kept)
    ensures |kept| == |p.request.rules|
    ensures RunOk(p, Routed(Overwritten(kept, low, r.evidence), r.failure, r.x, low, kept), jitter)
  {
    hide Inv, Budget, Safe, EvidenceOk;
    OverwrittenIsSound(p.profile.routing.confidence, p.request.rules, kept, low, r.evidence);
    OverwrittenAt(kept, low, r.evidence);
    if r.failure.Some? {
      var i := low[0];
      assert Overwritten(kept, low, r.evidence)[i] == r.evidence[0];
      assert r.evidence[0] == Evidence(Select(p.request.rules, low)[0].id, Failed, None, [r.failure.value], "");
    }
  }

  lemma PlanHasRules(p: Plan)
    requires PlanOk(p)
    ensures |p.request.rules| > 0
  {
  }

  /** Every accepted run keeps every invariant, whatever its adapters, clock, jitter and cancellation do. */
  lemma RouteKeeps(p: Plan, x: Execution)
    requires PlanOk(p) && Probed(p) && Begins(p, x)
    requires RouteAll(p, x).Some?
    ensures RunOk(p, RouteAll(p, x).value, x.world.jitter)
  {
    hide PlanOk, Probed, Begins, Inv, Budget, Paid, Sound, Covers, First, Chain, Escalate, Kept, Overwritten, LowIndexes,
         Finished, RunOk, StrictlyIncreasing;
    var c := p.profile.routing.confidence;
    var all := AllIndexes(|p.request.rules|);
    ConfidenceIsSetByPlan(p);
    PlanHasRules(p);
    FirstKeeps(p, x);
    var first := First(p, x);
    AllIncreasing(|p.request.rules|);
    KeptMeans(p, first, p.profile.routing.primary, PrimaryLeg, all, x.world.jitter);
    SelectAll(p.request.rules);
    if first.failure.Some? {
      FallbacksKeep(p, first.x, 0, all, first.evidence, first.failure.value);
      FinishedWhole(p, Chain(p, first.x, 0, all, first.evidence, first.failure.value), x.world.jitter, first.evidence);
    } else {
      var low := LowIndexes(c, first.evidence);
      var kept := Confident(c, first.evidence);
      LowIsExact(c, first.evidence);
      ConfidentIsSound(c, p.request.rules, first.evidence);
      if low != [] && p.profile.routing.escalation.Some? {
        EscalateKeeps(p, first.x, low);
        FinishedPart(p, Escalate(p, first.x, low), x.world.jitter, low, kept);
      } else {
        PlainIsOk(p, Routed(kept, None, first.x, [], kept), x.world.jitter);
      }
    }
  }

  lemma AllIncreasing(n: nat)
    ensures StrictlyIncreasing(AllIndexes(n), n)
  {
  }

  lemma PlainIsOk(p: Plan, r: Routed, jitter: (int, nat) -> int)
    requires Inv(p, r.x) && Budget(p, r.x.world) && r.x.world.jitter == jitter && r.x.trace != []
    requires Sound(p.profile.routing.confidence, p.request.rules, r.evidence) && r.failure.None?
    ensures RunOk(p, r, jitter)
  {
    hide Inv, Budget, Sound;
  }
}
