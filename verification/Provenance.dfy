/** Where evidence comes from: every verdict a run uses was answered by an adapter in an attempt that counts. */
module Provenance {
  import opened Wrappers
  import opened Codes
  import opened Traces
  import opened Decisions
  import opened Evaluations
  import opened Profiles
  import opened Surroundings
  import opened Routes
  import opened Invariants
  import opened Runs

  /** What is believed of an adapter's answer: no message, and no verdict below the threshold. */
  function Believed(c: Confidence, raw: Evidence): Evidence
    requires c.enabled ==> c.minimumAccepted.Some?
  {
    if c.enabled && !raw.status.Failed? && (raw.confidence.None? || raw.confidence.value < c.minimumAccepted.value)
    then Evidence(raw.ruleID, Indeterminate, raw.confidence, [LowConfidence], "")
    else Evidence(raw.ruleID, raw.status, raw.confidence, raw.reasonCodes, "")
  }

  function BelievedAll(c: Confidence, raw: seq<Evidence>): (evidence: seq<Evidence>)
    requires c.enabled ==> c.minimumAccepted.Some?
    ensures |evidence| == |raw|
  {
    seq(|raw|, i requires 0 <= i < |raw| => Believed(c, raw[i]))
  }

  lemma ConfidentIsBelieved(c: Confidence, raw: seq<Evidence>)
    requires c.enabled ==> c.minimumAccepted.Some?
    ensures Confident(c, CloneResults(raw)) == BelievedAll(c, raw)
    ensures forall i :: 0 <= i < |raw| ==> (IsLow(c, CloneResults(raw)[i]) <==> IsLow(c, raw[i]))
  {
  }

  ghost predicate Grows(x: Execution, y: Execution) {
    x.trace <= y.trace && x.world.calls <= y.world.calls
  }

  /** What the last call on record answered. */
  function LastAnswer(x: Execution): seq<Evidence> {
    if x.world.calls == [] then [] else x.world.calls[|x.world.calls| - 1].answer.result.evidence
  }

  /** The last attempt on record succeeded on these rules. */
  ghost predicate EndsWell(x: Execution, leg: Leg, indexes: seq<nat>) {
    && x.trace != []
    && var a := x.trace[|x.trace| - 1];
       a.code == Succeeded && a.leg == leg && a.ruleIndexes == indexes
  }

  /** The attempts after `before` are all on this leg and for these rules, and none but the last, if any, succeeded. */
  ghost predicate OnlyLast(before: seq<Attempt>, trace: seq<Attempt>, leg: Leg, indexes: seq<nat>, succeeded: bool) {
    forall j :: |before| <= j < |trace| ==>
                  && trace[j].leg == leg && trace[j].ruleIndexes == indexes
                  && (trace[j].code == Succeeded ==> succeeded && j == |trace| - 1)
  }

  /** An invocation's evidence is its last answer's own, or it failed and its last attempt did too. */
  ghost predicate Heard(p: Plan, x: Execution, r: Invocation, leg: Leg, indexes: seq<nat>)
    requires IndexesOk(p, indexes)
  {
    && Grows(x, r.x) && |r.x.trace| == |r.x.world.calls|
    && (r.failure.None? ==> EndsWell(r.x, leg, indexes) && r.evidence == CloneResults(LastAnswer(r.x)))
    && (r.failure.Some? ==> r.evidence == FailedRules(Select(p.request.rules, indexes), r.failure.value))
    && OnlyLast(x.trace, r.x.trace, leg, indexes, r.failure.None?)
  }

  lemma CallAnswers(p: Plan, w: World, e: Entry, indexes: seq<nat>)
    requires IndexesOk(p, indexes)
    ensures var c := CallAdapter(p, w, e, indexes);
      && c.world.calls == w.calls + [c.call] && c.call.answer == c.answer
      && (c.failure.Some? ==> Operational(c.failure.value))
  {
    hide Judge, Stopped, AttemptRequest, Covers;
    var begun := Tick(w);
    var deadline := Earlier(begun.now + e.timeoutMS * MILLISECOND, p.request.deadline);
    JudgedCodes(p, e, AttemptRequest(p, indexes, deadline), Coming(begun).answer, Tick(begun));
  }

  lemma BackoffCalls(p: Plan, e: Entry, attempt: nat, fault: Option<Fault>, w: World)
    requires Scheduled(e.retry) && attempt >= 1
    ensures Backoff(p, e, attempt, fault, w).world.calls == w.calls
  {
    hide Stopped, BackoffMS, RetryAfter, Tick, Sleep;
  }

  lemma FailureHeard(p: Plan, x: Execution, y: Execution, code: Code, leg: Leg, indexes: seq<nat>)
    requires IndexesOk(p, indexes) && Grows(x, y) && |y.trace| == |y.world.calls| && OnlyLast(x.trace, y.trace, leg, indexes, false)
    ensures Heard(p, x, FailedWith(p, indexes, code, y), leg, indexes)
  {
    hide FailedRules, OnlyLast;
  }

  lemma SuccessHeard(p: Plan, x: Execution, y: Execution, raw: seq<Evidence>, leg: Leg, indexes: seq<nat>)
    requires IndexesOk(p, indexes) && Grows(x, y) && |y.trace| == |y.world.calls| && OnlyLast(x.trace, y.trace, leg, indexes, true)
    requires EndsWell(y, leg, indexes) && raw == LastAnswer(y)
    ensures Heard(p, x, Invocation(CloneResults(raw), None, y), leg, indexes)
  {
    hide CloneResults, OnlyLast, EndsWell;
  }

  /** One recorded call, for an invocation that starts with it. */
  lemma RecordHeard(p: Plan, x: Execution, e: Entry, leg: Leg, indexes: seq<nat>, attempt: nat)
    requires IndexesOk(p, indexes) && |x.trace| == |x.world.calls|
    ensures var c := CallAdapter(p, x.world, e, indexes);
      var y := RecordCall(x, e, leg, indexes, attempt, c);
      && Grows(x, y) && |y.trace| == |y.world.calls| == |x.trace| + 1
      && LastAnswer(y) == c.answer.result.evidence && y.world == c.world
      && OnlyLast(x.trace, y.trace, leg, indexes, c.failure.None?)
      && (c.failure.None? ==> EndsWell(y, leg, indexes))
  {
    hide CallAdapter, RecordCall, Record;
    RecordShape(x, e, leg, indexes, attempt, CallAdapter(p, x.world, e, indexes));
    CallAnswers(p, x.world, e, indexes);
  }

  lemma NothingNew(x: Execution, w: World, leg: Leg, indexes: seq<nat>)
    requires w.calls == x.world.calls
    ensures Grows(x, x.(world := w)) && OnlyLast(x.trace, x.trace, leg, indexes, false)
  {
  }

  lemma {:induction false} InvokeHears(p: Plan, x: Execution, e: Entry, leg: Leg, indexes: seq<nat>, attempt: nat)
    requires RetryOk(e.retry) && IndexesOk(p, indexes) && 1 <= attempt <= e.retry.maxAttempts
    requires |x.trace| == |x.world.calls|
    ensures Heard(p, x, Invoke(p, x, e, leg, indexes, attempt), leg, indexes)
    decreases e.retry.maxAttempts - attempt
  {
    hide RetryOk, CallAdapter, RecordCall, Record, Stopped, Backoff, Covers, Transient, IndexesOk, FailedWith, Heard, OnlyLast,
         EndsWell, LastAnswer, CloneResults;
    InvokeStep(p, x, e, leg, indexes, attempt);
    var stop := Stopped(x.world, p.request.deadline);
    var x0 := x.(world := stop.world);
    NothingNew(x, stop.world, leg, indexes);
    if stop.code.Some? {
      FailureHeard(p, x, x0, stop.code.value, leg, indexes);
    } else if |x.trace| >= MAX_EVALUATOR_ATTEMPTS {
      FailureHeard(p, x, x0, AttemptLimit, leg, indexes);
    } else {
      var c := CallAdapter(p, stop.world, e, indexes);
      var y := RecordCall(x0, e, leg, indexes, attempt, c);
      RecordHeard(p, x0, e, leg, indexes, attempt);
      if c.failure.None? {
        SuccessHeard(p, x, y, c.answer.result.evidence, leg, indexes);
      } else if attempt == e.retry.maxAttempts || Transient(c.failure.value) !in RetryOn(e.retry) {
        FailureHeard(p, x, y, c.failure.value, leg, indexes);
      } else {
        BackoffCalls(p, e, attempt, c.answer.fault, c.world);
        match Backoff(p, e, attempt, c.answer.fault, c.world)
        case Halt(code, w) => FailureHeard(p, x, y.(world := w), code, leg, indexes);
        case GiveUp(w) => FailureHeard(p, x, y.(world := w), c.failure.value, leg, indexes);
        case Resume(w) =>
          var next := y.(world := w);
          InvokeHears(p, next, e, leg, indexes, attempt + 1);
          StillFailing(p, x, next, Invoke(p, next, e, leg, indexes, attempt + 1), leg, indexes);
      }
    }
  }

  /** A retry after failed attempts hears for the invocation as a whole. */
  lemma StillFailing(p: Plan, x: Execution, y: Execution, r: Invocation, leg: Leg, indexes: seq<nat>)
    requires IndexesOk(p, indexes) && Heard(p, y, r, leg, indexes)
    requires Grows(x, y) && OnlyLast(x.trace, y.trace, leg, indexes, false)
    ensures Heard(p, x, r, leg, indexes)
  {
    hide FailedRules, CloneResults, EndsWell, LastAnswer;
    forall j | |x.trace| <= j < |r.x.trace|
      ensures r.x.trace[j].leg == leg && r.x.trace[j].ruleIndexes == indexes
      ensures r.x.trace[j].code == Succeeded ==> r.failure.None? && j == |r.x.trace| - 1
    {
      if j < |y.trace| {
        assert r.x.trace[j] == y.trace[j];
      }
    }
  }

  /** The attempts after `before` are not the primary's, and each asks exactly these rules. */
  ghost predicate AskedLater(before: seq<Attempt>, trace: seq<Attempt>, indexes: seq<nat>) {
    forall j :: |before| <= j < |trace| ==> !trace[j].leg.PrimaryLeg? && trace[j].ruleIndexes == indexes
  }

  lemma StillAsked(a: seq<Attempt>, b: seq<Attempt>, c: seq<Attempt>, indexes: seq<nat>)
    requires b <= c && AskedLater(a, b, indexes) && AskedLater(b, c, indexes)
    ensures AskedLater(a, c, indexes)
  {
  }

  lemma NoneAdded(trace: seq<Attempt>, indexes: seq<nat>)
    ensures AskedLater(trace, trace, indexes)
  {
  }

  lemma OnLegOnly(before: seq<Attempt>, trace: seq<Attempt>, leg: Leg, indexes: seq<nat>, succeeded: bool)
    requires OnlyLast(before, trace, leg, indexes, succeeded) && !leg.PrimaryLeg?
    ensures AskedLater(before, trace, indexes)
  {
  }

  /** After the last evaluator asked: its answers as believed, or the failure for every rule. */
  ghost predicate Ends(p: Plan, x: Execution, r: Invocation, indexes: seq<nat>)
    requires IndexesOk(p, indexes)
    requires p.profile.routing.confidence.enabled ==> p.profile.routing.confidence.minimumAccepted.Some?
  {
    && Grows(x, r.x) && |r.x.trace| == |r.x.world.calls| && AskedLater(x.trace, r.x.trace, indexes)
    && (if r.failure.Some? then r.evidence == FailedRules(Select(p.request.rules, indexes), r.failure.value)
        else
          && r.x.trace != []
          && EndsWell(r.x, r.x.trace[|r.x.trace| - 1].leg, indexes)
          && r.evidence == BelievedAll(p.profile.routing.confidence, LastAnswer(r.x)))
  }

  lemma ApplyEnds(p: Plan, x: Execution, r: Invocation, leg: Leg, indexes: seq<nat>)
    requires IndexesOk(p, indexes) && Heard(p, x, r, leg, indexes) && r.failure.None? && !leg.PrimaryLeg?
    requires p.profile.routing.confidence.enabled ==> p.profile.routing.confidence.minimumAccepted.Some?
    ensures Ends(p, x, r.(evidence := Confident(p.profile.routing.confidence, r.evidence)), indexes)
  {
    hide Confident, BelievedAll, FailedRules;
    OnLegOnly(x.trace, r.x.trace, leg, indexes, true);
    ConfidentIsBelieved(p.profile.routing.confidence, LastAnswer(r.x));
  }

  lemma GrowsOn(x: Execution, y: Execution, z: Execution)
    requires Grows(x, y) && Grows(y, z)
    ensures Grows(x, z)
  {
  }

  lemma {:induction false} ChainEnds(p: Plan, x: Execution, k: nat, indexes: seq<nat>, evidence: seq<Evidence>, code: Code)
    requires PlanOk(p) && Probed(p) && k <= |Fallbacks(p.profile.routing)| && IndexesOk(p, indexes)
    requires p.profile.routing.confidence.enabled ==> p.profile.routing.confidence.minimumAccepted.Some?
    requires |x.trace| == |x.world.calls| && evidence == FailedRules(Select(p.request.rules, indexes), code)
    ensures Ends(p, x, Chain(p, x, k, indexes, evidence, code), indexes)
    decreases |Fallbacks(p.profile.routing)| - k
  {
    hide PlanOk, Probed, OnRoute, RetryOk, Invoke, Chain, Entries, Transient, EndsWell, LastAnswer, BelievedAll, FailedRules,
         Confident, IndexesOk, AskedLater, OnlyLast;
    ChainStep(p, x, k, indexes, evidence, code);
    NoneAdded(x.trace, indexes);
    var ids := Fallbacks(p.profile.routing);
    if k < |ids| && Transient(code) in FallbackOn(p.profile.routing) {
      RoutedFallbackOfPlan(p, k);
      var e := EntryOf(p, ids[k]);
      FirstAttempt(p, e);
      InvokeHears(p, x, e, FallbackLeg, indexes, 1);
      var next := Invoke(p, x, e, FallbackLeg, indexes, 1);
      if next.failure.Some? {
        ChainEnds(p, next.x, k + 1, indexes, next.evidence, next.failure.value);
        GrowsOn(x, next.x, Chain(p, next.x, k + 1, indexes, next.evidence, next.failure.value).x);
        OnLegOnly(x.trace, next.x.trace, FallbackLeg, indexes, false);
        StillAsked(x.trace, next.x.trace, Chain(p, next.x, k + 1, indexes, next.evidence, next.failure.value).x.trace, indexes);
      } else {
        ApplyEnds(p, x, next, FallbackLeg, indexes);
      }
    }
  }

  lemma EscalateEnds(p: Plan, x: Execution, low: seq<nat>)
    requires PlanOk(p) && Probed(p) && p.profile.routing.escalation.Some? && IndexesOk(p, low)
    requires p.profile.routing.confidence.enabled ==> p.profile.routing.confidence.minimumAccepted.Some?
    requires |x.trace| == |x.world.calls|
    ensures Ends(p, x, Escalate(p, x, low), low)
  {
    hide PlanOk, Probed, OnRoute, RetryOk, Invoke, Chain, Entries, EndsWell, LastAnswer, BelievedAll, FailedRules, Confident,
         IndexesOk, AskedLater, OnlyLast;
    PlannedEscalation(p);
    var e := EntryOf(p, p.profile.routing.escalation.value);
    FirstAttempt(p, e);
    InvokeHears(p, x, e, EscalationLeg, low, 1);
    var second := Invoke(p, x, e, EscalationLeg, low, 1);
    if second.failure.Some? {
      ChainEnds(p, second.x, 0, low, second.evidence, second.failure.value);
      GrowsOn(x, second.x, Chain(p, second.x, 0, low, second.evidence, second.failure.value).x);
      OnLegOnly(x.trace, second.x.trace, EscalationLeg, low, false);
      StillAsked(x.trace, second.x.trace, Chain(p, second.x, 0, low, second.evidence, second.failure.value).x.trace, low);
    } else {
      ApplyEnds(p, x, second, EscalationLeg, low);
    }
  }

  lemma FirstHears(p: Plan, x: Execution)
    requires PlanOk(p) && Probed(p) && Begins(p, x)
    ensures Heard(p, x, First(p, x), PrimaryLeg, AllIndexes(|p.request.rules|))
  {
    hide PlanOk, Probed, OnRoute, RetryOk, Invoke, Entries, Heard;
    PlannedPrimary(p);
    var e := EntryOf(p, p.profile.routing.primary);
    FirstAttempt(p, e);
    InvokeHears(p, x, e, PrimaryLeg, AllIndexes(|p.request.rules|), 1);
  }

  // Whole runs

  ghost predicate PrimarySucceeded(trace: seq<Attempt>, j: nat) {
    j < |trace| && trace[j].leg.PrimaryLeg? && trace[j].code == Succeeded
  }

  /** Rule `i` was asked in attempt `j`, which succeeded, and `e` is what is believed of that attempt's answer to it. */
  ghost predicate FromCall(p: Plan, x: Execution, j: nat, i: nat, e: Evidence)
    requires p.profile.routing.confidence.enabled ==> p.profile.routing.confidence.minimumAccepted.Some?
  {
    && j < |x.trace| == |x.world.calls| && x.trace[j].code == Succeeded
    && exists k :: 0 <= k < |x.trace[j].ruleIndexes| && k < |x.world.calls[j].answer.result.evidence|
                   && x.trace[j].ruleIndexes[k] == i
                   && e == Believed(p.profile.routing.confidence, x.world.calls[j].answer.result.evidence[k])
  }

  /**
   The source of the evidence for rule `i`: the primary's answer if it succeeded and the rule was not sent on;
   otherwise the run's failure, or the answer of its last attempt.
   */
  ghost predicate Sourced(p: Plan, r: Routed, primary: Option<nat>, i: nat)
    requires p.profile.routing.confidence.enabled ==> p.profile.routing.confidence.minimumAccepted.Some?
    requires i < |r.evidence| == |p.request.rules|
  {
    if primary.Some? && i !in r.escalated then FromCall(p, r.x, primary.value, i, r.evidence[i])
    else if r.failure.Some? then r.evidence[i] == Evidence(p.request.rules[i].id, Failed, None, [r.failure.value], "")
    else r.x.trace != [] && FromCall(p, r.x, |r.x.trace| - 1, i, r.evidence[i])
  }

  /** The one successful attempt of the primary, if it had one, is at this place in the trace, and it asked every rule. */
  ghost predicate PrimaryAt(p: Plan, trace: seq<Attempt>, primary: Option<nat>) {
    && (forall j: nat :: PrimarySucceeded(trace, j) <==> primary == Some(j))
    && (primary.Some? ==> primary.value < |trace| && trace[primary.value].ruleIndexes == AllIndexes(|p.request.rules|))
  }

  /** Rules are sent on exactly when an escalation is configured and the primary's answer to them is below the threshold. */
  ghost predicate SentOn(p: Plan, r: Routed, primary: Option<nat>)
    requires p.profile.routing.confidence.enabled ==> p.profile.routing.confidence.minimumAccepted.Some?
  {
    forall i: nat :: i in r.escalated <==>
      && primary.Some? && p.profile.routing.escalation.Some?
      && primary.value < |r.x.world.calls| && i < |r.x.world.calls[primary.value].answer.result.evidence|
      && IsLow(p.profile.routing.confidence, r.x.world.calls[primary.value].answer.result.evidence[i])
  }

  /** What each attempt asked: every rule until the primary succeeds, and from then on the rules sent on and no others. */
  ghost predicate AskedOf(p: Plan, trace: seq<Attempt>, primary: Option<nat>, escalated: seq<nat>) {
    forall j: nat :: j < |trace| ==>
      trace[j].ruleIndexes == if primary.Some? && j > primary.value then escalated else AllIndexes(|p.request.rules|)
  }

  function PrimaryOf(first: Invocation): Option<nat> {
    if first.failure.None? && first.x.trace != [] then Some(|first.x.trace| - 1) else None
  }

  ghost predicate AllSourced(p: Plan, r: Routed, primary: Option<nat>)
    requires p.profile.routing.confidence.enabled ==> p.profile.routing.confidence.minimumAccepted.Some?
    requires |r.evidence| == |p.request.rules|
  {
    forall i: nat :: i < |p.request.rules| ==> Sourced(p, r, primary, i)
  }

  lemma PrimaryFound(p: Plan, x: Execution, first: Invocation, y: Execution, later: seq<nat>)
    requires Heard(p, x, first, PrimaryLeg, AllIndexes(|p.request.rules|)) && x.trace == []
    requires Grows(first.x, y) && AskedLater(first.x.trace, y.trace, later)
    requires first.failure.Some? ==> later == AllIndexes(|p.request.rules|)
    ensures PrimaryAt(p, y.trace, PrimaryOf(first))
    ensures AskedOf(p, y.trace, PrimaryOf(first), if first.failure.None? then later else [])
  {
    hide FailedRules, CloneResults, LastAnswer;
    forall j: nat | j < |first.x.trace| ensures y.trace[j].ruleIndexes == AllIndexes(|p.request.rules|) {
      assert y.trace[j] == first.x.trace[j];
    }
    forall j: nat | PrimarySucceeded(y.trace, j) ensures first.failure.None? && j == |first.x.trace| - 1 {
      if j < |first.x.trace| {
        assert y.trace[j] == first.x.trace[j];
      }
    }
    if first.failure.None? {
      assert y.trace[|first.x.trace| - 1] == first.x.trace[|first.x.trace| - 1];
    }
  }

  /** Evidence that is all of an attempt's answers, believed, is sourced from it rule by rule. */
  lemma AllFromCall(p: Plan, x: Execution, y: Execution, leg: Leg, indexes: seq<nat>, k: nat)
    requires p.profile.routing.confidence.enabled ==> p.profile.routing.confidence.minimumAccepted.Some?
    requires EndsWell(x, leg, indexes) && Grows(x, y) && |x.trace| == |x.world.calls| && |y.trace| == |y.world.calls|
    requires k < |indexes| == |LastAnswer(x)|
    ensures FromCall(p, y, |x.trace| - 1, indexes[k], BelievedAll(p.profile.routing.confidence, LastAnswer(x))[k])
  {
    var j := |x.trace| - 1;
    assert y.trace[j] == x.trace[j] && y.world.calls[j] == x.world.calls[j];
    assert y.trace[j].ruleIndexes[k] == indexes[k];
    hide Believed;
  }

  /** Rule `i` settled by whoever was asked last. */
  lemma SettledLast(p: Plan, x: Execution, r: Invocation, indexes: seq<nat>, k: nat)
    requires p.profile.routing.confidence.enabled ==> p.profile.routing.confidence.minimumAccepted.Some?
    requires IndexesOk(p, indexes) && Ends(p, x, r, indexes) && k < |indexes| == |r.evidence|
    ensures if r.failure.Some? then
              r.evidence[k] == Evidence(p.request.rules[indexes[k]].id, Failed, None, [r.failure.value], "")
            else r.x.trace != [] && FromCall(p, r.x, |r.x.trace| - 1, indexes[k], r.evidence[k])
  {
    hide BelievedAll, LastAnswer, FromCall, AskedLater, EndsWell;
    if r.failure.None? {
      AllFromCall(p, r.x, r.x, r.x.trace[|r.x.trace| - 1].leg, indexes, k);
    }
  }

  /** Rule `i` kept from a successful primary. */
  lemma KeptFirst(p: Plan, x: Execution, first: Invocation, y: Execution, i: nat)
    requires p.profile.routing.confidence.enabled ==> p.profile.routing.confidence.minimumAccepted.Some?
    requires Heard(p, x, first, PrimaryLeg, AllIndexes(|p.request.rules|)) && first.failure.None?
    requires |first.evidence| == |p.request.rules| && i < |first.evidence|
    requires Grows(first.x, y) && |y.trace| == |y.world.calls|
    ensures FromCall(p, y, |first.x.trace| - 1, i, Confident(p.profile.routing.confidence, first.evidence)[i])
  {
    hide FromCall, LastAnswer, OnlyLast, EndsWell, BelievedAll, Confident;
    var all := AllIndexes(|p.request.rules|);
    assert all[i] == i;
    ConfidentIsBelieved(p.profile.routing.confidence, LastAnswer(first.x));
    AllFromCall(p, first.x, y, PrimaryLeg, all, i);
  }

  lemma LowWasSentOn(p: Plan, x: Execution, first: Invocation, r: Routed)
    requires p.profile.routing.confidence.enabled ==> p.profile.routing.confidence.minimumAccepted.Some?
    requires Heard(p, x, first, PrimaryLeg, AllIndexes(|p.request.rules|)) && first.failure.None?
    requires Grows(first.x, r.x)
    requires var low := LowIndexes(p.profile.routing.confidence, first.evidence);
      r.escalated == if p.profile.routing.escalation.Some? then low else []
    ensures SentOn(p, r, PrimaryOf(first))
  {
    hide FailedRules, OnlyLast, Confident, BelievedAll, CloneResults, LowIndexes, IsLow, EndsWell, StrictlyIncreasing;
    var c := p.profile.routing.confidence;
    HeardFirst(p, x, first);
    LowIsExact(c, first.evidence);
    ConfidentIsBelieved(c, LastAnswer(first.x));
    var j := |first.x.trace| - 1;
    assert r.x.world.calls[j] == first.x.world.calls[j];
    assert r.x.world.calls[j].answer.result.evidence == LastAnswer(first.x);
  }

  lemma SourcedWithoutPrimary(p: Plan, x: Execution, r: Invocation, kept: seq<Evidence>)
    requires p.profile.routing.confidence.enabled ==> p.profile.routing.confidence.minimumAccepted.Some?
    requires Ends(p, x, r, AllIndexes(|p.request.rules|)) && |r.evidence| == |p.request.rules|
    ensures var routed := Routed(r.evidence, r.failure, r.x, [], kept);
      AllSourced(p, routed, None) && SentOn(p, routed, None)
  {
    hide Ends, FromCall;
    var all := AllIndexes(|p.request.rules|);
    var routed := Routed(r.evidence, r.failure, r.x, [], kept);
    forall i: nat | i < |r.evidence| ensures Sourced(p, routed, None, i) {
      assert all[i] == i;
      SettledLast(p, x, r, all, i);
    }
  }

  lemma SourcedWithEscalation(p: Plan, x: Execution, first: Invocation, r: Invocation, low: seq<nat>)
    requires p.profile.routing.confidence.enabled ==> p.profile.routing.confidence.minimumAccepted.Some?
    requires Heard(p, x, first, PrimaryLeg, AllIndexes(|p.request.rules|)) && first.failure.None?
    requires |first.evidence| == |p.request.rules| && StrictlyIncreasing(low, |p.request.rules|) && |r.evidence| == |low|
    requires Ends(p, first.x, r, low)
    ensures var kept := Confident(p.profile.routing.confidence, first.evidence);
      var routed := Routed(Overwritten(kept, low, r.evidence), r.failure, r.x, low, kept);
      AllSourced(p, routed, PrimaryOf(first))
  {
    hide FromCall, Confident, Heard, OnlyLast;
    var kept := Confident(p.profile.routing.confidence, first.evidence);
    var routed := Routed(Overwritten(kept, low, r.evidence), r.failure, r.x, low, kept);
    OverwrittenAt(kept, low, r.evidence);
    HeardFirst(p, x, first);
    EndsGrown(p, first.x, r, low);
    hide Ends, Overwritten, Sourced;
    forall i: nat | i < |routed.evidence| ensures Sourced(p, routed, PrimaryOf(first), i) {
      SourcedOne(p, x, first, r, low, routed, i);
    }
  }

  /** One rule: settled by the escalation if it was sent on, and the primary's own otherwise. */
  lemma SourcedOne(p: Plan, x: Execution, first: Invocation, r: Invocation, low: seq<nat>, routed: Routed, i: nat)
    requires p.profile.routing.confidence.enabled ==> p.profile.routing.confidence.minimumAccepted.Some?
    requires Heard(p, x, first, PrimaryLeg, AllIndexes(|p.request.rules|)) && first.failure.None?
    requires |first.evidence| == |p.request.rules| && IndexesOk(p, low) && |r.evidence| == |low| && Ends(p, first.x, r, low)
    requires routed.x == r.x && routed.failure == r.failure && routed.escalated == low && |routed.evidence| == |first.evidence|
    requires forall k :: 0 <= k < |low| ==> low[k] < |routed.evidence| && routed.evidence[low[k]] == r.evidence[k]
    requires i < |routed.evidence|
    requires i !in low ==> routed.evidence[i] == Confident(p.profile.routing.confidence, first.evidence)[i]
    ensures Sourced(p, routed, PrimaryOf(first), i)
  {
    hide FromCall, Confident, OnlyLast;
    HeardFirst(p, x, first);
    EndsGrown(p, first.x, r, low);
    hide Ends, EndsWell, CloneResults, FailedRules;
    if i in low {
      var k :| 0 <= k < |low| && low[k] == i;
      SettledLast(p, first.x, r, low, k);
    } else {
      KeptFirst(p, x, first, r.x, i);
    }
  }

  lemma EndsGrown(p: Plan, x: Execution, r: Invocation, indexes: seq<nat>)
    requires p.profile.routing.confidence.enabled ==> p.profile.routing.confidence.minimumAccepted.Some?
    requires IndexesOk(p, indexes) && Ends(p, x, r, indexes)
    ensures Grows(x, r.x) && |r.x.trace| == |r.x.world.calls| && AskedLater(x.trace, r.x.trace, indexes)
  {
  }

  lemma SourcedPlainly(p: Plan, x: Execution, first: Invocation)
    requires p.profile.routing.confidence.enabled ==> p.profile.routing.confidence.minimumAccepted.Some?
    requires Heard(p, x, first, PrimaryLeg, AllIndexes(|p.request.rules|)) && first.failure.None?
    requires |first.evidence| == |p.request.rules|
    ensures var kept := Confident(p.profile.routing.confidence, first.evidence);
      var routed := Routed(kept, None, first.x, [], kept);
      AllSourced(p, routed, PrimaryOf(first))
  {
    hide FromCall, Confident, OnlyLast, EndsWell;
    var kept := Confident(p.profile.routing.confidence, first.evidence);
    var routed := Routed(kept, None, first.x, [], kept);
    forall i: nat | i < |kept| ensures Sourced(p, routed, PrimaryOf(first), i) {
      KeptFirst(p, x, first, first.x, i);
    }
  }

  /**
   Every piece of evidence a run ends with is what is believed of an adapter's own answer to that rule, in the attempt
   that answers for it, or it is the run's failure: the primary's one successful attempt answers for the rules that
   were not sent on, the last attempt of the run for all others. After the primary has succeeded, only the rules sent
   on are asked.
   */
  lemma EvidenceIsHeard(p: Plan, x: Execution) returns (primary: Option<nat>)
    requires PlanOk(p) && Probed(p) && Begins(p, x) && RouteAll(p, x).Some?
    ensures p.profile.routing.confidence.enabled ==> p.profile.routing.confidence.minimumAccepted.Some?
    ensures var r := RouteAll(p, x).value;
      && |r.evidence| == |p.request.rules| && |r.x.trace| == |r.x.world.calls|
      && PrimaryAt(p, r.x.trace, primary) && SentOn(p, r, primary)
      && AskedOf(p, r.x.trace, primary, r.escalated)
      && AllSourced(p, r, primary)
      && (r.failure.Some? && primary.Some? ==> p.profile.routing.escalation.Some?)
  {
    hide PlanOk, Probed, First, Chain, Escalate, Overwritten, LowIndexes, Confident, Entries, Heard, Ends, Sourced,
         SentOn, PrimaryAt, IndexesOk, AskedLater, AskedOf, StrictlyIncreasing, AllSourced;
    FirstHears(p, x);
    ConfidenceIsSetByPlan(p);
    CountsAgree(p);
    var first, all, c := First(p, x), AllIndexes(|p.request.rules|), p.profile.routing.confidence;
    HeardFirst(p, x, first);
    primary := PrimaryOf(first);
    if first.failure.Some? {
      ChainEnds(p, first.x, 0, all, first.evidence, first.failure.value);
      var settled := Chain(p, first.x, 0, all, first.evidence, first.failure.value);
      EndsGrown(p, first.x, settled, all);
      PrimaryFound(p, x, first, settled.x, all);
      SourcedWithoutPrimary(p, first.x, settled, first.evidence);
    } else {
      var low, kept := LowIndexes(c, first.evidence), Confident(c, first.evidence);
      if low != [] && p.profile.routing.escalation.Some? {
        LowIsExact(c, first.evidence);
        IncreasingIsOk(p, low);
        EscalateEnds(p, first.x, low);
        var settled := Escalate(p, first.x, low);
        EndsGrown(p, first.x, settled, low);
        PrimaryFound(p, x, first, settled.x, low);
        SourcedWithEscalation(p, x, first, settled, low);
        LowWasSentOn(p, x, first, Routed(Overwritten(kept, low, settled.evidence), settled.failure, settled.x, low, kept));
      } else {
        NoneAdded(first.x.trace, []);
        PrimaryFound(p, x, first, first.x, []);
        SourcedPlainly(p, x, first);
        LowWasSentOn(p, x, first, Routed(kept, None, first.x, [], kept));
      }
    }
  }

  lemma IncreasingIsOk(p: Plan, indexes: seq<nat>)
    requires StrictlyIncreasing(indexes, |p.request.rules|)
    ensures IndexesOk(p, indexes)
  {
  }

  lemma CountsAgree(p: Plan)
    requires PlanOk(p)
    ensures |p.request.rules| == |p.policy.rules|
  {
  }

  lemma HeardFirst(p: Plan, x: Execution, first: Invocation)
    requires Heard(p, x, first, PrimaryLeg, AllIndexes(|p.request.rules|))
    ensures |first.x.trace| == |first.x.world.calls| && Grows(first.x, first.x)
    ensures first.failure.None? ==> first.x.trace != []
    ensures IndexesOk(p, AllIndexes(|p.request.rules|))
    ensures first.failure.Some? ==>
              first.evidence == FailedRules(Select(p.request.rules, AllIndexes(|p.request.rules|)), first.failure.value)
  {
  }

  /** In a run that ended with a failure, a result that did not fail is the primary's own answer, good enough to keep. */
  ghost predicate Retained(p: Plan, x: Execution, i: nat, e: Evidence)
    requires p.profile.routing.confidence.enabled ==> p.profile.routing.confidence.minimumAccepted.Some?
  {
    exists j :: PrimarySucceeded(x.trace, j) && AnswersPlainly(p, x, j, i, e)
  }

  ghost predicate AnswersPlainly(p: Plan, x: Execution, j: nat, i: nat, e: Evidence)
    requires p.profile.routing.confidence.enabled ==> p.profile.routing.confidence.minimumAccepted.Some?
  {
    && j < |x.world.calls| && i < |x.world.calls[j].answer.result.evidence|
    && var raw := x.world.calls[j].answer.result.evidence[i];
       e == raw.(message := "") && !IsLow(p.profile.routing.confidence, raw)
  }

  lemma FailureRetainsPrimary(p: Plan, x: Execution)
    requires PlanOk(p) && Probed(p) && Begins(p, x) && RouteAll(p, x).Some?
    ensures p.profile.routing.confidence.enabled ==> p.profile.routing.confidence.minimumAccepted.Some?
    ensures var r := RouteAll(p, x).value;
      r.failure.Some? ==>
        forall i: nat :: i < |r.evidence| && !r.evidence[i].status.Failed? ==> Retained(p, r.x, i, r.evidence[i])
  {
    hide PlanOk, Probed, Begins, RouteAll;
    var primary := EvidenceIsHeard(p, x);
    var r := RouteAll(p, x).value;
    if r.failure.Some? {
      forall i: nat | i < |r.evidence| && !r.evidence[i].status.Failed? ensures Retained(p, r.x, i, r.evidence[i]) {
        assert Sourced(p, r, primary, i);
        var j := primary.value;
        var k :| 0 <= k < |r.x.trace[j].ruleIndexes| && k < |r.x.world.calls[j].answer.result.evidence|
                 && r.x.trace[j].ruleIndexes[k] == i
                 && r.evidence[i] == Believed(p.profile.routing.confidence, r.x.world.calls[j].answer.result.evidence[k]);
        assert k == i;
        assert PrimarySucceeded(r.x.trace, j);
        assert AnswersPlainly(p, r.x, j, i, r.evidence[i]);
      }
    }
  }
}
