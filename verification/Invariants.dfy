/** What every attempt and every wait of a run keeps, and so every run. */
module Invariants {
  import opened Wrappers
  import opened Codes
  import opened Traces
  import opened Decisions
  import opened Evaluations
  import opened Profiles
  import opened Surroundings
  import opened Routes

  // The trace grammar: which attempt may follow which.

  ghost predicate StrictlyIncreasing(s: seq<nat>, bound: nat) {
    (forall k :: 0 <= k < |s| ==> s[k] < bound) && forall j, k :: 0 <= j < k < |s| ==> s[j] < s[k]
  }

  /** The fallback after `id` on the leg it ran on: the first one, or the next in the list. */
  ghost predicate NextFallback(p: Plan, leg: Leg, id: string, next: string) {
    var fallbacks := Fallbacks(p.profile.routing);
    if leg.FallbackLeg? then exists j :: 1 <= j < |fallbacks| && fallbacks[j - 1] == id && fallbacks[j] == next
    else fallbacks != [] && fallbacks[0] == next
  }

  ghost predicate Follows(p: Plan, previous: Option<Attempt>, id: string, leg: Leg, indexes: seq<nat>, attempt: nat) {
    var routing := p.profile.routing;
    && id in Entries(p.profile.evaluators)
    && StrictlyIncreasing(indexes, |p.request.rules|)
    && if attempt > 1 then
         // A retry: the same evaluator again, after a class it retries on, within its limit.
         && previous.Some?
         && previous.value.evaluatorID == id && previous.value.leg == leg && previous.value.ruleIndexes == indexes
         && previous.value.attempt == attempt - 1
         && attempt <= EntryOf(p, id).retry.maxAttempts
         && Listed(previous.value.code, EntryOf(p, id).retry.retryOn)
       else
         match leg
         case PrimaryLeg =>
           attempt == 1 && previous.None? && id == routing.primary && indexes == AllIndexes(|p.request.rules|)
         case EscalationLeg =>
           // Only after a successful primary.
           && attempt == 1 && previous.Some? && previous.value.leg.PrimaryLeg? && previous.value.code == Succeeded
           && routing.escalation == Some(id) && indexes != []
         case FallbackLeg =>
           // Only after a failure whose class is configured, over the same rules.
           && attempt == 1 && previous.Some? && Listed(previous.value.code, routing.fallbackOn)
           && previous.value.ruleIndexes == indexes
           && NextFallback(p, previous.value.leg, previous.value.evaluatorID, id)
  }

  function Last(trace: seq<Attempt>): Option<Attempt> {
    if trace == [] then None else Some(trace[|trace| - 1])
  }

  function Preceding(trace: seq<Attempt>, i: nat): Option<Attempt>
    requires i < |trace|
  {
    if i == 0 then None else Some(trace[i - 1])
  }

  ghost predicate Grammar(p: Plan, trace: seq<Attempt>) {
    forall i :: 0 <= i < |trace| ==>
      var a := trace[i];
      Follows(p, Preceding(trace, i), a.evaluatorID, a.leg, a.ruleIndexes, a.attempt)
  }

  // Accounting

  ghost predicate UsageOk(u: Usage) {
    && !u.status.UnlistedUsage?
    && (u.status.Reported? <==> u.inputTokens.Some?)
    && (u.outputTokens.Some? ==> u.status.Reported?)
    && (u.inputTokens.Some? ==> 0 <= u.inputTokens.value <= MAX_USAGE_TOKENS)
    && (u.outputTokens.Some? ==> 0 <= u.outputTokens.value <= MAX_USAGE_TOKENS)
  }

  /** What is recorded of the usage an adapter reported: itself if it is in order, and nothing usable otherwise. */
  ghost function Accounted(reported: Option<Usage>): Usage {
    if reported.None? then Usage(Unavailable, None, None)
    else if UsageOk(reported.value) then reported.value
    else Usage(Invalid, None, None)
  }

  /** Some adapter reported usage. */
  ghost predicate AnyReported(calls: seq<Call>) {
    exists i :: 0 <= i < |calls| && calls[i].answer.result.usage.Some?
  }

  ghost predicate Aligned(x: Execution) {
    && |x.usage| == |x.trace| == |x.world.calls| <= MAX_EVALUATOR_ATTEMPTS
    && (x.usageEnabled <==> AnyReported(x.world.calls))
    && forall i :: 0 <= i < |x.usage| ==> x.usage[i] == UsageRecord(i, x.world.calls[i].answer)
  }

  /** The usage record of one answer: what it reported, and its error's code if that is fit to publish. */
  ghost function UsageRecord(i: nat, answer: Answer): UsageAttempt {
    UsageAttempt(i, if answer.fault.Some? && answer.fault.value.Fault? && IsReasonCode(answer.fault.value.code)
                    then Some(answer.fault.value.code) else None,
                 Accounted(answer.result.usage))
  }

  /** The evaluator IDs of a trace with repeats collapsed. */
  function Collapsed(trace: seq<Attempt>): seq<string> {
    if trace == [] then []
    else
      var n := |trace| - 1;
      if n > 0 && trace[n - 1].evaluatorID == trace[n].evaluatorID then Collapsed(trace[..n])
      else Collapsed(trace[..n]) + [trace[n].evaluatorID]
  }

  ghost predicate AnyFallback(trace: seq<Attempt>) {
    exists i :: 0 <= i < |trace| && trace[i].leg.FallbackLeg?
  }

  ghost predicate Summarised(x: Execution) {
    x.route == Collapsed(x.trace) && (x.fallback <==> AnyFallback(x.trace))
  }

  // Calls and their records

  /** The call was due at its evaluator's timeout or at the run's deadline, whichever is earlier. */
  predicate Due(p: Plan, e: Entry, c: Call) {
    && c.deadline <= c.start + e.timeoutMS * MILLISECOND && c.deadline <= p.request.deadline
    && (c.deadline == c.start + e.timeoutMS * MILLISECOND || c.deadline == p.request.deadline)
  }

  /** The call asked the run's request of its evaluator's adapter, cut down to the rules of the attempt and its deadline. */
  predicate Asks(p: Plan, a: Attempt, e: Entry, c: Call)
    requires IndexesOk(p, a.ruleIndexes)
  {
    && c.adapter == Component(e.adapterID, e.adapterVersion)
    && c.request.policyName == p.request.policyName && c.request.policyDigest == p.request.policyDigest
    && c.request.profileDigest == p.request.profileDigest && c.request.correlationID == p.request.correlationID
    && c.request.input == p.request.input && c.request.deadline == c.deadline
    && |c.request.rules| == |a.ruleIndexes|
    && forall k :: 0 <= k < |a.ruleIndexes| ==> c.request.rules[k] == p.request.rules[a.ruleIndexes[k]]
  }

  /** The codes that a retry or a fallback can be configured for. */
  predicate Passing(code: Code) {
    code.EvaluatorTimeout? || code.EvaluatorUnavailable? || code.EvaluatorThrottled?
  }

  /** The class of this code is on the list. */
  predicate Listed(code: Code, classes: Option<seq<Class>>) {
    && classes.Some?
    && (|| (code.EvaluatorTimeout? && TimeoutClass in classes.value)
        || (code.EvaluatorUnavailable? && UnavailableClass in classes.value)
        || (code.EvaluatorThrottled? && ThrottledClass in classes.value))
  }

  lemma ListedExactly(code: Code, classes: Option<seq<Class>>)
    requires forall c :: c in classes.GetOr([]) ==> !c.UnlistedClass?
    ensures Transient(code) in classes.GetOr([]) <==> Listed(code, classes)
    ensures IsTransient(code) <==> Passing(code)
  {
  }

  /** Metadata an adapter may report for this evaluator. */
  predicate IsFrom(e: Entry, m: Metadata) {
    && m.adapterID == e.adapterID && m.adapterVersion == e.adapterVersion && m.mode == e.mode
    && (m.synthetic <==> e.mode.DeterministicFixture?)
    && m.provider == (if e.provider.Some? then e.provider.value else "")
    && m.fixtureSet == (if e.mode.DeterministicFixture? then FixtureSet(e) else "")
    && m.fixtureVersion == (if e.mode.DeterministicFixture? then FixtureVersion(e) else "")
    && (m.modelRevision == "" || e.modelRevision.None? || m.modelRevision == e.modelRevision.value)
  }

  /** What is reported of an evaluator whose adapter did not get to report for itself. */
  predicate Describes(m: Metadata, e: Entry) {
    && IsFrom(e, m) && m.model == (if e.model.Some? then e.model.value else "")
    && m.modelRevision == "" && m.requestID == ""
  }

  /**
   The code of a call: a stop, with its cause, if the run had ended or was ended by then; otherwise lateness, the
   adapter's own error if a retry could be configured for it, any other error, an invalid result, or success.
   */
  predicate JudgedAs(p: Plan, e: Entry, code: Code, c: Call) {
    if !c.signal.Quiet? || c.judged >= p.request.deadline then
      && code in {Cancelled, DeadlineExceeded, EvaluatorTimeout}
      && (code.Cancelled? ==> !c.signal.Quiet?)
      && (code.DeadlineExceeded? ==> c.judged >= p.request.deadline || c.signal.DeadlineSignal?)
      && (code.EvaluatorTimeout? ==> c.signal.Quiet?)
    else if c.judged >= c.deadline || c.answer.expired then code == EvaluatorTimeout
    else if c.answer.fault.Some? then
      if c.answer.fault.value.Fault? && c.answer.fault.value.retryable && Passing(c.answer.fault.value.code)
      then code == c.answer.fault.value.code
      else code == AdapterFailed
    else if ResultOk(c.request, c.answer.result) && IsFrom(e, c.answer.result.metadata) then code == Succeeded
    else code == InvalidResult
  }

  /** What holds of every call and its record. */
  ghost predicate CallOk(p: Plan, a: Attempt, c: Call) {
    && a.evaluatorID in Entries(p.profile.evaluators)
    && IndexesOk(p, a.ruleIndexes)
    && c.start <= c.returned <= c.judged <= c.ended
    && c.given == Lent(p, EntryOf(p, a.evaluatorID))
    && Due(p, EntryOf(p, a.evaluatorID), c)
    && Asks(p, a, EntryOf(p, a.evaluatorID), c)
    && JudgedAs(p, EntryOf(p, a.evaluatorID), a.code, c)
    && Names(a, EntryOf(p, a.evaluatorID), c)
  }

  /**
   A record names its evaluator's adapter and model and how long the call took, and what the adapter says the model
   was resolved to if the attempt counts.
   */
  predicate Names(a: Attempt, e: Entry, c: Call) {
    && a.adapterID == e.adapterID && a.adapterVersion == e.adapterVersion
    && a.latencyMS == (c.ended - c.start) / MILLISECOND
    && a.provider == (if e.provider.Some? then e.provider.value else "")
    && a.requestedModel == (if e.model.Some? then e.model.value else "")
    && a.requestedRevision == (if e.modelRevision.Some? then e.modelRevision.value else "")
    && (if a.code == Succeeded then
          && a.resolvedModel == c.answer.result.metadata.model
          && a.resolvedRevision == c.answer.result.metadata.modelRevision
          && (a.revisionAvailable <==> c.answer.result.metadata.modelRevision != "")
        else a.resolvedModel == "" && a.resolvedRevision == "" && !a.revisionAvailable)
  }

  ghost predicate Timely(p: Plan, x: Execution) {
    |x.trace| == |x.world.calls| && forall i :: 0 <= i < |x.trace| ==> CallOk(p, x.trace[i], x.world.calls[i])
  }

  // The reported identity

  /** Every routed evaluator's own metadata passes the result validator: the probe made before acceptance. */
  ghost predicate Probed(p: Plan) {
    forall i :: 0 <= i < |RouteOf(p.profile.routing)| ==>
      var id := RouteOf(p.profile.routing)[i];
      id in Entries(p.profile.evaluators) && MetadataOk(MetadataOf(EntryOf(p, id)))
  }

  /** The metadata kept are the last answer's own if it counted, and its evaluator's if not. */
  ghost predicate LastOk(p: Plan, x: Execution) {
    x.trace != [] ==>
      var n := |x.trace| - 1;
      && |x.world.calls| == n + 1
      && x.trace[n].evaluatorID in Entries(p.profile.evaluators) && MetadataOk(x.last)
      && IsFrom(EntryOf(p, x.trace[n].evaluatorID), x.last)
      && if x.trace[n].code == Succeeded then x.last == x.world.calls[n].answer.result.metadata
         else Describes(x.last, EntryOf(p, x.trace[n].evaluatorID))
  }

  ghost predicate Inv(p: Plan, x: Execution) {
    Aligned(x) && Summarised(x) && Timely(p, x) && Grammar(p, x.trace) && LastOk(p, x)
  }

  // The wait budget

  function Spent(waits: seq<Wait>): int {
    if waits == [] then 0
    else Spent(waits[..|waits| - 1]) + (if waits[|waits| - 1].kind.Skipped? then 0 else waits[|waits| - 1].delay)
  }

  function Later(a: int, b: int): int {
    if a > b then a else b
  }

  /**
   A wait is the longer of its floor and a jittered backoff, and slept for only if it is less than what is left.
   Whose error the floor comes from is for Pacing to say.
   */
  ghost predicate WaitOk(p: Plan, jitter: (int, nat) -> int, w: Wait) {
    && w.evaluatorID in Entries(p.profile.evaluators)
    && Scheduled(EntryOf(p, w.evaluatorID).retry) && w.attempt >= 1
    && w.base == BackoffMS(EntryOf(p, w.evaluatorID).retry, w.attempt) * MILLISECOND
    && 0 <= w.floor <= w.delay
    && (exists k: nat :: w.delay == Later(w.floor, jitter(w.base, k)))
    && w.remaining == p.request.deadline - w.at && w.remaining > 0
    && (w.kind.Skipped? <==> w.delay >= w.remaining)
  }

  ghost predicate Budget(p: Plan, w: World) {
    && (forall i :: 0 <= i < |w.waits| ==> WaitOk(p, w.jitter, w.waits[i]))
    && (Spent(w.waits) == 0 || p.started + Spent(w.waits) < p.request.deadline)
  }

  /** Every sleep so far was slept out. */
  ghost predicate Paid(p: Plan, w: World) {
    p.started + Spent(w.waits) <= w.now
  }

  // Steps

  /** The entry `e` is the one the plan routes under its ID. */
  ghost predicate OnRoute(p: Plan, e: Entry) {
    && e.id in Entries(p.profile.evaluators) && EntryOf(p, e.id) == e
    && RetryOk(e.retry)
    && MetadataOk(MetadataOf(e))
  }

  ghost predicate Ended(x: Execution, id: string, leg: Leg, indexes: seq<nat>, code: Code) {
    x.trace != [] &&
    var a := x.trace[|x.trace| - 1];
    a.evaluatorID == id && a.leg == leg && a.ruleIndexes == indexes && a.code == code
  }

  lemma NormalizedIsAccounted(u: Usage)
    ensures NormalizedUsage(u) == Accounted(Some(u))
  {
  }

  lemma AccountedIsOk(reported: Option<Usage>)
    ensures UsageOk(Accounted(reported))
  {
  }

  lemma AppendKeepsAligned(x: Execution, y: Execution, call: Call)
    requires Aligned(x) && |x.trace| < MAX_EVALUATOR_ATTEMPTS
    requires |y.trace| == |x.trace| + 1 && |y.usage| == |x.usage| + 1
    requires y.usage[..|x.usage|] == x.usage && y.usage[|x.usage|] == UsageRecord(|x.trace|, call.answer)
    requires y.usageEnabled == (x.usageEnabled || call.answer.result.usage.Some?)
    requires y.world.calls == x.world.calls + [call]
    ensures Aligned(y)
  {
    hide UsageRecord, AnyReported;
    OneMoreReport(x.world.calls, call);
    forall i | 0 <= i < |y.usage| ensures y.usage[i] == UsageRecord(i, y.world.calls[i].answer) {
      if i < |x.usage| {
        assert y.usage[i] == x.usage[i];
      }
    }
  }

  lemma OneMoreReport(calls: seq<Call>, call: Call)
    ensures AnyReported(calls + [call]) <==> AnyReported(calls) || call.answer.result.usage.Some?
  {
    if AnyReported(calls) {
      var i :| 0 <= i < |calls| && calls[i].answer.result.usage.Some?;
      assert (calls + [call])[i] == calls[i];
    }
    if call.answer.result.usage.Some? {
      assert (calls + [call])[|calls|] == call;
    }
  }

  lemma {:induction false} LastOfCollapsed(trace: seq<Attempt>)
    requires trace != []
    ensures Collapsed(trace) != [] && Collapsed(trace)[|Collapsed(trace)| - 1] == trace[|trace| - 1].evaluatorID
  {
    var n := |trace| - 1;
    if n > 0 && trace[n - 1].evaluatorID == trace[n].evaluatorID {
      LastOfCollapsed(trace[..n]);
    }
  }

  lemma ExtendKeepsSummary(trace: seq<Attempt>, a: Attempt)
    ensures Collapsed(trace + [a]) == ExtendRoute(Collapsed(trace), a.evaluatorID)
    ensures AnyFallback(trace + [a]) <==> AnyFallback(trace) || a.leg.FallbackLeg?
  {
    var longer := trace + [a];
    assert longer[..|trace|] == trace;
    if trace != [] {
      LastOfCollapsed(trace);
      assert longer[|trace| - 1] == trace[|trace| - 1];
    }
    if AnyFallback(trace) {
      var i :| 0 <= i < |trace| && trace[i].leg.FallbackLeg?;
      assert longer[i].leg.FallbackLeg?;
    }
    assert longer[|trace|] == a;
    if AnyFallback(longer) {
      var i :| 0 <= i < |longer| && longer[i].leg.FallbackLeg?;
      if i < |trace| {
        assert trace[i].leg.FallbackLeg?;
      }
    }
  }

  lemma AppendKeepsGrammar(p: Plan, trace: seq<Attempt>, a: Attempt)
    requires Grammar(p, trace) && Follows(p, Last(trace), a.evaluatorID, a.leg, a.ruleIndexes, a.attempt)
    ensures Grammar(p, trace + [a])
  {
    hide Follows;
    var longer := trace + [a];
    forall i | 0 <= i < |longer|
      ensures Follows(p, Preceding(longer, i),
                      longer[i].evaluatorID, longer[i].leg, longer[i].ruleIndexes, longer[i].attempt)
    {
      if i < |trace| {
        assert longer[i] == trace[i] && Preceding(longer, i) == Preceding(trace, i);
      } else {
        assert longer[i] == a && Preceding(longer, i) == Last(trace);
      }
    }
  }

  lemma AppendKeepsTimely(p: Plan, x: Execution, y: Execution, a: Attempt, call: Call)
    requires Timely(p, x) && y.trace == x.trace + [a] && y.world.calls == x.world.calls + [call] && CallOk(p, a, call)
    ensures Timely(p, y)
  {
    hide CallOk;
  }

  predicate Operational(c: Code) {
    c in {EvaluatorTimeout, EvaluatorUnavailable, EvaluatorThrottled, DeadlineExceeded, Cancelled, AttemptLimit,
          AdapterFailed, InvalidResult}
  }

  lemma JudgedCodes(p: Plan, e: Entry, request: Request, answer: Answer, w: World)
    ensures var c := Judge(p, e, request, answer, w).code; c.Some? ==> Operational(c.value)
  {
    hide ResultOk, MetadataMatches;
  }

  lemma MatchesExactly(e: Entry, m: Metadata)
    ensures MetadataMatches(e, m) <==> IsFrom(e, m)
    ensures Describes(MetadataOf(e), e)
  {
  }

  lemma ClassifiedCode(fault: Fault)
    ensures Classify(fault) == if fault.Fault? && fault.retryable && Passing(fault.code) then fault.code else AdapterFailed
  {
  }

  /** What a stop tells, and when there must be one: a deadline that has passed is never told as a cancellation. */
  lemma StopTells(w: World, deadline: int)
    ensures var stop := Stopped(w, deadline);
      && (stop.code == Some(Cancelled) ==> !stop.world.signal.Quiet?)
      && (stop.code == Some(DeadlineExceeded) ==> stop.world.now >= deadline || stop.world.signal.DeadlineSignal?)
      && (stop.code.None? ==> stop.world.signal.Quiet? && w.now < deadline)
      && (w.now >= deadline || w.signal.DeadlineSignal? ==> stop.code == Some(DeadlineExceeded))
  {
    hide Coming;
  }

  /** The judgement of an answer, in terms of what is on record of its call. */
  lemma JudgedExactly(p: Plan, e: Entry, answer: Answer, returned: World, c: Call)
    requires c.request.deadline == c.deadline <= p.request.deadline && c.answer == answer
    requires c.judged == Judge(p, e, c.request, answer, returned).world.now
    requires c.signal == Stopped(returned, p.request.deadline).world.signal
    ensures JudgedAs(p, e, Judge(p, e, c.request, answer, returned).code.GetOr(Succeeded), c)
  {
    hide ResultOk, MetadataMatches, Stopped, Classify, IsFrom;
    StopTells(returned, p.request.deadline);
    MatchesExactly(e, answer.result.metadata);
    if answer.fault.Some? {
      ClassifiedCode(answer.fault.value);
    }
  }

  /** A finished call judges its own record rightly, whatever leg it was made on. */
  lemma CallIsOk(p: Plan, w: World, e: Entry, indexes: seq<nat>, a: Attempt)
    requires OnRoute(p, e) && IndexesOk(p, indexes)
    requires a.evaluatorID == e.id && a.ruleIndexes == indexes
    requires a.code == CallAdapter(p, w, e, indexes).failure.GetOr(Succeeded)
    requires Names(a, e, CallAdapter(p, w, e, indexes).call)
    ensures CallOk(p, a, CallAdapter(p, w, e, indexes).call)
  {
    hide RetryOk, MetadataOk, Judge, Stopped, AttemptRequest, Covers, Names, JudgedAs, Tick, Lent, Entries;
    var begun := Tick(w);
    var deadline := Earlier(begun.now + e.timeoutMS * MILLISECOND, p.request.deadline);
    var c := CallAdapter(p, w, e, indexes).call;
    AttemptAsks(p, indexes, deadline);
    JudgedExactly(p, e, Coming(begun).answer, Tick(begun), c);
  }

  lemma AttemptAsks(p: Plan, indexes: seq<nat>, deadline: int)
    requires IndexesOk(p, indexes)
    ensures var r := AttemptRequest(p, indexes, deadline);
      && r.policyName == p.request.policyName && r.policyDigest == p.request.policyDigest
      && r.profileDigest == p.request.profileDigest && r.correlationID == p.request.correlationID
      && r.input == p.request.input && r.deadline == deadline && |r.rules| == |indexes|
      && forall k :: 0 <= k < |indexes| ==> r.rules[k] == p.request.rules[indexes[k]]
  {
  }

  lemma CallFails(p: Plan, w: World, e: Entry, indexes: seq<nat>)
    requires IndexesOk(p, indexes)
    ensures var c := CallAdapter(p, w, e, indexes); c.failure.Some? ==> Operational(c.failure.value)
  {
    hide Judge, Stopped, AttemptRequest, Covers, Operational;
    var begun := Tick(w);
    var deadline := Earlier(begun.now + e.timeoutMS * MILLISECOND, p.request.deadline);
    JudgedCodes(p, e, AttemptRequest(p, indexes, deadline), Coming(begun).answer, Tick(begun));
  }

  lemma RecordNames(e: Entry, leg: Leg, attempt: nat, indexes: seq<nat>, failure: Option<Code>, c: Call)
    requires failure != Some(Succeeded) && c.start <= c.ended
    ensures Names(Record(e, leg, attempt, indexes, failure, c.answer.result.metadata, c.ended - c.start), e, c)
  {
  }

  lemma RecordShape(x: Execution, e: Entry, leg: Leg, indexes: seq<nat>, attempt: nat, c: Called)
    ensures var y := RecordCall(x, e, leg, indexes, attempt, c);
      var a := Record(e, leg, attempt, indexes, c.failure, c.answer.result.metadata, c.elapsed);
      && y.trace == x.trace + [a]
      && a.evaluatorID == e.id && a.leg == leg && a.attempt == attempt && a.ruleIndexes == indexes
      && a.code == c.failure.GetOr(Succeeded)
      && |y.usage| == |x.usage| + 1 && y.usage[..|x.usage|] == x.usage
      && y.usage[|x.usage|] == UsageRecord(|x.trace|, c.answer)
      && y.usageEnabled == (x.usageEnabled || c.answer.result.usage.Some?)
      && y.route == ExtendRoute(x.route, e.id) && y.fallback == (x.fallback || leg.FallbackLeg?)
      && y.last == (if c.failure.None? then c.answer.result.metadata else MetadataOf(e))
      && y.world == c.world
  {
    hide UsageOk, NormalizedUsage;
    if c.answer.result.usage.Some? {
      NormalizedIsAccounted(c.answer.result.usage.value);
    }
  }

  /** Recording a call keeps every invariant, and the last record is its own. */
  lemma RecordKeeps(p: Plan, x: Execution, w: World, e: Entry, leg: Leg, indexes: seq<nat>, attempt: nat)
    requires Inv(p, x) && |x.trace| < MAX_EVALUATOR_ATTEMPTS && w.calls == x.world.calls
    requires OnRoute(p, e) && IndexesOk(p, indexes)
    requires Follows(p, Last(x.trace), e.id, leg, indexes, attempt)
    ensures var c := CallAdapter(p, w, e, indexes);
      var y := RecordCall(x, e, leg, indexes, attempt, c);
      && Inv(p, y)
      && Ended(y, e.id, leg, indexes, c.failure.GetOr(Succeeded)) && y.trace[|y.trace| - 1].attempt == attempt
      && |y.trace| == |x.trace| + 1
      && (c.failure.Some? ==> Operational(c.failure.value))
  {
    hide Follows, CallAdapter, CallOk, Accounted, MetadataOk, MetadataMatches, RetryOk, RecordCall, Record, MetadataOf, Names, Covers,
         StrictlyIncreasing, IndexesOk,
         Grammar, Timely, Aligned, Summarised, LastOk, Collapsed, AnyFallback, IsFrom, Describes, UsageRecord, ExtendRoute;
    var c := CallAdapter(p, w, e, indexes);
    var y := RecordCall(x, e, leg, indexes, attempt, c);
    var a := Record(e, leg, attempt, indexes, c.failure, c.answer.result.metadata, c.elapsed);
    RecordShape(x, e, leg, indexes, attempt, c);
    AnsweredCall(p, w, e, indexes);
    CallFails(p, w, e, indexes);
    RecordNames(e, leg, attempt, indexes, c.failure, c.call);
    CallIsOk(p, w, e, indexes, a);
    AppendKeepsTimely(p, x, y, a, c.call);
    AppendKeepsGrammar(p, x.trace, a);
    AppendKeepsSummary(x, y, a);
    AppendKeepsAligned(x, y, c.call);
    LastIsOk(p, w, e, indexes);
    CallsOnRecord(p, x);
    LastIsKept(p, x, y, a, c.call, e);
  }

  lemma CallsOnRecord(p: Plan, x: Execution)
    requires Timely(p, x)
    ensures |x.trace| == |x.world.calls|
  {
    hide CallOk;
  }

  lemma AppendKeepsSummary(x: Execution, y: Execution, a: Attempt)
    requires Summarised(x) && y.trace == x.trace + [a]
    requires y.route == ExtendRoute(x.route, a.evaluatorID) && y.fallback == (x.fallback || a.leg.FallbackLeg?)
    ensures Summarised(y)
  {
    hide Collapsed;
    ExtendKeepsSummary(x.trace, a);
  }

  lemma LastIsKept(p: Plan, x: Execution, y: Execution, a: Attempt, c: Call, e: Entry)
    requires OnRoute(p, e) && a.evaluatorID == e.id && y.trace == x.trace + [a] && y.world.calls == x.world.calls + [c]
    requires |x.trace| == |x.world.calls| && MetadataOk(y.last) && IsFrom(e, y.last)
    requires if a.code == Succeeded then y.last == c.answer.result.metadata else Describes(y.last, e)
    ensures LastOk(p, y)
  {
    hide MetadataOk, IsFrom, Describes, RetryOk, MetadataOf, Entries;
  }

  lemma AnsweredCall(p: Plan, w: World, e: Entry, indexes: seq<nat>)
    requires IndexesOk(p, indexes)
    ensures var c := CallAdapter(p, w, e, indexes);
      c.call.answer == c.answer && c.elapsed == c.call.ended - c.call.start && c.call.start <= c.call.ended
  {
    hide Judge, Stopped, Covers;
  }

  lemma LastIsOk(p: Plan, w: World, e: Entry, indexes: seq<nat>)
    requires OnRoute(p, e) && IndexesOk(p, indexes)
    ensures var c := CallAdapter(p, w, e, indexes);
      var last := if c.failure.None? then c.answer.result.metadata else MetadataOf(e);
      MetadataOk(last) && IsFrom(e, last) && Describes(MetadataOf(e), e)
  {
    hide Judge, MetadataOk, Stopped, MetadataMatches, IsFrom;
    var c := CallAdapter(p, w, e, indexes);
    MatchesExactly(e, c.answer.result.metadata);
    MatchesExactly(e, MetadataOf(e));
  }

  // Waits

  lemma NotedKeepsBudget(p: Plan, w: World, note: Wait)
    requires Budget(p, w) && Paid(p, w) && WaitOk(p, w.jitter, note) && note.at == w.now
    ensures Budget(p, Noted(w, note))
    ensures note.kind.Skipped? ==> Paid(p, Noted(w, note))
    ensures !note.kind.Skipped? ==> p.started + Spent(Noted(w, note).waits) <= w.now + note.delay
  {
    hide WaitOk;
    assert Noted(w, note).waits[..|w.waits|] == w.waits;
    assert WaitOk(p, w.jitter, note);
    WaitFits(p, w, note);
  }

  lemma WaitFits(p: Plan, w: World, note: Wait)
    requires WaitOk(p, w.jitter, note) && note.at == w.now
    ensures !note.kind.Skipped? ==> 0 <= note.delay && w.now + note.delay < p.request.deadline
  {
  }

  lemma ActKeeps(p: Plan, clock: World, note: Wait)
    requires Budget(p, clock) && Paid(p, clock) && WaitOk(p, clock.jitter, note) && note.at == clock.now
    requires note.kind.Slept? ==> !Coming(clock).sleepFails
    ensures note.delay >= 0
    ensures var pause := Act(p, clock, note);
      && Budget(p, pause.world) && pause.world.calls == clock.calls && pause.world.jitter == clock.jitter
      && (pause.Halt? ==> pause.code == DeadlineExceeded || pause.code == Cancelled)
      && (!pause.Halt? ==> Paid(p, pause.world))
  {
    NotedKeepsBudget(p, clock, note);
    assert Coming(Noted(clock, note)) == Coming(clock);
    hide WaitOk, Stopped, Sleep;
  }

  /** A backoff decision stays within the budget; when the run goes on, every sleep was slept out. */
  lemma BackoffKeeps(p: Plan, e: Entry, attempt: nat, fault: Option<Fault>, w: World)
    requires OnRoute(p, e) && Scheduled(e.retry) && attempt >= 1
    requires Budget(p, w) && Paid(p, w)
    ensures var pause := Backoff(p, e, attempt, fault, w);
      && Budget(p, pause.world) && pause.world.calls == w.calls && pause.world.jitter == w.jitter
      && (pause.Halt? ==> pause.code == DeadlineExceeded || pause.code == Cancelled)
      && (!pause.Halt? ==> Paid(p, pause.world))
  {
    hide Stopped, RetryOk, MetadataOk, BackoffMS, WaitOk, Tick, RetryAfter, Act, OnRoute;
    var base := BackoffMS(e.retry, attempt) * MILLISECOND;
    var jittered := w.jitter(base, w.tick);
    var floor := RetryAfter(fault);
    var delay := if floor > jittered then floor else jittered;
    var stop := Stopped(Tick(w), p.request.deadline);
    if stop.code.None? {
      var clock := Tick(stop.world);
      var remaining := p.request.deadline - clock.now;
      if remaining > 0 {
        var note := Deliberate(e, attempt, base, floor, delay, remaining, clock);
        NoteIsOk(p, e, clock, note, w.tick);
        ActKeeps(p, clock, note);
      }
    }
  }

  lemma NoteIsOk(p: Plan, e: Entry, w: World, note: Wait, tick: nat)
    requires OnRoute(p, e) && Scheduled(e.retry) && note.attempt >= 1 && note.evaluatorID == e.id
    requires note.base == BackoffMS(e.retry, note.attempt) * MILLISECOND
    requires 0 <= note.floor
    requires note.delay == Later(note.floor, w.jitter(note.base, tick))
    requires note.remaining == p.request.deadline - note.at && note.remaining > 0
    requires note.kind.Skipped? <==> note.delay >= note.remaining
    ensures WaitOk(p, w.jitter, note)
  {
  }
}
