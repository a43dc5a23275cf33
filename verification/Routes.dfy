/**
 The profile runner as a function of the world it runs in (evaluator/runner/runner.go,
 usage.go): attempts, retries, escalation and fallbacks.
 */
module Routes {
  import opened Wrappers
  import opened Codes
  import opened Traces
  import opened Policies
  import opened Decisions
  import opened Evaluations
  import opened Profiles
  import opened Surroundings

  const MILLISECOND := 1000000
  const MAX_USAGE_TOKENS := 9007199254740991

  /**
   What an accepted run is fixed to. `started` is the clock reading its deadline was taken from, `secrets` the
   credential bytes captured before the first attempt.
   */
  datatype Plan = Plan(policy: Policy, policyVersion: string, profile: Profile, profileVersion: string,
                       request: Request, started: int, secrets: map<Key, string>)

  /** The fields of `execution` that change, and the world. */
  datatype Execution = Execution(trace: seq<Attempt>, usage: seq<UsageAttempt>, usageEnabled: bool, route: seq<string>,
                                 last: Metadata, fallback: bool, world: World)

  function EntryOf(p: Plan, id: string): Entry
    requires id in Entries(p.profile.evaluators)
  {
    Entries(p.profile.evaluators)[id]
  }

  // Small pure helpers

  function Transient(code: Code): Class {
    match code
    case EvaluatorTimeout => TimeoutClass
    case EvaluatorUnavailable => UnavailableClass
    case EvaluatorThrottled => ThrottledClass
    case _ => UnlistedClass("")
  }

  predicate IsTransient(code: Code) {
    !Transient(code).UnlistedClass?
  }

  function Classify(fault: Fault): Code {
    if fault.Fault? && fault.retryable && IsTransient(fault.code) then fault.code else AdapterFailed
  }

  /** The wait the provider requires, or zero. */
  function RetryAfter(fault: Option<Fault>): (wait: int)
    ensures wait >= 0
  {
    if fault.Some? && fault.value.Fault? && fault.value.retryable && fault.value.retryAfter > 0
    then fault.value.retryAfter else 0
  }

  function MetadataOf(e: Entry): Metadata {
    var synthetic := e.mode.DeterministicFixture?;
    Metadata(e.adapterID, e.adapterVersion, e.mode, synthetic, e.provider.GetOr(""), e.model.GetOr(""), "", "",
             if synthetic then FixtureSet(e) else "", if synthetic then FixtureVersion(e) else "")
  }

  /** execution.matches. */
  predicate MetadataMatches(e: Entry, m: Metadata) {
    var expected := MetadataOf(e);
    && m.adapterID == expected.adapterID && m.adapterVersion == expected.adapterVersion
    && m.mode == expected.mode && m.synthetic == expected.synthetic && m.provider == expected.provider
    && m.fixtureSet == expected.fixtureSet && m.fixtureVersion == expected.fixtureVersion
    && (m.modelRevision == "" || e.modelRevision.None? || m.modelRevision == e.modelRevision.value)
  }

  function Select<T>(s: seq<T>, indexes: seq<nat>): (t: seq<T>)
    requires forall k :: 0 <= k < |indexes| ==> indexes[k] < |s|
    ensures |t| == |indexes| && forall k :: 0 <= k < |indexes| ==> t[k] == s[indexes[k]]
  {
    seq(|indexes|, k requires 0 <= k < |indexes| => s[indexes[k]])
  }

  function FailedRules(rules: seq<Question>, code: Code): (evidence: seq<Evidence>)
    ensures |evidence| == |rules|
    ensures forall i :: 0 <= i < |rules| ==> evidence[i] == Evidence(rules[i].id, Failed, None, [code], "")
  {
    seq(|rules|, i requires 0 <= i < |rules| => Evidence(rules[i].id, Failed, None, [code], ""))
  }

  /** cloneResults: the adapter's messages are dropped. */
  function CloneResults(source: seq<Evidence>): (evidence: seq<Evidence>)
    ensures |evidence| == |source| && forall i :: 0 <= i < |source| ==> evidence[i] == source[i].(message := "")
  {
    seq(|source|, i requires 0 <= i < |source| => source[i].(message := ""))
  }

  // Usage accounting

  predicate TokensOk(n: Option<int>) {
    n.Some? && 0 <= n.value <= MAX_USAGE_TOKENS
  }

  function NormalizedUsage(u: Usage): Usage {
    if u.status.Reported? && TokensOk(u.inputTokens) && (u.outputTokens.None? || TokensOk(u.outputTokens)) then u
    else if (u.status.Unavailable? || u.status.Invalid?) && u.inputTokens.None? && u.outputTokens.None? then u
    else Usage(Invalid, None, None)
  }

  /** execution.appendAttempt. */
  function AppendAttempt(x: Execution, attempt: Attempt, usage: Option<Usage>, fault: Option<Fault>): Execution {
    var u := if usage.Some? then NormalizedUsage(usage.value) else Usage(Unavailable, None, None);
    var code := if fault.Some? && fault.value.Fault? && IsReasonCode(fault.value.code) then Some(fault.value.code) else None;
    x.(usageEnabled := x.usageEnabled || usage.Some?,
       usage := x.usage + [UsageAttempt(|x.trace|, code, u)],
       trace := x.trace + [attempt])
  }

  // One attempt

  predicate IndexesOk(p: Plan, indexes: seq<nat>) {
    forall k :: 0 <= k < |indexes| ==> indexes[k] < |p.request.rules|
  }

  /** The request one attempt sends, and the copy its result is validated against. */
  function AttemptRequest(p: Plan, indexes: seq<nat>, deadline: int): Request
    requires IndexesOk(p, indexes)
  {
    p.request.(rules := Select(p.request.rules, indexes), deadline := deadline)
  }

  /** The failure of one returned call, or none: stop, lateness, the adapter's error, an invalid result. */
  function Judge(p: Plan, e: Entry, request: Request, answer: Answer, w: World): (c: Check)
    ensures c.world.now >= w.now
    ensures c.world.calls == w.calls && c.world.waits == w.waits && c.world.jitter == w.jitter
    ensures c.code.None? ==> ResultOk(request, answer.result) && MetadataMatches(e, answer.result.metadata)
  {
    var stop := Stopped(w, p.request.deadline);
    if stop.code.Some? then stop
    else
      var clock := Tick(stop.world);
      Check(if clock.now >= request.deadline || answer.expired then Some(EvaluatorTimeout)
            else if answer.fault.Some? then Some(Classify(answer.fault.value))
            else if !ResultOk(request, answer.result) || !MetadataMatches(e, answer.result.metadata) then Some(InvalidResult)
            else None, clock)
  }

  function Record(e: Entry, leg: Leg, attempt: nat, indexes: seq<nat>, failure: Option<Code>, m: Metadata, elapsed: int): Attempt {
    var ok := failure.None?;
    Attempt(e.id, e.adapterID, e.adapterVersion, leg, attempt, indexes,
            failure.GetOr(Succeeded),
            if elapsed / MILLISECOND < 0 then 0 else elapsed / MILLISECOND,
            e.provider.GetOr(""), e.model.GetOr(""), e.modelRevision.GetOr(""),
            if ok then m.model else "", if ok then m.modelRevision else "", ok && m.modelRevision != "")
  }

  function Earlier(a: int, b: int): int {
    if b < a then b else a
  }

  function ExtendRoute(route: seq<string>, id: string): seq<string> {
    if route == [] || route[|route| - 1] != id then route + [id] else route
  }

  /** The credential bytes an attempt of this evaluator is given. */
  function Lent(p: Plan, e: Entry): Option<string> {
    if e.credentialSlot.None? then None
    else Some(if KeyOf(e) in p.secrets then p.secrets[KeyOf(e)] else "")
  }

  /** A finished adapter call: its failure if any, its record and the world after it. */
  datatype Called = Called(failure: Option<Code>, answer: Answer, elapsed: int, call: Call, world: World)

  /** One adapter call, from reading its start time to reading its end time. */
  function CallAdapter(p: Plan, w: World, e: Entry, indexes: seq<nat>): (c: Called)
    requires IndexesOk(p, indexes)
    ensures c.failure.None? ==> Covers(Select(p.request.rules, indexes), c.answer.result.evidence)
    ensures c.world.calls == w.calls + [c.call] && c.world.waits == w.waits && c.world.jitter == w.jitter
    ensures c.world.now >= w.now
  {
    var begun := Tick(w);
    var deadline := Earlier(begun.now + e.timeoutMS * MILLISECOND, p.request.deadline);
    var answer := Coming(begun).answer;
    var returned := Tick(begun);
    var request := AttemptRequest(p, indexes, deadline);
    var judged := Judge(p, e, request, answer, returned);
    var ended := Tick(judged.world);
    var call := Call(begun.now, deadline, returned.now, judged.world.now, ended.now,
                     Stopped(returned, p.request.deadline).world.signal, AdapterOf(e), request, Lent(p, e), answer);
    Called(judged.code, answer, ended.now - begun.now, call, ended.(calls := ended.calls + [call]))
  }

  /** The bookkeeping of one finished call. */
  function RecordCall(x: Execution, e: Entry, leg: Leg, indexes: seq<nat>, attempt: nat, c: Called): Execution {
    var m := c.answer.result.metadata;
    var y := x.(last := if c.failure.None? then m else MetadataOf(e),
                route := ExtendRoute(x.route, e.id),
                fallback := x.fallback || leg.FallbackLeg?,
                world := c.world);
    AppendAttempt(y, Record(e, leg, attempt, indexes, c.failure, m, c.elapsed), c.answer.result.usage, c.answer.fault)
  }

  // Waiting before a retry

  datatype Pause = Halt(code: Code, world: World) | GiveUp(world: World) | Resume(world: World)

  /** The decision recorded once the budget is known: too long, cut short or slept out. */
  function Deliberate(e: Entry, attempt: nat, base: int, floor: int, delay: int, remaining: int, clock: World): Wait {
    Wait(|clock.calls|, e.id, attempt, base, floor, delay, clock.now, remaining,
         if delay >= remaining then Skipped else if Coming(clock).sleepFails then Interrupted else Slept)
  }

  /** Acting on a recorded decision. */
  function Act(p: Plan, clock: World, note: Wait): Pause
    requires note.delay >= 0
  {
    match note.kind
    case Skipped => GiveUp(Noted(clock, note))
    case Interrupted =>
      var woken := Stopped(Sleep(Noted(clock, note), note.delay), p.request.deadline);
      Halt(woken.code.GetOr(Cancelled), woken.world)
    case Slept => Resume(Sleep(Noted(clock, note), note.delay))
  }

  function Backoff(p: Plan, e: Entry, attempt: nat, fault: Option<Fault>, w: World): Pause
    requires Scheduled(e.retry) && attempt >= 1
  {
    var base := BackoffMS(e.retry, attempt) * MILLISECOND;
    var jittered := w.jitter(base, w.tick);
    var floor := RetryAfter(fault);
    var delay := if floor > jittered then floor else jittered;
    var stop := Stopped(Tick(w), p.request.deadline);
    if stop.code.Some? then Halt(stop.code.value, stop.world)
    else
      var clock := Tick(stop.world);
      var remaining := p.request.deadline - clock.now;
      if remaining <= 0 then Halt(DeadlineExceeded, clock)
      else Act(p, clock, Deliberate(e, attempt, base, floor, delay, remaining, clock))
  }

  function Noted(w: World, note: Wait): World {
    w.(waits := w.waits + [note])
  }

  // One evaluator with its retries

  datatype Invocation = Invocation(evidence: seq<Evidence>, failure: Option<Code>, x: Execution)

  function FailedWith(p: Plan, indexes: seq<nat>, code: Code, x: Execution): Invocation
    requires IndexesOk(p, indexes)
  {
    Invocation(FailedRules(Select(p.request.rules, indexes), code), Some(code), x)
  }

  /** execution.invoke from a numbered attempt on. */
  function Invoke(p: Plan, x: Execution, e: Entry, leg: Leg, indexes: seq<nat>, attempt: nat): (r: Invocation)
    requires RetryOk(e.retry) && IndexesOk(p, indexes) && 1 <= attempt <= e.retry.maxAttempts
    ensures |r.evidence| == |indexes|
    ensures |r.x.trace| >= |x.trace|
    decreases e.retry.maxAttempts - attempt
  {
    var stop := Stopped(x.world, p.request.deadline);
    if stop.code.Some? then FailedWith(p, indexes, stop.code.value, x.(world := stop.world))
    else if |x.trace| >= MAX_EVALUATOR_ATTEMPTS then FailedWith(p, indexes, AttemptLimit, x.(world := stop.world))
    else
      var c := CallAdapter(p, stop.world, e, indexes);
      var y := RecordCall(x, e, leg, indexes, attempt, c);
      if c.failure.None? then Invocation(CloneResults(c.answer.result.evidence), None, y)
      else if attempt == e.retry.maxAttempts || Transient(c.failure.value) !in RetryOn(e.retry) then
        FailedWith(p, indexes, c.failure.value, y)
      else
        match Backoff(p, e, attempt, c.answer.fault, c.world)
        case Halt(code, w) => FailedWith(p, indexes, code, y.(world := w))
        case GiveUp(w) => FailedWith(p, indexes, c.failure.value, y.(world := w))
        case Resume(w) => Invoke(p, y.(world := w), e, leg, indexes, attempt + 1)
  }

  /** One attempt, and the ones after it. */
  lemma InvokeStep(p: Plan, x: Execution, e: Entry, leg: Leg, indexes: seq<nat>, attempt: nat)
    requires RetryOk(e.retry) && IndexesOk(p, indexes) && 1 <= attempt <= e.retry.maxAttempts
    ensures attempt < e.retry.maxAttempts ==> Scheduled(e.retry)
    ensures var stop := Stopped(x.world, p.request.deadline);
      var x0 := x.(world := stop.world);
      var c := CallAdapter(p, stop.world, e, indexes);
      var y := RecordCall(x0, e, leg, indexes, attempt, c);
      Invoke(p, x, e, leg, indexes, attempt)
      == if stop.code.Some? then FailedWith(p, indexes, stop.code.value, x0)
         else if |x.trace| >= MAX_EVALUATOR_ATTEMPTS then FailedWith(p, indexes, AttemptLimit, x0)
         else if c.failure.None? then Invocation(CloneResults(c.answer.result.evidence), None, y)
         else if attempt == e.retry.maxAttempts || Transient(c.failure.value) !in RetryOn(e.retry) then
           FailedWith(p, indexes, c.failure.value, y)
         else
           match Backoff(p, e, attempt, c.answer.fault, c.world)
           case Halt(code, w) => FailedWith(p, indexes, code, y.(world := w))
           case GiveUp(w) => FailedWith(p, indexes, c.failure.value, y.(world := w))
           case Resume(w) => Invoke(p, y.(world := w), e, leg, indexes, attempt + 1)
  {
    var stop := Stopped(x.world, p.request.deadline);
    RecordIgnoresWorld(x, stop.world, e, leg, indexes, attempt, CallAdapter(p, stop.world, e, indexes));
    hide Stopped, CallAdapter, RecordCall, Backoff, FailedWith, Covers;
  }

  lemma RecordIgnoresWorld(x: Execution, w: World, e: Entry, leg: Leg, indexes: seq<nat>, attempt: nat, c: Called)
    ensures RecordCall(x.(world := w), e, leg, indexes, attempt, c) == RecordCall(x, e, leg, indexes, attempt, c)
  {
  }

  // Confidence

  predicate IsLow(c: Confidence, e: Evidence)
    requires c.enabled ==> c.minimumAccepted.Some?
  {
    c.enabled && !e.status.Failed? && (e.confidence.None? || e.confidence.value < c.minimumAccepted.value)
  }

  function Demoted(e: Evidence): Evidence {
    e.(status := Indeterminate, reasonCodes := [LowConfidence])
  }

  /** What applyConfidence leaves of each result. */
  function Confident(c: Confidence, evidence: seq<Evidence>): (r: seq<Evidence>)
    requires c.enabled ==> c.minimumAccepted.Some?
    ensures |r| == |evidence|
    ensures forall i :: 0 <= i < |evidence| ==> r[i] == if IsLow(c, evidence[i]) then Demoted(evidence[i]) else evidence[i]
  {
    seq(|evidence|, i requires 0 <= i < |evidence| => if IsLow(c, evidence[i]) then Demoted(evidence[i]) else evidence[i])
  }

  /** The indexes applyConfidence returns. */
  function LowIndexes(c: Confidence, evidence: seq<Evidence>): (low: seq<nat>)
    requires c.enabled ==> c.minimumAccepted.Some?
    ensures forall k :: 0 <= k < |low| ==> low[k] < |evidence|
  {
    if evidence == [] then []
    else
      var n := |evidence| - 1;
      LowIndexes(c, evidence[..n]) + (if IsLow(c, evidence[n]) then [n] else [])
  }

  // Fallbacks and the whole route

  /** A plan whose validated profile and request make the routing functions defined. */
  predicate PlanOk(p: Plan) {
    && ValidProfile(p.profile)
    && ValidPolicy(p.policy)
    && |p.request.rules| == |p.policy.rules|
    && (forall i :: 0 <= i < |p.policy.rules| ==> p.request.rules[i] == Question(p.policy.rules[i].id, p.policy.rules[i].when))
    && RequestOk(p.request)
    && p.request.deadline <= p.started + p.profile.totalTimeoutMS * MILLISECOND
  }

  predicate FallbackIDs(p: Plan, ids: seq<string>) {
    forall i :: 0 <= i < |ids| ==> ids[i] in Entries(p.profile.evaluators) && RetryOk(EntryOf(p, ids[i]).retry)
  }

  /** execution.fallbacks over the fallbacks not yet tried. */
  function TryFallbacks(p: Plan, x: Execution, ids: seq<string>, indexes: seq<nat>, evidence: seq<Evidence>, code: Code)
    : (r: Invocation)
    requires PlanOk(p) && FallbackIDs(p, ids) && IndexesOk(p, indexes) && |evidence| == |indexes|
    ensures |r.evidence| == |indexes|
    decreases |ids|
  {
    hide PlanOk, Invoke, Entries;
    ThresholdSet(p);
    if ids == [] || Transient(code) !in FallbackOn(p.profile.routing) then Invocation(evidence, Some(code), x)
    else
      var next := Invoke(p, x, EntryOf(p, ids[0]), FallbackLeg, indexes, 1);
      if next.failure.None? then next.(evidence := Confident(p.profile.routing.confidence, next.evidence))
      else TryFallbacks(p, next.x, ids[1..], indexes, next.evidence, next.failure.value)
  }

  function AllIndexes(n: nat): (indexes: seq<nat>)
    ensures |indexes| == n && forall i :: 0 <= i < n ==> indexes[i] == i
  {
    seq(n, i => i)
  }

  /** `evidence` with `replacement[i]` written at `low[i]`, in order. */
  function Overwritten(evidence: seq<Evidence>, low: seq<nat>, replacement: seq<Evidence>): (r: seq<Evidence>)
    requires |replacement| == |low| && forall k :: 0 <= k < |low| ==> low[k] < |evidence|
    ensures |r| == |evidence|
    decreases |low|
  {
    if low == [] then evidence
    else Overwritten(evidence[low[0] := replacement[0]], low[1..], replacement[1..])
  }

  lemma PlannedEntry(p: Plan, i: nat)
    requires ValidProfile(p.profile) && i < |RouteOf(p.profile.routing)|
    ensures var id := RouteOf(p.profile.routing)[i];
      id in Entries(p.profile.evaluators) && EntryOk(EntryOf(p, id), p.profile) && EntryOf(p, id).id == id
  {
    hide EntryOk, Entries, RouteOf, ConfidenceRoutingOk, HeaderOk, SlotsOk, ClassesOk, Distinct;
    assert EntryOf(p, RouteOf(p.profile.routing)[i]) in p.profile.evaluators;
  }

  lemma PlannedEntries(p: Plan)
    requires ValidProfile(p.profile)
    ensures forall i :: 0 <= i < |RouteOf(p.profile.routing)| ==>
              var id := RouteOf(p.profile.routing)[i];
              id in Entries(p.profile.evaluators) && EntryOk(EntryOf(p, id), p.profile) && EntryOf(p, id).id == id
    ensures p.profile.routing.primary == RouteOf(p.profile.routing)[0]
    ensures p.profile.routing.escalation.Some? ==> p.profile.routing.escalation.value == RouteOf(p.profile.routing)[1]
    ensures FallbackIDs(p, Fallbacks(p.profile.routing))
  {
    hide ValidProfile, EntryOk, Entries, RetryOk;
    var r := p.profile.routing;
    forall i | 0 <= i < |RouteOf(r)|
      ensures RouteOf(r)[i] in Entries(p.profile.evaluators)
      ensures EntryOk(EntryOf(p, RouteOf(r)[i]), p.profile)
      ensures EntryOf(p, RouteOf(r)[i]).id == RouteOf(r)[i]
    {
      PlannedEntry(p, i);
    }
    var offset := |RouteOf(r)| - |Fallbacks(r)|;
    forall i | 0 <= i < |Fallbacks(r)|
      ensures Fallbacks(r)[i] in Entries(p.profile.evaluators) && RetryOk(EntryOf(p, Fallbacks(r)[i]).retry)
    {
      assert RouteOf(r)[offset + i] == Fallbacks(r)[i];
      RetryOfEntry(EntryOf(p, Fallbacks(r)[i]), p.profile);
    }
  }

  lemma RetryOfEntry(e: Entry, p: Profile)
    requires EntryOk(e, p)
    ensures RetryOk(e.retry)
  {
  }

  datatype Routed = Routed(evidence: seq<Evidence>, failure: Option<Code>, x: Execution,
                           escalated: seq<nat>, kept: seq<Evidence>)

  lemma PrimaryIsPlanned(p: Plan)
    requires PlanOk(p)
    ensures p.profile.routing.primary in Entries(p.profile.evaluators)
    ensures RetryOk(EntryOf(p, p.profile.routing.primary).retry)
  {
    PlannedEntries(p);
    RetryOfEntry(EntryOf(p, p.profile.routing.primary), p.profile);
  }

  lemma EscalationIsPlanned(p: Plan)
    requires PlanOk(p) && p.profile.routing.escalation.Some?
    ensures p.profile.routing.escalation.value in Entries(p.profile.evaluators)
    ensures RetryOk(EntryOf(p, p.profile.routing.escalation.value).retry)
  {
    PlannedEntries(p);
    RetryOfEntry(EntryOf(p, p.profile.routing.escalation.value), p.profile);
  }

  /** The primary invocation. */
  function First(p: Plan, x: Execution): (r: Invocation)
    requires PlanOk(p)
    ensures |r.evidence| == |p.request.rules|
  {
    hide PlanOk, Entries, Invoke;
    PrimaryIsPlanned(p);
    RetryAllows(EntryOf(p, p.profile.routing.primary).retry);
    Invoke(p, x, EntryOf(p, p.profile.routing.primary), PrimaryLeg, AllIndexes(|p.request.rules|), 1)
  }

  /** The fallbacks from position `k` on. */
  function Chain(p: Plan, x: Execution, k: nat, indexes: seq<nat>, evidence: seq<Evidence>, code: Code): (r: Invocation)
    requires PlanOk(p) && k <= |Fallbacks(p.profile.routing)| && IndexesOk(p, indexes) && |evidence| == |indexes|
    ensures |r.evidence| == |indexes|
  {
    hide PlanOk, ValidProfile, EntryOk, Entries, TryFallbacks;
    ValidPlan(p);
    PlannedEntries(p);
    TryFallbacks(p, x, Fallbacks(p.profile.routing)[k..], indexes, evidence, code)
  }

  /** One fallback, and the others if it fails. */
  lemma ChainStep(p: Plan, x: Execution, k: nat, indexes: seq<nat>, evidence: seq<Evidence>, code: Code)
    requires PlanOk(p) && k <= |Fallbacks(p.profile.routing)| && IndexesOk(p, indexes) && |evidence| == |indexes|
    ensures FallbackIDs(p, Fallbacks(p.profile.routing))
    ensures p.profile.routing.confidence.enabled ==> p.profile.routing.confidence.minimumAccepted.Some?
    ensures Chain(p, x, k, indexes, evidence, code)
         == if k == |Fallbacks(p.profile.routing)| || Transient(code) !in FallbackOn(p.profile.routing)
            then Invocation(evidence, Some(code), x)
            else
              var next := Invoke(p, x, EntryOf(p, Fallbacks(p.profile.routing)[k]), FallbackLeg, indexes, 1);
              if next.failure.None? then next.(evidence := Confident(p.profile.routing.confidence, next.evidence))
              else Chain(p, next.x, k + 1, indexes, next.evidence, next.failure.value)
  {
    hide PlanOk, ValidProfile, Invoke, Confident, EntryOf, Entries, EntryOk, RetryOk;
    ValidPlan(p);
    PlannedEntries(p);
    ThresholdSet(p);
    var ids := Fallbacks(p.profile.routing);
    if k < |ids| {
      assert ids[k..][1..] == ids[k + 1..] && ids[k..][0] == ids[k];
    }
  }

  lemma ValidPlan(p: Plan)
    requires PlanOk(p)
    ensures ValidProfile(p.profile)
  {
  }

  lemma OneQuestionEach(p: Plan)
    requires PlanOk(p)
    ensures |p.request.rules| == |p.policy.rules|
  {
  }

  lemma RetryAllows(r: RetryPolicy)
    requires RetryOk(r)
    ensures r.maxAttempts >= 1
  {
  }

  lemma ThresholdSet(p: Plan)
    requires PlanOk(p)
    ensures p.profile.routing.confidence.enabled ==> p.profile.routing.confidence.minimumAccepted.Some?
  {
  }

  /** The escalation of the low-confidence rules, or what replaces it. */
  function Escalate(p: Plan, x: Execution, low: seq<nat>): (r: Invocation)
    requires PlanOk(p) && p.profile.routing.escalation.Some? && IndexesOk(p, low)
    ensures |r.evidence| == |low|
  {
    hide PlanOk, Entries, Invoke, Chain;
    EscalationIsPlanned(p);
    ThresholdSet(p);
    RetryAllows(EntryOf(p, p.profile.routing.escalation.value).retry);
    var second := Invoke(p, x, EntryOf(p, p.profile.routing.escalation.value), EscalationLeg, low, 1);
    if second.failure.Some? then Chain(p, second.x, 0, low, second.evidence, second.failure.value)
    else second.(evidence := Confident(p.profile.routing.confidence, second.evidence))
  }

  /**
   The routing part of run: primary, then fallbacks or escalation. None when nothing was
   attempted. `kept` is the primary's evidence after confidence was applied, `escalated`
   the indexes that were sent on.
   */
  function RouteAll(p: Plan, x: Execution): (r: Option<Routed>)
    requires PlanOk(p)
    ensures r.Some? ==> |r.value.evidence| == |p.policy.rules|
  {
    hide PlanOk, First, Chain, Escalate, LowIndexes;
    ThresholdSet(p);
    OneQuestionEach(p);
    var c := p.profile.routing.confidence;
    var first := First(p, x);
    if first.x.trace == [] then None
    else if first.failure.Some? then
      var settled := Chain(p, first.x, 0, AllIndexes(|p.request.rules|), first.evidence, first.failure.value);
      Some(Routed(settled.evidence, settled.failure, settled.x, [], first.evidence))
    else
      var low := LowIndexes(c, first.evidence);
      var kept := Confident(c, first.evidence);
      if low != [] && p.profile.routing.escalation.Some? then
        var settled := Escalate(p, first.x, low);
        Some(Routed(Overwritten(kept, low, settled.evidence), settled.failure, settled.x, low, kept))
      else Some(Routed(kept, None, first.x, [], kept))
  }

  predicate Unresolved(e: Evidence) {
    e.status.Indeterminate? || e.status.Failed?
  }

  /** trace.Terminal. */
  function Terminal(evidence: seq<Evidence>, failure: Option<Code>): Code {
    if failure.Some? then failure.value
    else if exists i :: 0 <= i < |evidence| && Unresolved(evidence[i]) then UnresolvedRule
    else Completed
  }

  const NO_METADATA := Metadata("", "", UnlistedMode(""), false, "", "", "", "", "", "")

  /** The execution a run begins with. */
  function Fresh(w: World): Execution {
    Execution([], [], false, [], NO_METADATA, false, w)
  }
}
