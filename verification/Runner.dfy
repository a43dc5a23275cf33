/**
 The profile runner as it runs: one execution object updated in place by invoke, the
 fallbacks and run (evaluator/runner/runner.go, usage.go). Each method is proved to do
 to the object what the functions of Routes and Deciding say.
 */
module Runner {
  import opened Wrappers
  import opened Codes
  import opened Traces
  import opened CanonicalPolicy
  import opened Decisions
  import opened Evaluations
  import opened Profiles
  import opened Surroundings
  import opened Routes
  import opened LocalBinding
  import opened Registries
  import opened Deciding

  /** One call as its adapter saw it. */
  datatype Visit = Visit(adapter: Component, request: Request, credential: Option<string>)

  /**
   The installed adapters: they answer as the script says, may write what they like into the credential they are lent,
   keep nothing of it, and remember what they were asked and what it was.
   */
  class Adapters {
    const scribbles: (nat, nat) -> char
    var seen: seq<Visit>

    constructor (scribbles: (nat, nat) -> char)
      ensures this.scribbles == scribbles && seen == []
    {
      this.scribbles, seen := scribbles, [];
    }

    method Evaluate(adapter: Component, request: Request, credential: array?<char>, moment: Moment) returns (answer: Answer)
      modifies this, credential
      ensures answer == moment.answer
      ensures seen == old(seen) + [Visit(adapter, request, if credential == null then None else Some(old(credential[..])))]
    {
      if credential == null {
        seen := seen + [Visit(adapter, request, None)];
      } else {
        seen := seen + [Visit(adapter, request, Some(credential[..]))];
        forall i | 0 <= i < credential.Length {
          credential[i] := scribbles(|seen|, i);
        }
      }
      return moment.answer;
    }
  }

  /** What each call on record was to its adapter. */
  ghost function Visits(calls: seq<Call>): (visits: seq<Visit>)
    ensures |visits| == |calls|
  {
    seq(|calls|, i requires 0 <= i < |calls| => Visit(calls[i].adapter, calls[i].request, calls[i].given))
  }

  lemma OneMoreVisit(calls: seq<Call>, c: Call)
    ensures Visits(calls + [c]) == Visits(calls) + [Visit(c.adapter, c.request, c.given)]
  {
  }

  /** The credentials among what adapters have seen. */
  ghost function Handed(seen: seq<Visit>): seq<string> {
    if seen == [] then []
    else
      var before, last := Handed(seen[..|seen| - 1]), seen[|seen| - 1];
      if last.credential.Some? then before + [last.credential.value] else before
  }

  lemma NothingHanded(seen: seq<Visit>)
    ensures Fits([], seen[|seen|..])
  {
  }

  lemma OneMoreHanded(seen: seq<Visit>, v: Visit)
    ensures Handed(seen + [v]) == if v.credential.Some? then Handed(seen) + [v.credential.value] else Handed(seen)
  {
    assert (seen + [v])[..|seen|] == seen;
  }

  /** One buffer for each credential handed out, and of its length. */
  ghost predicate Fits(lent: seq<array<char>>, seen: seq<Visit>) {
    && |lent| == |Handed(seen)|
    && forall i :: 0 <= i < |lent| ==> lent[i].Length == |Handed(seen)[i]|
  }

  /** One buffer more, just as long, if something was lent, and none otherwise. */
  ghost predicate Loaned(before: seq<array<char>>, after: seq<array<char>>, given: Option<string>) {
    if given.None? then after == before
    else |after| == |before| + 1 && before <= after && after[|before|].Length == |given.value|
  }

  lemma OneMoreFits(before: seq<array<char>>, after: seq<array<char>>, seen: seq<Visit>, v: Visit)
    requires Fits(before, seen) && Loaned(before, after, v.credential)
    ensures Fits(after, seen + [v])
  {
    OneMoreHanded(seen, v);
    hide Handed;
  }

  class Live {
    const plan: Plan
    var trace: seq<Attempt>
    var usage: seq<UsageAttempt>
    var usageEnabled: bool
    var route: seq<string>
    var last: Metadata
    var fallback: bool
    var world: World

    /** The run's own copies of its credentials. */
    const captured: map<Key, array<char>>

    const adapters: Adapters

    /** Every buffer that was lent to an adapter. */
    ghost var lent: seq<array<char>>

    /** The calls on record, and what the adapters had seen, when the run began. */
    ghost const opening: seq<Call>
    ghost const before: seq<Visit>

    /** The copies are as captured, and no buffer an adapter had shows anything any more. */
    ghost predicate Clean()
      reads this`lent, captured.Values, lent
    {
      && captured.Keys == plan.secrets.Keys
      && (forall k :: k in captured ==> captured[k][..] == plan.secrets[k])
      && forall b :: b in lent ==> b !in captured.Values && Zeroed(b[..])
    }

    /** These calls are what the adapters saw, each credential in a buffer of its own. */
    ghost predicate Recorded(calls: seq<Call>)
      reads this`lent, adapters
    {
      && before <= adapters.seen
      && Visits(calls) == Visits(opening) + adapters.seen[|before|..]
      && Fits(lent, adapters.seen[|before|..])
    }

    ghost predicate Secured(calls: seq<Call>)
      reads this`lent, captured.Values, lent, adapters
    {
      Clean() && Recorded(calls)
    }

    ghost function State(): Execution
      reads this
    {
      Execution(trace, usage, usageEnabled, route, last, fallback, world)
    }

    constructor (plan: Plan, captured: map<Key, array<char>>, adapters: Adapters, world: World)
      requires captured.Keys == plan.secrets.Keys && forall k :: k in captured ==> captured[k][..] == plan.secrets[k]
      ensures this.plan == plan && this.captured == captured && this.adapters == adapters && State() == Fresh(world)
      ensures opening == world.calls && before == adapters.seen
      ensures Secured(world.calls) && lent == []
    {
      this.plan, this.captured, this.adapters, this.lent := plan, captured, adapters, [];
      this.opening, this.before := world.calls, adapters.seen;
      this.trace, this.usage, this.usageEnabled, this.route := [], [], false, [];
      this.last, this.fallback, this.world := NO_METADATA, false, world;
    }

    /** One clock reading. */
    method Now() returns (t: int)
      modifies this`world
      ensures world == Tick(old(world)) && t == world.now
    {
      world := Tick(world);
      t := world.now;
    }

    method Stopped() returns (code: Option<Code>)
      modifies this`world
      ensures world.calls == old(world.calls)
      ensures Check(code, world) == Surroundings.Stopped(old(world), plan.request.deadline)
    {
      var now := Now();
      if now >= plan.request.deadline {
        return Some(DeadlineExceeded);
      }
      world := Tick(world);
      if world.signal.DeadlineSignal? {
        return Some(DeadlineExceeded);
      }
      world := Tick(world);
      if !world.signal.Quiet? {
        return Some(Cancelled);
      }
      return None;
    }

    method AppendAttempt(attempt: Attempt, reported: Option<Usage>, fault: Option<Fault>)
      modifies this`trace, this`usage, this`usageEnabled
      ensures State() == Routes.AppendAttempt(old(State()), attempt, reported, fault)
    {
      var u := Usage(Unavailable, None, None);
      if reported.Some? {
        usageEnabled := true;
        u := NormalizedUsage(reported.value);
      }
      var code: Option<Code> := None;
      if fault.Some? && fault.value.Fault? && IsReasonCode(fault.value.code) {
        code := Some(fault.value.code);
      }
      usage := usage + [UsageAttempt(|trace|, code, u)];
      trace := trace + [attempt];
    }

    /** What happens between an adapter's return and its record. */
    method Judge(e: Entry, request: Request, answer: Answer) returns (failure: Option<Code>)
      modifies this`world
      ensures Check(failure, world) == Routes.Judge(plan, e, request, answer, old(world))
    {
      failure := Stopped();
      if failure.None? {
        var now := Now();
        if now >= request.deadline || answer.expired {
          failure := Some(EvaluatorTimeout);
        } else if answer.fault.Some? {
          failure := Some(Classify(answer.fault.value));
        } else if !ResultOk(request, answer.result) || !MetadataMatches(e, answer.result.metadata) {
          failure := Some(InvalidResult);
        }
      }
    }

    /**
     The adapter sees its own copy of its credential, in a buffer nobody else has, and nothing without a slot;
     whatever it writes there, the buffer is zeroed on return.
     */
    method Consult(e: Entry, request: Request, moment: Moment) returns (answer: Answer)
      requires Clean()
      modifies this`lent, adapters
      ensures Clean() && answer == moment.answer
      ensures adapters.seen == old(adapters.seen) + [Visit(AdapterOf(e), request, Lent(plan, e))]
      ensures Loaned(old(lent), lent, Lent(plan, e)) && forall b :: b in lent ==> b in old(lent) || fresh(b)
    {
      if e.credentialSlot.None? {
        answer := adapters.Evaluate(AdapterOf(e), request, null, moment);
        return;
      }
      var bytes := "";
      if KeyOf(e) in captured {
        bytes := captured[KeyOf(e)][..];
      }
      var buffer := CopyOf(bytes);
      answer := adapters.Evaluate(AdapterOf(e), request, buffer, moment);
      Zero(buffer);
      lent := lent + [buffer];
    }

    /** One adapter call, from reading its start time to reading its end time. */
    method CallAdapter(e: Entry, indexes: seq<nat>) returns (failure: Option<Code>, answer: Answer, elapsed: int)
      requires IndexesOk(plan, indexes) && Secured(world.calls)
      modifies this`world, this`lent, adapters
      ensures Secured(world.calls) && Loaned(old(lent), lent, Lent(plan, e))
      ensures var c := Routes.CallAdapter(plan, old(world), e, indexes);
        failure == c.failure && answer == c.answer && elapsed == c.elapsed && world == c.world
    {
      hide ResultOk, MetadataMatches, Routes.Judge, Surroundings.Stopped, Covers, Clean, Lent, Visits, Fits, AttemptRequest;
      var start := Now();
      var deadline := start + e.timeoutMS * MILLISECOND;
      if plan.request.deadline < deadline {
        deadline := plan.request.deadline;
      }
      var request := AttemptRequest(plan, indexes, deadline);
      answer := Consult(e, request, Coming(world));
      world := Tick(world);
      var returned := world;
      failure := Judge(e, request, answer);
      var judged := world.now;
      var end := Now();
      elapsed := end - start;
      var call := Call(start, deadline, returned.now, judged, end,
                       Surroundings.Stopped(returned, plan.request.deadline).world.signal, AdapterOf(e), request,
                       Lent(plan, e), answer);
      world := world.(calls := world.calls + [call]);
      OneMoreVisit(old(world.calls), call);
      ghost var visit := Visit(call.adapter, call.request, call.given);
      assert adapters.seen[|before|..] == old(adapters.seen[|before|..]) + [visit];
      OneMoreFits(old(lent), lent, old(adapters.seen[|before|..]), visit);
    }

    /** One attempt: the adapter call and its bookkeeping. */
    method Try(e: Entry, leg: Leg, indexes: seq<nat>, attempt: nat) returns (failure: Option<Code>, answer: Answer)
      requires IndexesOk(plan, indexes) && Secured(world.calls)
      modifies this, adapters
      ensures Secured(world.calls)
      ensures var c := Routes.CallAdapter(plan, old(world), e, indexes);
        failure == c.failure && answer == c.answer && world == c.world
        && State() == RecordCall(old(State()), e, leg, indexes, attempt, c)
    {
      hide Routes.CallAdapter, Routes.AppendAttempt, Record, MetadataOf, Covers, Secured;
      var elapsed: int;
      failure, answer, elapsed := CallAdapter(e, indexes);
      last := MetadataOf(e);
      if |route| == 0 || route[|route| - 1] != e.id {
        route := route + [e.id];
      }
      if leg.FallbackLeg? {
        fallback := true;
      }
      var record := Record(e, leg, attempt, indexes, failure, answer.result.metadata, elapsed);
      if failure.None? {
        last := answer.result.metadata;
      }
      AppendAttempt(record, answer.result.usage, answer.fault);
    }

    /** The wait before a retry: none when it slept, Some(None) to give up, Some(code) to stop. */
    method Wait(e: Entry, attempt: nat, fault: Option<Fault>) returns (stop: Option<Option<Code>>)
      requires Scheduled(e.retry) && attempt >= 1
      modifies this`world
      ensures world.calls == old(world.calls)
      ensures Backoff(plan, e, attempt, fault, old(world))
           == match stop
              case None => Resume(world)
              case Some(None) => GiveUp(world)
              case Some(Some(code)) => Halt(code, world)
    {
      hide BackoffMS, Surroundings.Stopped, RetryAfter;
      var base := BackoffMS(e.retry, attempt) * MILLISECOND;
      var delay := world.jitter(base, world.tick);
      world := Tick(world);
      var floor := RetryAfter(fault);
      if floor > delay {
        delay := floor;
      }
      var code := Stopped();
      if code.Some? {
        return Some(code);
      }
      var now := Now();
      var remaining := plan.request.deadline - now;
      if remaining <= 0 {
        return Some(Some(DeadlineExceeded));
      }
      var note := Deliberate(e, attempt, base, floor, delay, remaining, world);
      world := Noted(world, note);
      if delay >= remaining {
        return Some(None);
      }
      var failed := Coming(world).sleepFails;
      world := Sleep(world, delay);
      if failed {
        code := Stopped();
        return Some(Some(code.GetOr(Cancelled)));
      }
      return None;
    }

    /** failedRules into an array of the runner's own. */
    method Fail(indexes: seq<nat>, code: Code) returns (evidence: array<Evidence>)
      requires IndexesOk(plan, indexes)
      ensures fresh(evidence)
      ensures Invocation(evidence[..], Some(code), State()) == FailedWith(plan, indexes, code, State())
    {
      var failed := FailedRules(Select(plan.request.rules, indexes), code);
      evidence := new Evidence[|failed|](i requires 0 <= i < |failed| => failed[i]);
    }

    /** cloneResults into an array of the runner's own. */
    static method NewCloned(source: seq<Evidence>) returns (evidence: array<Evidence>)
      ensures fresh(evidence) && evidence[..] == CloneResults(source)
    {
      evidence := new Evidence[|source|](i requires 0 <= i < |source| => source[i]);
      for i := 0 to evidence.Length
        invariant forall k :: 0 <= k < i ==> evidence[k] == source[k].(message := "")
        invariant forall k :: i <= k < evidence.Length ==> evidence[k] == source[k]
      {
        evidence[i] := evidence[i].(message := "");
      }
    }

    method Invoke(e: Entry, leg: Leg, indexes: seq<nat>) returns (evidence: array<Evidence>, failure: Option<Code>)
      requires RetryOk(e.retry) && IndexesOk(plan, indexes) && Secured(world.calls)
      modifies this, adapters
      ensures Secured(world.calls)
      ensures fresh(evidence)
      ensures Invocation(evidence[..], failure, State()) == Routes.Invoke(plan, old(State()), e, leg, indexes, 1)
    {
      hide Surroundings.Stopped, Routes.CallAdapter, RecordCall, Backoff, RetryOk, Covers, Routes.Invoke,
           FailedWith, CloneResults, IndexesOk, Transient, RetryOn, Secured, Select, FailedRules, Scheduled, Tick, AttemptRequest,
           Coming, Lent, RetryAfter, BackoffMS, MetadataOf;
      RetryAllows(e.retry);
      failure := Some(AdapterFailed);
      var attempt := 1;
      while attempt <= e.retry.maxAttempts
        invariant 1 <= attempt <= e.retry.maxAttempts
        invariant Secured(world.calls)
        invariant Routes.Invoke(plan, State(), e, leg, indexes, attempt)
               == Routes.Invoke(plan, old(State()), e, leg, indexes, 1)
      {
        ghost var x := State();
        InvokeStep(plan, x, e, leg, indexes, attempt);
        var stop := Stopped();
        assert State() == x.(world := Surroundings.Stopped(x.world, plan.request.deadline).world);
        if stop.Some? {
          evidence := Fail(indexes, stop.value);
          return evidence, stop;
        }
        if |trace| >= MAX_EVALUATOR_ATTEMPTS {
          evidence := Fail(indexes, AttemptLimit);
          return evidence, Some(AttemptLimit);
        }
        var answer: Answer;
        failure, answer := Try(e, leg, indexes, attempt);
        if failure.None? {
          evidence := NewCloned(answer.result.evidence);
          return evidence, None;
        }
        if attempt == e.retry.maxAttempts || Transient(failure.value) !in RetryOn(e.retry) {
          break;
        }
        var halted := Wait(e, attempt, answer.fault);
        if halted.Some? {
          if halted.value.None? {
            break;
          }
          evidence := Fail(indexes, halted.value.value);
          return evidence, halted.value;
        }
        attempt := attempt + 1;
      }
      evidence := Fail(indexes, failure.value);
    }

    /** applyConfidence, rewriting the results in place. */
    method ApplyConfidence(results: array<Evidence>) returns (low: seq<nat>)
      requires plan.profile.routing.confidence.enabled ==> plan.profile.routing.confidence.minimumAccepted.Some?
      modifies results
      ensures results[..] == Confident(plan.profile.routing.confidence, old(results[..]))
      ensures low == LowIndexes(plan.profile.routing.confidence, old(results[..]))
    {
      var c := plan.profile.routing.confidence;
      ghost var before := results[..];
      low := [];
      if !c.enabled {
        NothingIsLow(c, before);
        return;
      }
      for i := 0 to results.Length
        invariant low == LowIndexes(c, before[..i])
        invariant forall k :: 0 <= k < i ==> results[k] == if IsLow(c, before[k]) then Demoted(before[k]) else before[k]
        invariant forall k :: i <= k < results.Length ==> results[k] == before[k]
      {
        assert before[..i + 1][..i] == before[..i] && before[..i + 1][i] == before[i];
        if !results[i].status.Failed? {
          if results[i].confidence.None? || results[i].confidence.value < c.minimumAccepted.value {
            results[i] := results[i].(status := Indeterminate);
            results[i] := results[i].(reasonCodes := [LowConfidence]);
            low := low + [i];
          }
        }
      }
      assert before[..results.Length] == before;
    }

    static lemma {:induction false} NothingIsLow(c: Confidence, evidence: seq<Evidence>)
      requires !c.enabled
      ensures LowIndexes(c, evidence) == [] && Confident(c, evidence) == evidence
      decreases |evidence|
    {
      if evidence != [] {
        NothingIsLow(c, evidence[..|evidence| - 1]);
      }
    }

    /** execution.fallbacks. */
    method TryFallbacks(indexes: seq<nat>, given: array<Evidence>, code: Code)
      returns (evidence: array<Evidence>, failure: Option<Code>)
      requires PlanOk(plan) && IndexesOk(plan, indexes) && given.Length == |indexes| && Secured(world.calls)
      modifies this, adapters
      ensures Secured(world.calls)
      ensures evidence == given || fresh(evidence)
      ensures given[..] == old(given[..])
      ensures Invocation(evidence[..], failure, State()) == Chain(plan, old(State()), 0, indexes, old(given[..]), code)
    {
      hide PlanOk, Routes.Invoke, Chain, Confident, Entries, RetryOk, Secured;
      var ids := Fallbacks(plan.profile.routing);
      evidence, failure := given, Some(code);
      var i := 0;
      while i < |ids|
        invariant 0 <= i <= |ids| && failure.Some? && evidence.Length == |indexes|
        invariant Secured(world.calls)
        invariant evidence == given || fresh(evidence)
        invariant given[..] == old(given[..])
        invariant Chain(plan, State(), i, indexes, evidence[..], failure.value)
               == Chain(plan, old(State()), 0, indexes, old(given[..]), code)
      {
        ChainStep(plan, State(), i, indexes, evidence[..], failure.value);
        if Transient(failure.value) !in FallbackOn(plan.profile.routing) {
          return;
        }
        evidence, failure := Invoke(EntryOf(plan, ids[i]), FallbackLeg, indexes);
        if failure.None? {
          var low := ApplyConfidence(evidence);
          return;
        }
        i := i + 1;
      }
      ChainStep(plan, State(), i, indexes, evidence[..], failure.value);
    }

    /** The escalation of the low rules: its settled evidence, not yet written back. */
    method Escalate(low: seq<nat>) returns (replacement: array<Evidence>, failure: Option<Code>)
      requires PlanOk(plan) && plan.profile.routing.escalation.Some? && IndexesOk(plan, low) && Secured(world.calls)
      modifies this, adapters
      ensures Secured(world.calls)
      ensures fresh(replacement)
      ensures Invocation(replacement[..], failure, State()) == Routes.Escalate(plan, old(State()), low)
    {
      hide PlanOk, Routes.Invoke, Chain, RetryOk, Entries, Secured;
      EscalationIsPlanned(plan);
      ThresholdSet(plan);
      replacement, failure := Invoke(EntryOf(plan, plan.profile.routing.escalation.value), EscalationLeg, low);
      if failure.Some? {
        replacement, failure := TryFallbacks(low, replacement, failure.value);
      } else {
        var ignored := ApplyConfidence(replacement);
      }
    }

    /** Writing each replacement at its index. */
    static method Overwrite(evidence: array<Evidence>, low: seq<nat>, replacement: array<Evidence>)
      requires replacement.Length == |low| && replacement != evidence
      requires forall k :: 0 <= k < |low| ==> low[k] < evidence.Length
      modifies evidence
      ensures evidence[..] == Overwritten(old(evidence[..]), low, old(replacement[..]))
    {
      ghost var values := replacement[..];
      for i := 0 to |low|
        invariant replacement[..] == values
        invariant Overwritten(evidence[..], low[i..], values[i..]) == Overwritten(old(evidence[..]), low, values)
      {
        ghost var before := evidence[..];
        evidence[low[i]] := replacement[i];
        assert evidence[..] == before[low[i] := values[i]];
        assert low[i..][1..] == low[i + 1..] && values[i..][1..] == values[i + 1..];
      }
    }

    /** The routing part of run. `attempted` is false when nothing was, in which case run reports an error. */
    method RouteAll() returns (attempted: bool, evidence: array<Evidence>, failure: Option<Code>)
      requires PlanOk(plan) && Secured(world.calls)
      modifies this, adapters
      ensures Secured(world.calls)
      ensures var r := Routes.RouteAll(plan, old(State()));
        && (attempted <==> r.Some?)
        && (attempted ==> evidence[..] == r.value.evidence && failure == r.value.failure && State() == r.value.x)
    {
      hide PlanOk, Routes.Invoke, Chain, Routes.Escalate, Overwritten, LowIndexes, RetryOk, Entries, Secured;
      PrimaryIsPlanned(plan);
      ThresholdSet(plan);
      var all := AllIndexes(|plan.request.rules|);
      evidence, failure := Invoke(EntryOf(plan, plan.profile.routing.primary), PrimaryLeg, all);
      if |trace| == 0 {
        return false, evidence, failure;
      }
      attempted := true;
      if failure.Some? {
        evidence, failure := TryFallbacks(all, evidence, failure.value);
      } else {
        var low := ApplyConfidence(evidence);
        if |low| > 0 && plan.profile.routing.escalation.Some? {
          var replacement: array<Evidence>;
          replacement, failure := Escalate(low);
          Overwrite(evidence, low, replacement);
        }
      }
    }

    /** One result for each rule, with the rule's own outcome if it matched. */
    method BindResults(evidence: array<Evidence>) returns (results: seq<RuleResult>)
      requires evidence.Length == |plan.policy.rules|
      ensures results == ToResults(plan.policy.rules, evidence[..])
    {
      results := [];
      for i := 0 to evidence.Length
        invariant |results| == i && forall k :: 0 <= k < i ==> results[k] == ToResult(evidence[k], plan.policy.rules[k])
      {
        var e := evidence[i];
        var outcome: Option<Policies.Outcome> := None;
        if e.status.Matched? {
          outcome := Some(plan.policy.rules[i].outcome);
        }
        results := results + [RuleResult(e.ruleID, e.status, outcome, e.confidence, e.reasonCodes, "")];
      }
    }

    /** The evaluator a Decision reports, from what the run kept of its last adapter. */
    method Identify() returns (identity: Evaluator)
      ensures identity == Identity(plan, State())
    {
      identity := Evaluator(plan.request.profileDigest, plan.profileVersion, last.adapterID, last.adapterVersion, last.mode,
                            Some(last.synthetic), last.provider, last.model, None, None, route, |trace|, fallback);
      if last.synthetic {
        identity := identity.(fixtureSet := Some(last.fixtureSet), fixtureVersion := Some(last.fixtureVersion));
      }
    }

    method Decide(evidence: array<Evidence>, terminal: Code, hash: string -> Sum) returns (d: Option<Decision>)
      requires evidence.Length == |plan.policy.rules|
      ensures d == Deciding.Decide(plan, State(), evidence[..], terminal, hash)
    {
      hide Accepted, Reduce, OperationalFailure, Identity;
      var results := BindResults(evidence);
      var reduction := ApplyPrecedence(plan.policy, results);
      if reduction.None? {
        return None;
      }
      var enriched := EnrichFailure(reduction.value, results, terminal);
      var identity := Identify();
      var extensions := map[TRACE_EXTENSION := TraceJson(trace, terminal)];
      if usageEnabled {
        extensions := extensions[USAGE_EXTENSION := UsageJson(usage)];
      }
      var decision := Decision(DECISION_API_VERSION, DECISION_KIND, enriched.outcome, plan.request.policyName,
                               plan.request.policyDigest, plan.policyVersion, results, enriched.reasonCodes, enriched.failure,
                               Some(identity), extensions);
      var accepted := ValidateAgainst(decision, plan.policy, hash);
      if !accepted {
        return None;
      }
      return Some(decision);
    }

    /** The terminal code: the failure, or the first unresolved piece of evidence, or completed. */
    static method FindTerminal(evidence: array<Evidence>, failure: Option<Code>) returns (terminal: Code)
      ensures terminal == Terminal(evidence[..], failure)
    {
      terminal := Completed;
      if failure.Some? {
        return failure.value;
      }
      for i := 0 to evidence.Length
        invariant forall k :: 0 <= k < i ==> !Unresolved(evidence[k])
      {
        if Unresolved(evidence[i]) {
          assert Unresolved(evidence[..][i]);
          return UnresolvedRule;
        }
      }
    }
  }

  /** operationalFailure: one pass over the results, which anything unresolved but this code makes final. */
  method EnrichFailure(reduction: Reduction, results: seq<RuleResult>, terminal: Code) returns (r: Reduction)
    ensures r == OperationalFailure(reduction, results, terminal)
  {
    if !reduction.outcome.FailureVerdict? {
      return reduction;
    }
    if terminal !in {EvaluatorTimeout, EvaluatorUnavailable, EvaluatorThrottled, DeadlineExceeded, Cancelled, AttemptLimit,
                     AdapterFailed, InvalidResult} {
      return reduction;
    }
    var retryable := IsTransient(terminal);
    for i := 0 to |results|
      invariant retryable <==> IsTransient(terminal) && forall k :: 0 <= k < i ==> SolelyFailed(results[k], terminal)
    {
      if results[i].status.Indeterminate? || (results[i].status.Failed? && results[i].reasonCodes != [terminal]) {
        retryable := false;
      }
    }
    return reduction.(failure := Some(Failure(terminal, Evaluation, retryable, "")), reasonCodes := [UnresolvedRule, terminal]);
  }

  method TakeCopy(key: Key, credentials: Credentials, ghost held: map<Key, string>) returns (copy: Option<array<char>>)
    requires credentials.Valid() && credentials.Captures() == held
    ensures copy.Some? <==> key in held && held[key] != ""
    ensures copy.Some? ==> fresh(copy.value) && copy.value[..] == held[key]
    ensures credentials.Captures() == held
  {
    copy := credentials.Credential(key.adapterID, key.slot);
    if copy.Some? {
      assert held[key] == copy.value[..];
      if copy.value.Length == 0 {
        return None;
      }
    }
  }

  /** The run's copies for the evaluators of its route: each key taken once, and not at all if one is missing or empty. */
  method CheckRoute(along: seq<Entry>, registry: Registry, permission: Permission, credentials: Credentials,
                    ghost held: map<Key, string>)
    returns (ok: bool, captured: map<Key, array<char>>)
    requires credentials.Valid() && credentials.Captures() == held
    ensures ok <==> AllRunnable(along, registry, permission) && Credentialed(along, held)
    ensures forall k :: k in captured ==> fresh(captured[k])
    ensures ok ==> Copies(captured, Taken(along, held))
  {
    hide Credentialed, Taken, Copies, Runnable;
    captured := map[];
    NothingTaken(along, held);
    for i := 0 to |along|
      invariant credentials.Captures() == held && forall k :: k in captured ==> fresh(captured[k])
      invariant Copies(captured, Taken(along[..i], held)) && Credentialed(along[..i], held)
      invariant forall k :: 0 <= k < i ==> Runnable(along[k], registry, permission)
    {
      var e := along[i];
      var runnable := CheckAdapter(e, registry, permission);
      if !runnable {
        return false, captured;
      }
      TakenStep(along, i, held);
      SameKeys(captured, Taken(along[..i], held));
      if e.credentialSlot.None? || KeyOf(e) in captured {
        continue;
      }
      var copy := TakeCopy(KeyOf(e), credentials, held);
      if copy.None? {
        return false, captured;
      }
      OneMoreCopy(captured, Taken(along[..i], held), KeyOf(e), copy.value);
      captured := captured[KeyOf(e) := copy.value];
    }
    assert along[..|along|] == along;
    return true, captured;
  }

  ghost predicate Copies(captured: map<Key, array<char>>, secrets: map<Key, string>)
    reads captured.Values
  {
    captured.Keys == secrets.Keys && forall k :: k in captured ==> captured[k][..] == secrets[k]
  }

  lemma SameKeys(captured: map<Key, array<char>>, secrets: map<Key, string>)
    requires Copies(captured, secrets)
    ensures forall k :: k in captured <==> k in secrets
  {
  }

  lemma OneMoreCopy(captured: map<Key, array<char>>, secrets: map<Key, string>, key: Key, copy: array<char>)
    requires Copies(captured, secrets)
    ensures Copies(captured[key := copy], secrets[key := copy[..]])
  {
  }

  lemma NothingTaken(along: seq<Entry>, held: map<Key, string>)
    ensures Taken(along[..0], held) == map[] && Credentialed(along[..0], held)
    ensures Copies(map[], map[])
  {
  }

  lemma TakenStep(along: seq<Entry>, i: nat, held: map<Key, string>)
    requires i < |along| && Credentialed(along[..i], held)
    ensures var before, after, e := Taken(along[..i], held), Taken(along[..i + 1], held), along[i];
      if e.credentialSlot.None? || KeyOf(e) in before then after == before && Credentialed(along[..i + 1], held)
      else if KeyOf(e) in held && held[KeyOf(e)] != "" then
        after == before[KeyOf(e) := held[KeyOf(e)]] && Credentialed(along[..i + 1], held)
      else !Credentialed(along, held)
  {
    var before, e := Taken(along[..i], held), along[i];
    assert along[..i + 1][..i] == along[..i];
    assert along[..i + 1] == along[..i] + [e];
    TakenIsHeld(along[..i], held);
    if e.credentialSlot.Some? && KeyOf(e) in before {
      var d :| d in along[..i] && d.credentialSlot.Some? && KeyOf(d) == KeyOf(e);
      assert before[KeyOf(e) := held[KeyOf(e)]] == before;
    }
    hide Taken;
  }

  method Wipe(captured: map<Key, array<char>>)
    modifies captured.Values
    ensures forall k :: k in captured ==> Zeroed(captured[k][..])
  {
    var left := captured.Keys;
    while left != {}
      invariant left <= captured.Keys
      invariant forall k :: k in captured && k !in left ==> Zeroed(captured[k][..])
      decreases |left|
    {
      var key :| key in left;
      Zero(captured[key]);
      left := left - {key};
    }
  }

  lemma Unfolded(input: Input, w: World, hash: string -> Sum)
    ensures var p := PlanOf(input, Tick(w).now, hash);
      if !w.signal.Quiet? || !Admitted(input, p) then Deciding.Run(input, w, hash).NotAccepted?
      else
        && PlanOk(p)
        && var routed := Routes.RouteAll(p, Fresh(Tick(w)));
           Deciding.Run(input, w, hash)
           == if routed.None? then NotAccepted
              else Concluded(p, routed.value.x, routed.value.evidence, routed.value.failure, hash)
  {
    hide Admitted, PlanOk, Concluded, Routes.RouteAll, PlanOf;
    if Admitted(input, PlanOf(input, Tick(w).now, hash)) {
      AdmittedPlan(input, Tick(w).now, hash);
    }
  }

  /** The terminal code, and decide. */
  method Conclude(x: Live, evidence: array<Evidence>, failure: Option<Code>, hash: string -> Sum) returns (outcome: RunOutcome)
    requires evidence.Length == |x.plan.policy.rules|
    ensures outcome == Concluded(x.plan, x.State(), evidence[..], failure, hash)
    ensures outcome.Decided? ==> outcome.report.x == x.State()
  {
    hide Deciding.Decide, Terminal;
    var terminal := Live.FindTerminal(evidence, failure);
    var state := Execution(x.trace, x.usage, x.usageEnabled, x.route, x.last, x.fallback, x.world);
    var d := x.Decide(evidence, terminal, hash);
    if d.None? {
      return Undecided;
    }
    return Decided(Report(d.value, state, evidence[..], terminal));
  }

  /** run, from its clock reading on, over the copies it has taken. */
  method Execute(input: Input, captured: map<Key, array<char>>, adapters: Adapters, w: World, hash: string -> Sum)
    returns (outcome: RunOutcome, ghost lent: seq<array<char>>)
    requires Copies(captured, Taken(Along(input.profile), input.held))
    modifies adapters
    ensures outcome == Deciding.Run(input, w, hash)
    ensures forall b :: b in lent ==> b !in captured.Values && Zeroed(b[..])
    ensures old(adapters.seen) <= adapters.seen && Fits(lent, adapters.seen[|old(adapters.seen)|..])
    ensures outcome.Decided? ==>
              Visits(outcome.report.x.world.calls) == Visits(w.calls) + adapters.seen[|old(adapters.seen)|..]
  {
    hide Admitted, PlanOk, Concluded, Along, Taken, Routes.RouteAll, PlanOf, Copies, Deciding.Run, Zeroed;
    lent := [];
    NothingHanded(adapters.seen);
    Unfolded(input, w, hash);
    if !w.signal.Quiet? {
      return NotAccepted, lent;
    }
    var clock := Tick(w);
    var p := PlanOf(input, clock.now, hash);
    if !Admitted(input, p) {
      return NotAccepted, lent;
    }
    PlannedSecrets(input, clock.now, hash, captured);
    var x := new Live(p, captured, adapters, clock);
    var attempted, evidence, failure := x.RouteAll();
    lent := x.lent;
    if !attempted {
      return NotAccepted, lent;
    }
    outcome := Conclude(x, evidence, failure, hash);
  }

  lemma PlannedSecrets(input: Input, now: int, hash: string -> Sum, captured: map<Key, array<char>>)
    requires Copies(captured, Taken(Along(input.profile), input.held))
    ensures var p := PlanOf(input, now, hash);
      captured.Keys == p.secrets.Keys && forall k :: k in captured ==> captured[k][..] == p.secrets[k]
  {
    hide Taken, Along;
  }

  /**
   run with the credentials object it is given. `taken` and `lent` are the buffers it made: its own copies and
   those it lent to adapters, one for each credential they saw. However it ends, all of them are zero, and the object
   it was given is untouched; the calls of a decided run were given exactly what the adapters saw.
   */
  method Run(input: Input, credentials: Credentials, adapters: Adapters, w: World, hash: string -> Sum)
    returns (outcome: RunOutcome, ghost taken: map<Key, array<char>>, ghost lent: seq<array<char>>)
    requires credentials.Valid() && credentials.Captures() == input.held
    modifies adapters
    ensures outcome == Deciding.Run(input, w, hash)
    ensures credentials.Valid() && credentials.Captures() == input.held
    ensures old(adapters.seen) <= adapters.seen && Fits(lent, adapters.seen[|old(adapters.seen)|..])
    ensures outcome.Decided? ==>
              Visits(outcome.report.x.world.calls) == Visits(w.calls) + adapters.seen[|old(adapters.seen)|..]
    ensures !outcome.NotAccepted? ==> taken.Keys == Taken(Along(input.profile), input.held).Keys
    ensures forall k :: k in taken ==> fresh(taken[k]) && Zeroed(taken[k][..])
    ensures forall b :: b in lent ==> Zeroed(b[..])
  {
    hide Along, Taken, Credentialed, AllRunnable, Readable, Deciding.Run, Credentials.Captures;
    lent, taken := [], map[];
    NothingHanded(adapters.seen);
    Refused(input, w, hash);
    if !w.signal.Quiet? || !Readable(input) {
      return NotAccepted, taken, lent;
    }
    var ok, captured := CheckRoute(Along(input.profile), input.registry, input.permission, credentials, input.held);
    taken := captured;
    assert credentials.Buffers() !! captured.Values;
    if !ok {
      Wipe(captured);
      return NotAccepted, taken, lent;
    }
    outcome, lent := Execute(input, captured, adapters, w, hash);
    Wipe(captured);
  }

  lemma Refused(input: Input, w: World, hash: string -> Sum)
    ensures !w.signal.Quiet? || !Readable(input) || !AllRunnable(Along(input.profile), input.registry, input.permission)
            || !Credentialed(Along(input.profile), input.held) ==>
              Deciding.Run(input, w, hash).NotAccepted?
  {
    hide RouteAll, Decide, Readable, AllRunnable, Credentialed, Along, PlanOk, Concluded;
  }
}
