/** Bad accounting cannot change a semantic result: what adapters say of their usage reaches the usage report only. */
module Accounting {
  import opened Wrappers
  import opened Codes
  import opened Traces
  import opened Decisions
  import opened Evaluations
  import opened Profiles
  import opened CanonicalPolicy
  import opened Policies
  import opened Surroundings
  import opened Routes
  import opened Runs
  import opened Deciding

  function Quieted(a: Answer): Answer {
    a.(result := a.result.(usage := None))
  }

  /** The same moment, but for the usage an adapter reports in it. */
  predicate SameMoment(a: Moment, b: Moment) {
    a.(answer := Quieted(a.answer)) == b.(answer := Quieted(b.answer))
  }

  predicate SameCall(c: Call, d: Call) {
    c.(answer := Quieted(c.answer)) == d.(answer := Quieted(d.answer))
  }

  predicate SameCalls(calls: seq<Call>, others: seq<Call>) {
    |calls| == |others| && forall i :: 0 <= i < |calls| ==> SameCall(calls[i], others[i])
  }

  /** Two worlds in which everything happens alike, except that adapters may report different usage. */
  ghost predicate Twin(w: World, v: World) {
    && (forall n: nat :: SameMoment(w.script(n), v.script(n)))
    && (forall base: int, n: nat :: w.jitter(base, n) == v.jitter(base, n))
    && w.tick == v.tick && w.now == v.now && w.signal == v.signal
    && SameCalls(w.calls, v.calls) && w.waits == v.waits
  }

  // Each step keeps twins twins

  lemma TickTwin(w: World, v: World)
    requires Twin(w, v)
    ensures Twin(Tick(w), Tick(v)) && SameMoment(Coming(w), Coming(v))
  {
    hide SameCalls;
    assert SameMoment(w.script(w.tick), v.script(v.tick));
  }

  lemma SleepTwin(w: World, v: World, delay: int)
    requires delay >= 0 && Twin(w, v)
    ensures Twin(Sleep(w, delay), Sleep(v, delay))
  {
    TickTwin(w, v);
    hide SameCalls, Tick;
  }

  lemma StoppedTwin(w: World, v: World, deadline: int)
    requires Twin(w, v)
    ensures Stopped(w, deadline).code == Stopped(v, deadline).code
    ensures Twin(Stopped(w, deadline).world, Stopped(v, deadline).world)
  {
    TickTwin(w, v);
    TickTwin(Tick(w), Tick(v));
    TickTwin(Tick(Tick(w)), Tick(Tick(v)));
    TwinClocks(Tick(w), Tick(v));
    TwinClocks(Tick(Tick(w)), Tick(Tick(v)));
    TwinClocks(Tick(Tick(Tick(w))), Tick(Tick(Tick(v))));
    hide Tick, Twin, Coming;
  }

  lemma TwinClocks(w: World, v: World)
    requires Twin(w, v)
    ensures w.now == v.now && w.tick == v.tick && w.signal == v.signal && w.waits == v.waits && |w.calls| == |v.calls|
  {
  }

  lemma JudgeTwin(p: Plan, e: Entry, request: Request, a: Answer, b: Answer, w: World, v: World)
    requires Twin(w, v) && Quieted(a) == Quieted(b)
    ensures var c, d := Judge(p, e, request, a, w), Judge(p, e, request, b, v); c.code == d.code && Twin(c.world, d.world)
  {
    hide Tick, Stopped, Coming, Twin, RequestOk, Covers, MetadataOk, MetadataMatches, Classify;
    StoppedTwin(w, v, p.request.deadline);
    var s, t := Stopped(w, p.request.deadline).world, Stopped(v, p.request.deadline).world;
    if Stopped(w, p.request.deadline).code.None? {
      TickTwin(s, t);
      TwinClocks(Tick(s), Tick(t));
    }
    SameResult(request, a, b);
  }

  lemma SameResult(request: Request, a: Answer, b: Answer)
    requires Quieted(a) == Quieted(b)
    ensures ResultOk(request, a.result) == ResultOk(request, b.result)
    ensures a.result.evidence == b.result.evidence && a.result.metadata == b.result.metadata
    ensures a.fault == b.fault && a.expired == b.expired
  {
    hide Covers, MetadataOk;
    assert a.result.evidence == Quieted(a).result.evidence && b.result.evidence == Quieted(b).result.evidence;
    assert a.result.metadata == Quieted(a).result.metadata && b.result.metadata == Quieted(b).result.metadata;
    assert a.fault == Quieted(a).fault && a.expired == Quieted(a).expired;
  }

  lemma TwinAppend(w: World, v: World, c: Call, d: Call)
    requires Twin(w, v) && SameCall(c, d)
    ensures Twin(w.(calls := w.calls + [c]), v.(calls := v.calls + [d]))
  {
    hide SameCall, SameMoment;
  }

  lemma CallTwin(p: Plan, w: World, v: World, e: Entry, indexes: seq<nat>)
    requires IndexesOk(p, indexes) && Twin(w, v)
    ensures var c, d := CallAdapter(p, w, e, indexes), CallAdapter(p, v, e, indexes);
      && c.failure == d.failure && c.elapsed == d.elapsed && Twin(c.world, d.world) && Quieted(c.answer) == Quieted(d.answer)
  {
    hide Tick, Stopped, Judge, AttemptRequest, Covers, Lent, Earlier, Twin, Quieted;
    var begun, other := Tick(w), Tick(v);
    TickTwin(w, v);
    TickTwin(begun, other);
    TwinClocks(begun, other);
    TwinClocks(Tick(begun), Tick(other));
    var deadline := Earlier(begun.now + e.timeoutMS * MILLISECOND, p.request.deadline);
    var request := AttemptRequest(p, indexes, deadline);
    StoppedTwin(Tick(begun), Tick(other), p.request.deadline);
    TwinClocks(Stopped(Tick(begun), p.request.deadline).world, Stopped(Tick(other), p.request.deadline).world);
    JudgeTwin(p, e, request, Coming(begun).answer, Coming(other).answer, Tick(begun), Tick(other));
    var s := Judge(p, e, request, Coming(begun).answer, Tick(begun)).world;
    var t := Judge(p, e, request, Coming(other).answer, Tick(other)).world;
    TwinClocks(s, t);
    TickTwin(s, t);
    TwinClocks(Tick(s), Tick(t));
    TwinAppend(Tick(s), Tick(t), CallAdapter(p, w, e, indexes).call, CallAdapter(p, v, e, indexes).call);
  }

  ghost predicate TwinPause(q: Pause, r: Pause) {
    && Twin(q.world, r.world) && q.Halt? == r.Halt? && q.GiveUp? == r.GiveUp?
    && (q.Halt? ==> q.code == r.code)
  }

  lemma ActTwin(p: Plan, w: World, v: World, note: Wait)
    requires note.delay >= 0 && Twin(w, v)
    ensures TwinPause(Act(p, w, note), Act(p, v, note))
  {
    hide Sleep, Stopped, SameCalls, SameMoment;
    assert Twin(Noted(w, note), Noted(v, note));
    SleepTwin(Noted(w, note), Noted(v, note), note.delay);
    hide Twin;
    StoppedTwin(Sleep(Noted(w, note), note.delay), Sleep(Noted(v, note), note.delay), p.request.deadline);
  }

  lemma BackoffTwin(p: Plan, e: Entry, attempt: nat, fault: Option<Fault>, w: World, v: World)
    requires Scheduled(e.retry) && attempt >= 1 && Twin(w, v)
    ensures TwinPause(Backoff(p, e, attempt, fault, w), Backoff(p, e, attempt, fault, v))
  {
    hide BackoffMS, RetryAfter, Act, Stopped, Tick, Coming;
    var base := BackoffMS(e.retry, attempt) * MILLISECOND;
    var jittered := w.jitter(base, w.tick);
    assert v.jitter(base, v.tick) == jittered;
    var floor := RetryAfter(fault);
    var delay := if floor > jittered then floor else jittered;
    hide Twin;
    TickTwin(w, v);
    StoppedTwin(Tick(w), Tick(v), p.request.deadline);
    var s, t := Stopped(Tick(w), p.request.deadline), Stopped(Tick(v), p.request.deadline);
    TickTwin(s.world, t.world);
    TwinClocks(Tick(s.world), Tick(t.world));
    if s.code.None? {
      var clock, other := Tick(s.world), Tick(t.world);
      TickTwin(clock, other);
      var remaining := p.request.deadline - clock.now;
      if remaining > 0 {
        ActTwin(p, clock, other, Deliberate(e, attempt, base, floor, delay, remaining, clock));
      }
    }
  }

  // Two executions that differ only in their accounts stay so

  ghost predicate Twins(x: Execution, y: Execution) {
    x.trace == y.trace && x.route == y.route && x.last == y.last && x.fallback == y.fallback && Twin(x.world, y.world)
  }

  ghost predicate Alike(r: Invocation, t: Invocation) {
    r.evidence == t.evidence && r.failure == t.failure && Twins(r.x, t.x)
  }

  lemma RecordTwin(x: Execution, y: Execution, e: Entry, leg: Leg, indexes: seq<nat>, attempt: nat, c: Called, d: Called)
    requires Twins(x, y) && c.failure == d.failure && c.elapsed == d.elapsed && Twin(c.world, d.world)
    requires c.answer.result.metadata == d.answer.result.metadata
    ensures Twins(RecordCall(x, e, leg, indexes, attempt, c), RecordCall(y, e, leg, indexes, attempt, d))
  {
    hide Twin;
  }

  lemma {:induction false} InvokeAlike(p: Plan, x: Execution, y: Execution, e: Entry, leg: Leg, indexes: seq<nat>, attempt: nat)
    requires RetryOk(e.retry) && IndexesOk(p, indexes) && 1 <= attempt <= e.retry.maxAttempts && Twins(x, y)
    ensures Alike(Invoke(p, x, e, leg, indexes, attempt), Invoke(p, y, e, leg, indexes, attempt))
    decreases e.retry.maxAttempts - attempt
  {
    hide RetryOk, IndexesOk, Twin, Stopped, CallAdapter, RecordCall, Backoff, Covers, Transient, Quieted, FailedRules,
         CloneResults, Select, Record;
    InvokeStep(p, x, e, leg, indexes, attempt);
    InvokeStep(p, y, e, leg, indexes, attempt);
    StoppedTwin(x.world, y.world, p.request.deadline);
    var s, t := Stopped(x.world, p.request.deadline), Stopped(y.world, p.request.deadline);
    if s.code.None? && |x.trace| < MAX_EVALUATOR_ATTEMPTS {
      var x0, y0 := x.(world := s.world), y.(world := t.world);
      CallTwin(p, s.world, t.world, e, indexes);
      var c, d := CallAdapter(p, s.world, e, indexes), CallAdapter(p, t.world, e, indexes);
      SameResult(p.request, c.answer, d.answer);
      RecordTwin(x0, y0, e, leg, indexes, attempt, c, d);
      if c.failure.Some? && attempt < e.retry.maxAttempts && Transient(c.failure.value) in RetryOn(e.retry) {
        BackoffTwin(p, e, attempt, c.answer.fault, c.world, d.world);
        var x1, y1 := RecordCall(x0, e, leg, indexes, attempt, c), RecordCall(y0, e, leg, indexes, attempt, d);
        var q, r := Backoff(p, e, attempt, c.answer.fault, c.world), Backoff(p, e, attempt, d.answer.fault, d.world);
        if q.Resume? && r.Resume? {
          InvokeAlike(p, x1.(world := q.world), y1.(world := r.world), e, leg, indexes, attempt + 1);
        }
      }
    }
  }

  lemma {:induction false} ChainAlike(p: Plan, x: Execution, y: Execution, k: nat, indexes: seq<nat>, evidence: seq<Evidence>,
                                      code: Code)
    requires PlanOk(p) && k <= |Fallbacks(p.profile.routing)| && IndexesOk(p, indexes) && |evidence| == |indexes|
    requires Twins(x, y)
    ensures Alike(Chain(p, x, k, indexes, evidence, code), Chain(p, y, k, indexes, evidence, code))
    decreases |Fallbacks(p.profile.routing)| - k
  {
    hide PlanOk, Twin, Invoke, Chain, Entries, Transient, Confident, IndexesOk, RetryOk;
    ChainStep(p, x, k, indexes, evidence, code);
    ChainStep(p, y, k, indexes, evidence, code);
    var ids := Fallbacks(p.profile.routing);
    if k < |ids| && Transient(code) in FallbackOn(p.profile.routing) {
      FallbackRetry(p, k);
      var e := EntryOf(p, ids[k]);
      InvokeAlike(p, x, y, e, FallbackLeg, indexes, 1);
      var r, t := Invoke(p, x, e, FallbackLeg, indexes, 1), Invoke(p, y, e, FallbackLeg, indexes, 1);
      if r.failure.Some? {
        ChainAlike(p, r.x, t.x, k + 1, indexes, r.evidence, r.failure.value);
      }
    }
  }

  lemma FallbackRetry(p: Plan, k: nat)
    requires PlanOk(p) && k < |Fallbacks(p.profile.routing)|
    ensures FallbackIDs(p, Fallbacks(p.profile.routing))
    ensures RetryOk(EntryOf(p, Fallbacks(p.profile.routing)[k]).retry)
    ensures 1 <= EntryOf(p, Fallbacks(p.profile.routing)[k]).retry.maxAttempts
  {
    hide ValidProfile, Entries;
    ValidPlan(p);
    PlannedEntries(p);
  }

  lemma EscalateAlike(p: Plan, x: Execution, y: Execution, low: seq<nat>)
    requires PlanOk(p) && p.profile.routing.escalation.Some? && IndexesOk(p, low) && Twins(x, y)
    ensures Alike(Escalate(p, x, low), Escalate(p, y, low))
  {
    hide PlanOk, Twin, Invoke, Chain, Entries, Confident, IndexesOk, RetryOk;
    EscalationIsPlanned(p);
    var e := EntryOf(p, p.profile.routing.escalation.value);
    RetryAllows(e.retry);
    InvokeAlike(p, x, y, e, EscalationLeg, low, 1);
    var r, t := Invoke(p, x, e, EscalationLeg, low, 1), Invoke(p, y, e, EscalationLeg, low, 1);
    if r.failure.Some? {
      ChainAlike(p, r.x, t.x, 0, low, r.evidence, r.failure.value);
    }
  }

  lemma FirstAlike(p: Plan, x: Execution, y: Execution)
    requires PlanOk(p) && Twins(x, y)
    ensures Alike(First(p, x), First(p, y))
  {
    hide PlanOk, Twin, Invoke, Entries, RetryOk;
    PrimaryIsPlanned(p);
    var e := EntryOf(p, p.profile.routing.primary);
    RetryAllows(e.retry);
    InvokeAlike(p, x, y, e, PrimaryLeg, AllIndexes(|p.request.rules|), 1);
  }

  lemma RouteAlike(p: Plan, x: Execution, y: Execution)
    requires PlanOk(p) && Twins(x, y)
    ensures RouteAll(p, x).Some? == RouteAll(p, y).Some?
    ensures RouteAll(p, x).Some? ==>
              var r, t := RouteAll(p, x).value, RouteAll(p, y).value;
              r.evidence == t.evidence && r.failure == t.failure && r.escalated == t.escalated && Twins(r.x, t.x)
  {
    hide PlanOk, Twin, First, Chain, Escalate, Overwritten, LowIndexes, Confident;
    FirstAlike(p, x, y);
    ConfidenceIsSetByPlan(p);
    var r, t := First(p, x), First(p, y);
    if r.failure.Some? {
      ChainAlike(p, r.x, t.x, 0, AllIndexes(|p.request.rules|), r.evidence, r.failure.value);
    } else {
      var low := LowIndexes(p.profile.routing.confidence, r.evidence);
      if low != [] && p.profile.routing.escalation.Some? {
        EscalateAlike(p, r.x, t.x, low);
      }
    }
  }

  /**
   Two runs in worlds that differ only in the usage their adapters report end alike: both refused, or both with the
   same Decision, evidence, terminal code and trace, apart from the usage report that the Decision carries as an
   extension.
   */
  lemma AccountingIsInert(input: Input, w: World, v: World, hash: string -> Sum)
    requires Twin(w, v)
    ensures SameEnd(Run(input, w, hash), Run(input, v, hash))
  {
    hide Admitted, RouteAll, PlanOk, PlanOf, Twin, Concluded, SameEnd, Tick;
    TickTwin(w, v);
    TwinClocks(w, v);
    var c, d := Tick(w), Tick(v);
    TwinClocks(c, d);
    var p := PlanOf(input, c.now, hash);
    Refusals();
    if w.signal.Quiet? && Admitted(input, p) {
      AdmittedPlan(input, c.now, hash);
      RouteAlike(p, Fresh(c), Fresh(d));
      if RouteAll(p, Fresh(c)).Some? {
        var r, t := RouteAll(p, Fresh(c)).value, RouteAll(p, Fresh(d)).value;
        ConcludedAlike(p, r.x, t.x, r.evidence, r.failure, hash);
      }
    }
  }

  /** A Decision without its usage report. */
  function Unreported(d: Decision): Decision {
    d.(extensions := d.extensions - {USAGE_EXTENSION})
  }

  /** Two outcomes with the same Decision but for its usage report, evidence, terminal code and trace, or with none. */
  ghost predicate SameEnd(a: RunOutcome, b: RunOutcome) {
    && a.NotAccepted? == b.NotAccepted? && a.Undecided? == b.Undecided?
    && (a.Decided? && b.Decided? ==>
          && Unreported(a.report.decision) == Unreported(b.report.decision) && a.report.evidence == b.report.evidence
          && a.report.terminal == b.report.terminal && a.report.x.trace == b.report.x.trace)
  }

  lemma Refusals()
    ensures SameEnd(NotAccepted, NotAccepted)
  {
  }

  lemma ConcludedAlike(p: Plan, x: Execution, y: Execution, evidence: seq<Evidence>, failure: Option<Code>, hash: string -> Sum)
    requires |evidence| == |p.policy.rules| && Twins(x, y)
    ensures SameEnd(Concluded(p, x, evidence, failure, hash), Concluded(p, y, evidence, failure, hash))
  {
    hide Twin, Reduce, Accepted, OperationalFailure, Terminal, ToResults, Assemble;
    var results, terminal := ToResults(p.policy.rules, evidence), Terminal(evidence, failure);
    if Reduce(p.policy, results).Some? {
      AssembledAlike(p, x, y, results, OperationalFailure(Reduce(p.policy, results).value, results, terminal), terminal, hash);
    }
  }

  lemma AssembledAlike(p: Plan, x: Execution, y: Execution, results: seq<RuleResult>, r: Reduction, terminal: Code, hash: string -> Sum)
    requires Twins(x, y)
    ensures var d, e := Assemble(p, x, results, r, terminal), Assemble(p, y, results, r, terminal);
      Unreported(d) == Unreported(e) && Accepted(d, p.policy, hash) == Accepted(e, p.policy, hash)
  {
    hide Twin, Reduce, ValidPolicy, Digest, RuleResultOk, EvaluatorOk, DistinctResults, ReasonCodesOk, FailureOk, ExtensionsOk;
    assert Identity(p, x) == Identity(p, y);
    ExtensionsAreOk(x, terminal);
    ExtensionsAreOk(y, terminal);
    ReportApart(x, terminal);
    ReportApart(y, terminal);
    hide Identity, Extensions;
  }

  lemma ReportApart(x: Execution, terminal: Code)
    ensures Extensions(x, terminal) - {USAGE_EXTENSION} == map[TRACE_EXTENSION := TraceJson(x.trace, terminal)]
  {
    assert TRACE_EXTENSION[11] != USAGE_EXTENSION[11];
  }

  /** The same surroundings, except that each adapter call reports the usage it is told to. */
  function Reporting(w: World, usage: nat -> Option<Usage>): World {
    w.(script := (n: nat) =>
         var m := w.script(n); m.(answer := m.answer.(result := m.answer.result.(usage := usage(n)))))
  }

  /** So whatever usage the adapters of a world are made to report, or if they report none, its runs end the same. */
  lemma ReportsAreInert(input: Input, w: World, usage: nat -> Option<Usage>, hash: string -> Sum)
    ensures SameEnd(Run(input, w, hash), Run(input, Reporting(w, usage), hash))
  {
    hide Run, SameEnd;
    AccountingIsInert(input, w, Reporting(w, usage), hash);
  }
}
