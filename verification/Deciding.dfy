/** From evidence to a Decision, and the whole of run (evaluator/runner/runner.go). */
module Deciding {
  import opened Wrappers
  import opened Text
  import opened Codes
  import opened Policies
  import opened CanonicalPolicy
  import opened Decisions
  import opened Evaluations
  import opened Profiles
  import opened Surroundings
  import opened Routes
  import opened Invariants
  import opened Runs
  import opened RunTheorems
  import opened TraceTheorems
  import opened Provenance
  import opened Registries

  function ToResult(e: Evidence, rule: Rule): RuleResult {
    RuleResult(e.ruleID, e.status, if e.status.Matched? then Some(rule.outcome) else None, e.confidence, e.reasonCodes, "")
  }

  function ToResults(rules: seq<Rule>, evidence: seq<Evidence>): (results: seq<RuleResult>)
    requires |evidence| == |rules|
    ensures |results| == |rules| && forall i :: 0 <= i < |rules| ==> results[i] == ToResult(evidence[i], rules[i])
  {
    seq(|rules|, i requires 0 <= i < |rules| => ToResult(evidence[i], rules[i]))
  }

  predicate SolelyFailed(r: RuleResult, code: Code) {
    !r.status.Indeterminate? && (r.status.Failed? ==> r.reasonCodes == [code])
  }

  /** operationalFailure. */
  function OperationalFailure(reduction: Reduction, results: seq<RuleResult>, terminal: Code): Reduction {
    if !reduction.outcome.FailureVerdict? || !Operational(terminal) then reduction
    else
      var retryable := IsTransient(terminal) && forall i :: 0 <= i < |results| ==> SolelyFailed(results[i], terminal);
      reduction.(failure := Some(Failure(terminal, Evaluation, retryable, "")), reasonCodes := [UnresolvedRule, terminal])
  }

  /** The effective evaluator a Decision reports. */
  function Identity(p: Plan, x: Execution): Evaluator {
    var m := x.last;
    Evaluator(p.request.profileDigest, p.profileVersion, m.adapterID, m.adapterVersion, m.mode, Some(m.synthetic),
              m.provider, m.model,
              if m.synthetic then Some(m.fixtureSet) else None, if m.synthetic then Some(m.fixtureVersion) else None,
              x.route, |x.trace|, x.fallback)
  }

  const TRACE_EXTENSION := "io.antaeus.execution"
  const USAGE_EXTENSION := "io.antaeus.usage"

  /** The trace always, and the usage report if any adapter reported usage. */
  function Extensions(x: Execution, terminal: Code): map<string, Raw> {
    var traced := map[TRACE_EXTENSION := TraceJson(x.trace, terminal)];
    if x.usageEnabled then traced[USAGE_EXTENSION := UsageJson(x.usage)] else traced
  }

  function Assemble(p: Plan, x: Execution, results: seq<RuleResult>, r: Reduction, terminal: Code): Decision {
    Decision(DECISION_API_VERSION, DECISION_KIND, r.outcome, p.request.policyName, p.request.policyDigest, p.policyVersion, results,
             r.reasonCodes, r.failure, Some(Identity(p, x)), Extensions(x, terminal))
  }

  /** execution.decide; None stands for its error returns. */
  function Decide(p: Plan, x: Execution, evidence: seq<Evidence>, terminal: Code, hash: string -> Sum): Option<Decision>
    requires |evidence| == |p.policy.rules|
  {
    var results := ToResults(p.policy.rules, evidence);
    var reduced := Reduce(p.policy, results);
    if reduced.None? then None
    else
      var d := Assemble(p, x, results, OperationalFailure(reduced.value, results, terminal), terminal);
      if Accepted(d, p.policy, hash) then Some(d) else None
  }

  // Preflight

  predicate LabelOk(version: string) {
    version != "" ==> NonBlankText(version, 128)
  }

  predicate Probes(p: Plan, ids: seq<string>) {
    forall i :: 0 <= i < |ids| ==>
      ids[i] in Entries(p.profile.evaluators) && MetadataOk(MetadataOf(EntryOf(p, ids[i])))
  }

  /**
   `held` is what the credentials object holds, and `isCanonical` says that the input is the canonical form of a
   bounded JSON object.
   */
  datatype Input = Input(policy: Policy, policyVersion: string, profile: Profile, profileVersion: string,
                         profileDigest: string, canonicalInput: Payload, correlationID: string, parentDeadline: Option<int>,
                         held: map<Key, string>, isCanonical: bool, registry: Registry, permission: Permission)

  /** The evaluators of a route, as far as they are declared. */
  function EntriesAlong(entries: map<string, Entry>, route: seq<string>): seq<Entry> {
    if route == [] then []
    else
      var last := route[|route| - 1];
      EntriesAlong(entries, route[..|route| - 1]) + (if last in entries then [entries[last]] else [])
  }

  lemma {:induction false} IsAlong(entries: map<string, Entry>, route: seq<string>, id: string)
    requires id in route && id in entries
    ensures entries[id] in EntriesAlong(entries, route)
  {
    if id != route[|route| - 1] {
      assert id in route[..|route| - 1];
      IsAlong(entries, route[..|route| - 1], id);
    }
  }

  /** What the evaluators of a route take from the credentials held for the run. */
  function Taken(along: seq<Entry>, held: map<Key, string>): map<Key, string> {
    if along == [] then map[]
    else
      var before, last := Taken(along[..|along| - 1], held), along[|along| - 1];
      if last.credentialSlot.Some? && KeyOf(last) in held then before[KeyOf(last) := held[KeyOf(last)]] else before
  }

  /** Only held bytes are taken, and those of every evaluator on the route that has any. */
  lemma {:induction false} TakenIsHeld(along: seq<Entry>, held: map<Key, string>)
    ensures forall k :: k in Taken(along, held) ==> k in held && Taken(along, held)[k] == held[k]
    ensures forall k :: k in Taken(along, held) ==> exists e :: e in along && e.credentialSlot.Some? && KeyOf(e) == k
    ensures forall e :: e in along && e.credentialSlot.Some? && KeyOf(e) in held ==> KeyOf(e) in Taken(along, held)
  {
    if along != [] {
      TakenIsHeld(along[..|along| - 1], held);
      assert along == along[..|along| - 1] + [along[|along| - 1]];
    }
  }

  function Along(p: Profile): seq<Entry> {
    EntriesAlong(Entries(p.evaluators), RouteOf(p.routing))
  }

  /** Every routed credential is held and not empty. */
  predicate Credentialed(along: seq<Entry>, held: map<Key, string>) {
    forall e :: e in along && e.credentialSlot.Some? ==> KeyOf(e) in held && held[KeyOf(e)] != ""
  }

  function Questions(rules: seq<Rule>): (questions: seq<Question>)
    ensures |questions| == |rules| && forall i :: 0 <= i < |rules| ==> questions[i] == Question(rules[i].id, rules[i].when)
  {
    seq(|rules|, i requires 0 <= i < |rules| => Question(rules[i].id, rules[i].when))
  }

  /** The plan of a run whose clock read `now` when its deadline was set. */
  function PlanOf(input: Input, now: int, hash: string -> Sum): Plan {
    var own := now + input.profile.totalTimeoutMS * MILLISECOND;
    var deadline := if input.parentDeadline.Some? then Earlier(own, input.parentDeadline.value) else own;
    Plan(input.policy, input.policyVersion, input.profile, input.profileVersion,
         Request(input.policy.name, Digest(input.policy, hash), input.canonicalInput, Questions(input.policy.rules),
                 deadline, input.correlationID, input.profileDigest),
         now, Taken(Along(input.profile), input.held))
  }

  /** What run requires of the artifacts it is given, before it looks at the route. */
  predicate Readable(input: Input) {
    && ValidPolicy(input.policy) && |CanonicalText(input.policy)| <= MAX_SOURCE_BYTES
    && ValidProfile(input.profile)
    && input.isCanonical
    && ParametersAccepted(input.profile, input.registry)
  }

  /** What run requires before it makes the first attempt. */
  predicate Admitted(input: Input, p: Plan) {
    && Readable(input)
    && AllRunnable(Along(input.profile), input.registry, input.permission)
    && Credentialed(Along(input.profile), input.held)
    && RequestOk(p.request)
    && Probes(p, RouteOf(input.profile.routing))
    && LabelOk(input.policyVersion) && LabelOk(input.profileVersion)
  }

  datatype Report = Report(decision: Decision, x: Execution, evidence: seq<Evidence>, terminal: Code)

  datatype RunOutcome = NotAccepted | Undecided | Decided(report: Report)

  /** run, from its clock reading on: an error before acceptance, an error from decide, or a Decision. */
  function Run(input: Input, w: World, hash: string -> Sum): RunOutcome {
    var clock := Tick(w);
    var p := PlanOf(input, clock.now, hash);
    if !w.signal.Quiet? || !Admitted(input, p) then NotAccepted
    else
      AdmittedPlan(input, clock.now, hash);
      var routed := RouteAll(p, Fresh(clock));
      if routed.None? then NotAccepted
      else Concluded(p, routed.value.x, routed.value.evidence, routed.value.failure, hash)
  }

  /** The end of run: the terminal code and the Decision. */
  function Concluded(p: Plan, x: Execution, evidence: seq<Evidence>, failure: Option<Code>, hash: string -> Sum): RunOutcome
    requires |evidence| == |p.policy.rules|
  {
    var terminal := Terminal(evidence, failure);
    var d := Decide(p, x, evidence, terminal, hash);
    if d.None? then Undecided else Decided(Report(d.value, x, evidence, terminal))
  }

  lemma AdmittedPlan(input: Input, now: int, hash: string -> Sum)
    requires Admitted(input, PlanOf(input, now, hash))
    ensures PlanOk(PlanOf(input, now, hash)) && Probed(PlanOf(input, now, hash))
  {
    hide ValidPolicy, ValidProfile, RequestOk, CanonicalText, MetadataOk, ParametersAccepted, AllRunnable, Credentialed, Along;
  }

  // Acceptance implies a Decision

  ghost predicate Accepting(p: Plan, hash: string -> Sum) {
    && PlanOk(p) && Probed(p)
    && p.request.policyName == p.policy.name && p.request.policyDigest == Digest(p.policy, hash)
    && LabelOk(p.policyVersion) && LabelOk(p.profileVersion)
  }

  lemma ResultsAnswer(rules: seq<Rule>, evidence: seq<Evidence>)
    requires |evidence| == |rules|
    requires forall i :: 0 <= i < |rules| ==> RuleOk(rules[i]) && evidence[i].ruleID == rules[i].id && EvidenceOk(evidence[i])
    ensures Answers(rules, ToResults(rules, evidence))
  {
    forall i | 0 <= i < |rules| ensures RuleResultOk(ToResult(evidence[i], rules[i])) {
      ResultIsOk(evidence[i], rules[i]);
    }
    hide RuleResultOk, RuleOk, EvidenceOk;
  }

  lemma ResultIsOk(e: Evidence, rule: Rule)
    requires RuleOk(rule) && e.ruleID == rule.id && EvidenceOk(e)
    ensures RuleResultOk(ToResult(e, rule))
  {
  }

  lemma RaisedBound(s: string)
    requires IsIdentifier(s, 63)
    ensures NonBlankText(s, 128)
  {
    IdentifierIsText(s, 63);
  }

  /** The reported identity passes the Decision's own checks; the fixture pattern comes from the profile it matched. */
  lemma IdentityIsOk(p: Plan, x: Execution)
    requires PlanOk(p) && Inv(p, x) && x.trace != [] && LabelOk(p.profileVersion)
    ensures EvaluatorOk(Identity(p, x))
  {
    hide PlanOk, Inv, IsIdentifier, IsDigest, NonBlankText, EcmaText, LabelOk, VersionOk, IsNamespaced, EntryOk, ValidProfile;
    LastMatches(p, x);
    RouteReported(p, x);
    RequestDigest(p);
    LabelIsVersion(p.profileVersion);
  }

  lemma LabelIsVersion(version: string)
    requires LabelOk(version)
    ensures VersionOk(version)
  {
  }

  lemma RequestDigest(p: Plan)
    requires PlanOk(p)
    ensures IsDigest(p.request.profileDigest)
  {
    hide ValidProfile, ValidPolicy, IsDigest;
  }

  lemma LastMatches(p: Plan, x: Execution)
    requires PlanOk(p) && Inv(p, x) && x.trace != []
    ensures MetadataOk(x.last) && (x.last.synthetic ==> IsIdentifier(x.last.fixtureSet, 63))
  {
    hide MetadataOk, Grammar, Timely, Aligned, Summarised, RetryOk, RoutingOk, ValidPolicy, RequestOk, IsIdentifier, NonBlankText;
    var e := EntryOf(p, x.trace[|x.trace| - 1].evaluatorID);
    assert e in p.profile.evaluators;
    assert EntryOk(e, p.profile);
  }

  lemma RouteReported(p: Plan, x: Execution)
    requires PlanOk(p) && Inv(p, x) && x.trace != []
    ensures 1 <= |x.route| <= MAX_EVALUATOR_ROUTE && 1 <= |x.trace| <= MAX_EVALUATOR_ATTEMPTS
    ensures forall i :: 0 <= i < |x.route| ==> NonBlankText(x.route[i], 128)
  {
    PlannedProfile(p);
    RouteIsSummary(p, x.trace);
    hide PlanOk, Grammar, Timely, LastOk, NonBlankText, IsIdentifier, Collapsed;
    forall i | 0 <= i < |x.route| ensures NonBlankText(x.route[i], 128) {
      RaisedBound(x.route[i]);
    }
  }

  lemma PlannedProfile(p: Plan)
    requires PlanOk(p)
    ensures ValidProfile(p.profile) && ValidPolicy(p.policy)
  {
  }

  lemma EnrichedIsOk(reduction: Reduction, results: seq<RuleResult>, terminal: Code, rank: nat, default: Outcome)
    requires reduction == ReductionOf(rank, default) && !default.Unlisted?
    ensures var r := OperationalFailure(reduction, results, terminal);
      && r.outcome == reduction.outcome && !r.outcome.UnlistedVerdict?
      && ReasonCodesOk(r.reasonCodes)
      && (forall i :: 0 <= i < |reduction.reasonCodes| ==> reduction.reasonCodes[i] in r.reasonCodes)
      && (if r.outcome.FailureVerdict? then r.failure.Some? && FailureOk(r.failure.value) && r.failure.value.code in r.reasonCodes
          else r.failure.None?)
  {
  }

  lemma AssembledIsValid(p: Plan, x: Execution, results: seq<RuleResult>, r: Reduction, terminal: Code, hash: string -> Sum)
    requires Accepting(p, hash) && EvaluatorOk(Identity(p, x)) && ValidPolicy(p.policy) && Answers(p.policy.rules, results)
    requires !r.outcome.UnlistedVerdict? && ReasonCodesOk(r.reasonCodes)
    requires if r.outcome.FailureVerdict? then r.failure.Some? && FailureOk(r.failure.value) && r.failure.value.code in r.reasonCodes
             else r.failure.None?
    ensures ValidDecision(Assemble(p, x, results, r, terminal))
  {
    ExtensionsAreOk(x, terminal);
    LabelIsVersion(p.policyVersion);
    PolicyRules(p.policy);
    DigestIsWellFormed(p.policy, hash);
    hide PlanOk, Probed, ValidPolicy, EvaluatorOk, LabelOk, VersionOk, Identity, RuleOk, RuleResultOk, Digest, IsName, IsDigest,
         Extensions, ExtensionsOk,
         ReasonCodesOk, FailureOk;
  }

  lemma ExtensionsAreOk(x: Execution, terminal: Code)
    ensures ExtensionsOk(Extensions(x, terminal))
  {
    ExtensionNames();
    assert Extensions(x, terminal).Keys <= {TRACE_EXTENSION, USAGE_EXTENSION};
    Few(Extensions(x, terminal).Keys, TRACE_EXTENSION, USAGE_EXTENSION);
    hide IsReverseDNS;
  }

  lemma Few(names: set<string>, a: string, b: string)
    requires names <= {a, b}
    ensures |names| <= 2
  {
    if a in names {
      assert names == {a} + (names - {a});
      assert names - {a} == {} || names - {a} == {b};
    } else {
      assert names == {} || names == {b};
    }
  }

  lemma ExtensionNames()
    ensures IsReverseDNS(TRACE_EXTENSION) && IsReverseDNS(USAGE_EXTENSION)
  {
    assert TRACE_EXTENSION[2] == '.' && TRACE_EXTENSION[10] == '.' && |TRACE_EXTENSION| == 20;
    assert USAGE_EXTENSION[2] == '.' && USAGE_EXTENSION[10] == '.' && |USAGE_EXTENSION| == 16;
    ExtensionLetters();
    hide IsLower;
  }

  lemma ExtensionLetters()
    ensures forall i :: 0 <= i < |TRACE_EXTENSION| && i != 2 && i != 10 ==> IsLower(TRACE_EXTENSION[i])
    ensures forall i :: 0 <= i < |USAGE_EXTENSION| && i != 2 && i != 10 ==> IsLower(USAGE_EXTENSION[i])
  {
  }

  /** Once one attempt is on record, decide returns a Decision that the Decision contract accepts for this policy. */
  lemma DecideAccepts(p: Plan, x: Execution, evidence: seq<Evidence>, terminal: Code, hash: string -> Sum)
    requires Accepting(p, hash) && Inv(p, x) && x.trace != []
    requires |evidence| == |p.policy.rules|
    requires forall i :: 0 <= i < |evidence| ==> evidence[i].ruleID == p.policy.rules[i].id && EvidenceOk(evidence[i])
    ensures Decide(p, x, evidence, terminal, hash).Some?
  {
    hide PlanOk, Probed, Inv, EvidenceOk, EvaluatorOk, LabelOk, Identity, RuleOk, ValidDecision,
         OperationalFailure, Digest, Reduce, MaxRank, ReasonCodesOk, FailureOk, ValidPolicy, Answers, ReductionOf, Accepted,
         Assemble;
    PlannedProfile(p);
    PolicyRules(p.policy);
    IdentityIsOk(p, x);
    ResultsAnswer(p.policy.rules, evidence);
    var results := ToResults(p.policy.rules, evidence);
    ReduceAnswers(p.policy, results);
    ReduceIsMaximum(p.policy, results);
    var reduction := Reduce(p.policy, results).value;
    EnrichedIsOk(reduction, results, terminal, MaxRank(results), p.policy.defaultOutcome);
    AssembledIsValid(p, x, results, OperationalFailure(reduction, results, terminal), terminal, hash);
    AssembledIsAccepted(p, x, results, reduction, OperationalFailure(reduction, results, terminal), terminal, hash);
  }

  lemma AssembledIsAccepted(p: Plan, x: Execution, results: seq<RuleResult>, reduction: Reduction, r: Reduction, terminal: Code,
                            hash: string -> Sum)
    requires Accepting(p, hash) && Answers(p.policy.rules, results)
    requires ValidPolicy(p.policy) && ValidDecision(Assemble(p, x, results, r, terminal))
    requires Reduce(p.policy, results) == Some(reduction) && r.outcome == reduction.outcome
    requires forall i :: 0 <= i < |reduction.reasonCodes| ==> reduction.reasonCodes[i] in r.reasonCodes
    ensures Accepted(Assemble(p, x, results, r, terminal), p.policy, hash)
  {
    hide PlanOk, Probed, Identity, LabelOk, RuleOk, ValidDecision, Digest, Reduce, ReasonCodesOk, FailureOk, ValidPolicy,
         RuleResultOk;
  }

  lemma PolicyRules(p: Policy)
    requires ValidPolicy(p)
    ensures IsName(p.name) && !p.defaultOutcome.Unlisted? && 1 <= |p.rules| <= MAX_RULES
    ensures forall i :: 0 <= i < |p.rules| ==> RuleOk(p.rules[i])
    ensures forall i, j :: 0 <= i < j < |p.rules| ==> p.rules[i].id != p.rules[j].id
  {
    hide RuleOk, IsName;
  }

  ghost predicate Calm(w: World) {
    w.calls == [] && w.waits == []
  }

  /** run never fails once an attempt was made: for every input and every world it refuses or it decides. */
  lemma RunDecides(input: Input, w: World, hash: string -> Sum)
    requires Calm(w)
    ensures !Run(input, w, hash).Undecided?
  {
    hide Admitted, RouteAll, Decide, PlanOf, Terminal, PlanOk, Probed, Inv, EvidenceOk, Safe;
    var clock := Tick(w);
    var p := PlanOf(input, clock.now, hash);
    if w.signal.Quiet? && Admitted(input, p) {
      AdmittedPlan(input, clock.now, hash);
      AdmittedAccepts(input, clock.now, hash);
      if RouteAll(p, Fresh(clock)).Some? {
        EvidenceCovers(p, Fresh(clock));
        KeepsInv(p, Fresh(clock));
        var r := RouteAll(p, Fresh(clock)).value;
        DecideAccepts(p, r.x, r.evidence, Terminal(r.evidence, r.failure), hash);
      }
    }
  }

  lemma KeepsInv(p: Plan, x: Execution)
    requires PlanOk(p) && Probed(p) && Begins(p, x) && RouteAll(p, x).Some?
    ensures Inv(p, RouteAll(p, x).value.x) && RouteAll(p, x).value.x.trace != []
  {
    hide PlanOk, Probed, Begins, RouteAll, Inv, Budget, Sound, SomeRuleFailed;
    RouteKeeps(p, x);
  }

  lemma AdmittedAccepts(input: Input, now: int, hash: string -> Sum)
    requires Admitted(input, PlanOf(input, now, hash))
    ensures Accepting(PlanOf(input, now, hash), hash)
    ensures PlanOf(input, now, hash).started == now
  {
    hide PlanOk, Probed, ValidPolicy, ValidProfile, RequestOk, CanonicalText, MetadataOk, LabelOk, Digest, ParametersAccepted, AllRunnable,
         Credentialed, Along;
    AdmittedPlan(input, now, hash);
  }

  // Terminal code, outcome and failure

  /** Some piece of evidence failed with this code alone. */
  ghost predicate EvidenceFailed(evidence: seq<Evidence>, code: Code) {
    exists i :: 0 <= i < |evidence| && evidence[i].status.Failed? && evidence[i].reasonCodes == [code]
  }

  /** Some rule result failed with this code alone. */
  ghost predicate ResultFailed(results: seq<RuleResult>, code: Code) {
    exists i :: 0 <= i < |results| && results[i].status.Failed? && results[i].reasonCodes == [code]
  }

  /** What an assembled Decision says about its terminal code. */
  ghost predicate Agrees(d: Decision, terminal: Code) {
    && (terminal == Completed <==>
        forall i :: 0 <= i < |d.ruleResults| ==> d.ruleResults[i].status.Matched? || d.ruleResults[i].status.NotMatched?)
    && (Operational(terminal) ==>
        && ResultFailed(d.ruleResults, terminal)
        && (AnyMatched(d.ruleResults, Deny) || (d.outcome.FailureVerdict? && d.failure.Some? && d.failure.value.code == terminal)))
    && (d.failure.Some? ==>
        (d.failure.value.retryable <==>
          && Passing(terminal)
          && forall i :: 0 <= i < |d.ruleResults| ==> SolelyFailed(d.ruleResults[i], terminal)))
    && (AnyMatched(d.ruleResults, Deny) ==> d.outcome.DenyVerdict?)
  }

  lemma ResultsHaveStatus(rules: seq<Rule>, evidence: seq<Evidence>, failure: Option<Code>)
    requires |evidence| == |rules| && forall i :: 0 <= i < |evidence| ==> EvidenceOk(evidence[i])
    requires failure.Some? ==> Operational(failure.value) && EvidenceFailed(evidence, failure.value)
    ensures var results := ToResults(rules, evidence);
      && (Terminal(evidence, failure) == Completed <==>
          forall i :: 0 <= i < |results| ==> results[i].status.Matched? || results[i].status.NotMatched?)
      && (Operational(Terminal(evidence, failure)) <==> failure.Some?)
      && (failure.Some? ==> ResultFailed(results, failure.value))
  {
    hide ReasonCodesOk, ConfidenceOk;
    var results := ToResults(rules, evidence);
    if failure.Some? {
      var i :| 0 <= i < |evidence| && evidence[i].status.Failed? && evidence[i].reasonCodes == [failure.value];
      assert results[i].status.Failed?;
    }
    assert forall i :: 0 <= i < |results| ==> EvidenceOk(evidence[i]) && results[i].status == evidence[i].status;
  }

  lemma RankSays(results: seq<RuleResult>)
    ensures MaxRank(results) == 5 <==> AnyMatched(results, Deny)
    ensures AnyStatus(results, Failed) ==> MaxRank(results) >= 4
    ensures MaxRank(results) == 4 ==> AnyStatus(results, Failed)
    ensures AnyStatus(results, Indeterminate) ==> MaxRank(results) >= 3
    ensures MaxRank(results) == 3 ==> AnyStatus(results, Indeterminate)
    ensures MaxRank(results) <= 5
  {
  }

  lemma AssembledAgrees(d: Decision, reduction: Reduction, terminal: Code, default: Outcome)
    requires reduction == ReductionOf(MaxRank(d.ruleResults), default)
    requires var r := OperationalFailure(reduction, d.ruleResults, terminal);
      d.outcome == r.outcome && d.failure == r.failure
    requires terminal == Completed <==>
      forall i :: 0 <= i < |d.ruleResults| ==> d.ruleResults[i].status.Matched? || d.ruleResults[i].status.NotMatched?
    requires terminal in {Completed, UnresolvedRule} || Operational(terminal)
    requires Operational(terminal) ==> ResultFailed(d.ruleResults, terminal)
    ensures Agrees(d, terminal)
  {
    RankSays(d.ruleResults);
    hide MaxRank, AnyMatched;
    if Operational(terminal) {
      var i :| 0 <= i < |d.ruleResults| && d.ruleResults[i].status.Failed? && d.ruleResults[i].reasonCodes == [terminal];
      assert AnyStatus(d.ruleResults, Failed);
    }
  }

  /**
   Every rule result that did not fail is the primary's own answer to that rule: its status, confidence and codes, from
   the primary's one successful attempt, and not below the confidence threshold.
   */
  ghost predicate RetainsPrimary(p: Plan, report: Report) {
    && (p.profile.routing.confidence.enabled ==> p.profile.routing.confidence.minimumAccepted.Some?)
    && |report.decision.ruleResults| == |report.evidence|
    && forall i: nat :: i < |report.evidence| && !report.decision.ruleResults[i].status.Failed? ==>
         && Retained(p, report.x, i, report.evidence[i])
         && SameAnswer(report.decision.ruleResults[i], report.evidence[i])
  }

  predicate SameAnswer(r: RuleResult, e: Evidence) {
    r.ruleID == e.ruleID && r.status == e.status && r.confidence == e.confidence && r.reasonCodes == e.reasonCodes
  }

  lemma RetainedInDecision(p: Plan, x: Execution, d: Decision, terminal: Code)
    requires PlanOk(p) && Probed(p) && Begins(p, x) && RouteAll(p, x).Some?
    requires var r := RouteAll(p, x).value;
      |r.evidence| == |p.policy.rules| && d.ruleResults == ToResults(p.policy.rules, r.evidence)
    ensures var r := RouteAll(p, x).value;
      r.failure.Some? ==> RetainsPrimary(p, Report(d, r.x, r.evidence, terminal))
  {
    hide PlanOk, Probed, Begins, RouteAll, Retained;
    FailureRetainsPrimary(p, x);
  }

  /**
   For every decided run: `completed` means every rule was judged; an operational terminal code is the sole code
   of some failed rule and the failure's code, unless a matched deny won; the failure is retryable exactly when the
   code is transient and every unresolved rule failed solely with it; a matched deny always wins; and under an
   operational terminal code every result that did not fail, a winning deny included, is retained from the primary.
   */
  lemma TerminalAgrees(input: Input, w: World, hash: string -> Sum)
    requires Calm(w) && Run(input, w, hash).Decided?
    ensures Agrees(Run(input, w, hash).report.decision, Run(input, w, hash).report.terminal)
    ensures var report := Run(input, w, hash).report;
      report.decision.outcome == ReductionOf(MaxRank(report.decision.ruleResults), input.policy.defaultOutcome).outcome
    ensures Accepted(Run(input, w, hash).report.decision, input.policy, hash)
    ensures Operational(Run(input, w, hash).report.terminal) ==>
              RetainsPrimary(PlanOf(input, Tick(w).now, hash), Run(input, w, hash).report)
  {
    hide Admitted, RouteAll, PlanOf, PlanOk, Probed, Terminal, Agrees, Accepted, MaxRank, Reduce, ReductionOf, RetainsPrimary,
         EvidenceFailed, ResultFailed, Operational, Begins, Decide, Run, Safe, EvidenceOk, OperationalFailure;
    DecidedParts(input, w, hash);
    var p, x, report := PlanOf(input, Tick(w).now, hash), Fresh(Tick(w)), Run(input, w, hash).report;
    var r := RouteAll(p, x).value;
    DecideParts(p, r.x, r.evidence, report.terminal, hash);
    EvidenceCovers(p, x);
    FailureIsShown(p, x);
    var results := ToResults(p.policy.rules, r.evidence);
    ResultsHaveStatus(p.policy.rules, r.evidence, r.failure);
    TerminalCodes(r.evidence, r.failure);
    ReduceIsMaximum(p.policy, results);
    var reduction := Reduce(p.policy, results).value;
    SameOutcome(reduction, results, report.terminal);
    AssembledAgrees(report.decision, reduction, report.terminal, p.policy.defaultOutcome);
    RetainedInDecision(p, x, report.decision, report.terminal);
  }

  /** What a decided run was planned as, and what it decided on. */
  lemma DecidedParts(input: Input, w: World, hash: string -> Sum)
    requires Calm(w) && Run(input, w, hash).Decided?
    ensures var p, x, report := PlanOf(input, Tick(w).now, hash), Fresh(Tick(w)), Run(input, w, hash).report;
      && PlanOk(p) && Probed(p) && Begins(p, x) && p.policy == input.policy && RouteAll(p, x).Some?
      && var r := RouteAll(p, x).value;
         && report.evidence == r.evidence && report.x == r.x && report.terminal == Terminal(r.evidence, r.failure)
         && Decide(p, r.x, r.evidence, report.terminal, hash) == Some(report.decision)
  {
    hide Admitted, RouteAll, PlanOf, PlanOk, Probed, Terminal, Decide;
    var now := Tick(w).now;
    PlanOfPolicy(input, now, hash);
    AdmittedPlan(input, now, hash);
  }

  lemma DecideParts(p: Plan, x: Execution, evidence: seq<Evidence>, terminal: Code, hash: string -> Sum)
    requires |evidence| == |p.policy.rules| && Decide(p, x, evidence, terminal, hash).Some?
    ensures var d, results := Decide(p, x, evidence, terminal, hash).value, ToResults(p.policy.rules, evidence);
      && d.ruleResults == results && d.evaluator == Some(Identity(p, x)) && Accepted(d, p.policy, hash) && Reduce(p.policy, results).Some?
      && var r := OperationalFailure(Reduce(p.policy, results).value, results, terminal);
         d.outcome == r.outcome && d.failure == r.failure && d.reasonCodes == r.reasonCodes
  {
    hide Accepted, Reduce, OperationalFailure, Identity;
  }

  /**
   What a decided run publishes with its Decision: its own trace and terminal code, the usage report if and only if
   some adapter reported usage, and nothing else.
   */
  lemma DecidedPublishes(input: Input, w: World, hash: string -> Sum)
    requires Calm(w) && Run(input, w, hash).Decided?
    ensures var report := Run(input, w, hash).report;
      report.decision.extensions ==
      if AnyReported(report.x.world.calls)
      then map[TRACE_EXTENSION := TraceJson(report.x.trace, report.terminal), USAGE_EXTENSION := UsageJson(report.x.usage)]
      else map[TRACE_EXTENSION := TraceJson(report.x.trace, report.terminal)]
  {
    hide Admitted, RouteAll, PlanOf, PlanOk, Probed, Terminal, Run, Identity, OperationalFailure, Reduce, Accepted, AnyReported,
         Begins;
    DecidedParts(input, w, hash);
    EveryRunIsAccounted(PlanOf(input, Tick(w).now, hash), Fresh(Tick(w)));
  }

  lemma PlanOfPolicy(input: Input, now: int, hash: string -> Sum)
    ensures PlanOf(input, now, hash).policy == input.policy && PlanOf(input, now, hash).started == now
  {
  }

  lemma SameOutcome(reduction: Reduction, results: seq<RuleResult>, terminal: Code)
    ensures OperationalFailure(reduction, results, terminal).outcome == reduction.outcome
  {
  }

  lemma TerminalCodes(evidence: seq<Evidence>, failure: Option<Code>)
    ensures if failure.Some? then Terminal(evidence, failure) == failure.value
            else Terminal(evidence, failure) in {Completed, UnresolvedRule}
  {
  }

  lemma RulesCounted(p: Plan, x: Execution)
    requires PlanOk(p) && RouteAll(p, x).Some?
    ensures |RouteAll(p, x).value.evidence| == |p.request.rules|
  {
    hide RouteAll;
  }

  lemma FailureIsShown(p: Plan, x: Execution)
    requires PlanOk(p) && Probed(p) && Begins(p, x) && RouteAll(p, x).Some?
    ensures var r := RouteAll(p, x).value;
      r.failure.Some? ==> Operational(r.failure.value) && EvidenceFailed(r.evidence, r.failure.value)
  {
    hide PlanOk, Probed, Begins, RouteAll, Inv, Budget, Sound;
    RouteKeeps(p, x);
    var r := RouteAll(p, x).value;
    if r.failure.Some? {
      RulesCounted(p, x);
      assert SomeRuleFailed(p, r.evidence, r.failure.value);
      var i :| 0 <= i < |r.evidence| && r.evidence[i] == Evidence(p.request.rules[i].id, Failed, None, [r.failure.value], "");
      assert r.evidence[i].status.Failed?;
    }
  }
}
