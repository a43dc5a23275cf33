/**
 What a decided run did and reports, in terms of its input and of its own calls: what each call asked, what the Decision
 says, which evaluator it names, and why it failed if it did.
 */
module Reports {
  import opened Wrappers
  import opened Codes
  import opened Traces
  import opened Policies
  import opened CanonicalPolicy
  import opened Decisions
  import opened Evaluations
  import opened Profiles
  import opened Surroundings
  import opened Routes
  import opened Invariants
  import opened Runs
  import opened RunTheorems
  import opened Causes
  import opened Deciding

  /** A run that began at `now` plans to ask what its input says, by its own deadline or its caller's. */
  lemma PlanIsOfInput(input: Input, now: int, hash: string -> Sum)
    ensures var p := PlanOf(input, now, hash);
      && p.policy == input.policy && p.profile == input.profile
      && p.policyVersion == input.policyVersion && p.profileVersion == input.profileVersion
      && p.request.policyName == input.policy.name && p.request.policyDigest == Digest(input.policy, hash)
      && p.request.profileDigest == input.profileDigest && p.request.correlationID == input.correlationID
      && p.request.input == input.canonicalInput
      && IsDue(input, now, p.request.deadline)
      && |p.request.rules| == |input.policy.rules|
      && forall i :: 0 <= i < |input.policy.rules| ==>
           p.request.rules[i] == Question(input.policy.rules[i].id, input.policy.rules[i].when)
  {
    hide Digest, Taken, Along;
  }

  /** The earlier of the profile's timeout and the deadline of the caller's context. */
  predicate IsDue(input: Input, now: int, deadline: int) {
    && deadline <= now + input.profile.totalTimeoutMS * MILLISECOND
    && (input.parentDeadline.Some? ==> deadline <= input.parentDeadline.value)
    && (deadline == now + input.profile.totalTimeoutMS * MILLISECOND || input.parentDeadline == Some(deadline))
  }

  /** The call asked this attempt's rules of the input's policy, for this input, by the evaluator's timeout or the run's. */
  ghost predicate AsksFor(input: Input, due: int, hash: string -> Sum, a: Attempt, c: Call) {
    && a.evaluatorID in Entries(input.profile.evaluators)
    && var e := Entries(input.profile.evaluators)[a.evaluatorID];
       && c.adapter == Component(e.adapterID, e.adapterVersion)
       && c.request.policyName == input.policy.name && c.request.policyDigest == Digest(input.policy, hash)
       && c.request.profileDigest == input.profileDigest && c.request.correlationID == input.correlationID
       && c.request.input == input.canonicalInput
       && c.request.deadline == c.deadline <= due && c.deadline <= c.start + e.timeoutMS * MILLISECOND
       && (c.deadline == due || c.deadline == c.start + e.timeoutMS * MILLISECOND)
       && |c.request.rules| == |a.ruleIndexes|
       && forall k :: 0 <= k < |a.ruleIndexes| ==>
            && a.ruleIndexes[k] < |input.policy.rules|
            && c.request.rules[k] == Question(input.policy.rules[a.ruleIndexes[k]].id, input.policy.rules[a.ruleIndexes[k]].when)
  }

  lemma AskedIsAsksFor(p: Plan, input: Input, now: int, hash: string -> Sum, a: Attempt, c: Call)
    requires p == PlanOf(input, now, hash) && CallOk(p, a, c)
    ensures AsksFor(input, p.request.deadline, hash, a, c)
  {
    hide PlanOf, Entries, JudgedAs, Names, Digest, Lent;
    PlanIsOfInput(input, now, hash);
  }

  /** Every call of a decided run asks what the run was given to ask, of its evaluator's own adapter, and in time. */
  lemma CallsAskForTheInput(input: Input, w: World, hash: string -> Sum, j: nat) returns (due: int)
    requires Calm(w) && Run(input, w, hash).Decided? && j < |Run(input, w, hash).report.x.trace|
    ensures IsDue(input, Tick(w).now, due)
    ensures var y := Run(input, w, hash).report.x;
      |y.world.calls| == |y.trace| && AsksFor(input, due, hash, y.trace[j], y.world.calls[j])
  {
    hide Run, PlanOf, PlanOk, Probed, Begins, RouteAll, Decide, Terminal, AsksFor, CallOk, IsDue, JudgedAs, ResultOk, IsFrom;
    DecidedParts(input, w, hash);
    var p := PlanOf(input, Tick(w).now, hash);
    PlanIsOfInput(input, Tick(w).now, hash);
    due := p.request.deadline;
    NoLateEvidence(p, Fresh(Tick(w)), j);
    var y := RouteAll(p, Fresh(Tick(w))).value.x;
    AskedIsAsksFor(p, input, Tick(w).now, hash, y.trace[j], y.world.calls[j]);
  }

  // The Decision

  /** One result for each rule of the policy: what the evidence says of it, and the rule's own outcome if it matched. */
  ghost predicate ResultsSay(policy: Policy, evidence: seq<Evidence>, results: seq<RuleResult>) {
    && |results| == |policy.rules| == |evidence|
    && forall i :: 0 <= i < |results| ==>
         && results[i].ruleID == policy.rules[i].id == evidence[i].ruleID
         && results[i].status == evidence[i].status && results[i].confidence == evidence[i].confidence
         && results[i].reasonCodes == evidence[i].reasonCodes && results[i].message == ""
         && results[i].outcome == if evidence[i].status.Matched? then Some(policy.rules[i].outcome) else None
  }

  /** Every rule without a verdict failed with this code and no other. */
  ghost predicate FailedSolely(results: seq<RuleResult>, code: Code) {
    forall i :: 0 <= i < |results| ==>
      !results[i].status.Indeterminate? && (results[i].status.Failed? ==> results[i].reasonCodes == [code])
  }

  /**
   The failure of a Decision: none unless it is the outcome; then the unresolved rule, or the code the run ended with,
   retryable if that is a passing one and the only thing that went wrong.
   */
  ghost predicate FailureSays(d: Decision, terminal: Code) {
    if !d.outcome.FailureVerdict? then d.failure.None? && |d.reasonCodes| == 1
    else if terminal in {Completed, UnresolvedRule} then
      d.failure == Some(Failure(UnresolvedRule, Evaluation, false, "")) && d.reasonCodes == [UnresolvedRule]
    else
      && d.failure.Some? && d.failure.value.code == terminal
      && d.failure.value.stage.Evaluation? && d.failure.value.message == ""
      && (d.failure.value.retryable <==>
            terminal in {EvaluatorTimeout, EvaluatorUnavailable, EvaluatorThrottled} && FailedSolely(d.ruleResults, terminal))
      && d.reasonCodes == [UnresolvedRule, terminal]
  }

  lemma OperationalSays(d: Decision, policy: Policy, terminal: Code)
    requires Reduce(policy, d.ruleResults).Some?
    requires var r := OperationalFailure(Reduce(policy, d.ruleResults).value, d.ruleResults, terminal);
      d.outcome == r.outcome && d.failure == r.failure && d.reasonCodes == r.reasonCodes
    requires terminal in {Completed, UnresolvedRule} || Operational(terminal)
    ensures |d.reasonCodes| >= 1 && Decides(policy.defaultOutcome, d.ruleResults, d.outcome, d.reasonCodes[0])
    ensures FailureSays(d, terminal)
  {
    hide Reduce, Decides, ValidPolicy, RuleResultOk, RuleOk;
    ReduceSays(policy, d.ruleResults);
    ReduceIsDefined(policy, d.ruleResults);
    PolicyRules(policy);
    FailureCode(policy.defaultOutcome, d.ruleResults, Reduce(policy, d.ruleResults).value);
    assert (forall i :: 0 <= i < |d.ruleResults| ==> SolelyFailed(d.ruleResults[i], terminal)) <==>
           FailedSolely(d.ruleResults, terminal);
  }

  lemma FailureCode(default: Outcome, results: seq<RuleResult>, r: Reduction)
    requires |r.reasonCodes| == 1 && Decides(default, results, r.outcome, r.reasonCodes[0]) && !default.Unlisted?
    ensures r.outcome.FailureVerdict? ==> r.reasonCodes == [UnresolvedRule]
  {
  }

  /** The Decision names the policy it was made for, and says what the policy decides on the run's own evidence. */
  ghost predicate DecisionSays(input: Input, hash: string -> Sum, report: Report) {
    var d := report.decision;
    && d.apiVersion == DECISION_API_VERSION && d.kind == DECISION_KIND
    && d.policyName == input.policy.name && d.policyDigest == Digest(input.policy, hash)
    && d.policyVersion == input.policyVersion
    && ResultsSay(input.policy, report.evidence, d.ruleResults)
    && |d.reasonCodes| >= 1 && Decides(input.policy.defaultOutcome, d.ruleResults, d.outcome, d.reasonCodes[0])
    && FailureSays(d, report.terminal)
  }

  lemma AssembledSays(p: Plan, x: Execution, evidence: seq<Evidence>, terminal: Code, hash: string -> Sum)
    requires |evidence| == |p.policy.rules| && Decide(p, x, evidence, terminal, hash).Some?
    requires forall i :: 0 <= i < |evidence| ==> evidence[i].ruleID == p.policy.rules[i].id
    ensures var d := Decide(p, x, evidence, terminal, hash).value;
      && d.apiVersion == DECISION_API_VERSION && d.kind == DECISION_KIND
      && d.policyName == p.request.policyName && d.policyDigest == p.request.policyDigest && d.policyVersion == p.policyVersion
      && ResultsSay(p.policy, evidence, d.ruleResults)
  {
    hide Accepted, Reduce, OperationalFailure, Identity, Extensions;
  }

  lemma DecidedSays(input: Input, w: World, hash: string -> Sum)
    requires Calm(w) && Run(input, w, hash).Decided?
    ensures DecisionSays(input, hash, Run(input, w, hash).report)
  {
    hide Run, PlanOf, PlanOk, Probed, Begins, RouteAll, Decide, Terminal, ResultsSay, Decides, FailureSays, OperationalFailure,
         Reduce, Digest, Accepted, Safe, EvidenceOk, Operational, EvidenceFailed, IsDue, Identity;
    DecidedParts(input, w, hash);
    var p, x, report := PlanOf(input, Tick(w).now, hash), Fresh(Tick(w)), Run(input, w, hash).report;
    PlanIsOfInput(input, Tick(w).now, hash);
    EvidenceCovers(p, x);
    FailureIsShown(p, x);
    var r := RouteAll(p, x).value;
    TerminalCodes(r.evidence, r.failure);
    DecideParts(p, r.x, r.evidence, report.terminal, hash);
    AssembledSays(p, r.x, r.evidence, report.terminal, hash);
    OperationalSays(report.decision, p.policy, report.terminal);
  }

  // The evaluator

  /** The metadata an adapter reported of itself, as a Decision reports them. */
  predicate AsReported(v: Evaluator, m: Metadata) {
    && v.adapter == m.adapterID && v.adapterVersion == m.adapterVersion && v.mode == m.mode && v.synthetic == Some(m.synthetic)
    && v.provider == m.provider && v.model == m.model
    && v.fixtureSet == (if m.synthetic then Some(m.fixtureSet) else None)
    && v.fixtureVersion == (if m.synthetic then Some(m.fixtureVersion) else None)
  }

  /** An evaluator as its profile configures it, as a Decision reports it. */
  predicate AsConfigured(v: Evaluator, e: Entry) {
    && v.adapter == e.adapterID && v.adapterVersion == e.adapterVersion && v.mode == e.mode
    && v.synthetic == Some(e.mode.DeterministicFixture?)
    && v.provider == (if e.provider.Some? then e.provider.value else "")
    && v.model == (if e.model.Some? then e.model.value else "")
  }

  /** The text among these parameters under this key. */
  predicate Parameter(e: Entry, key: string, text: Option<string>) {
    && text.Some? && e.parameters.Some?
    && exists i :: 0 <= i < |e.parameters.value| && e.parameters.value[i] == Trees.Member(key, Trees.Scalar(Trees.Text(text.value)))
  }

  /**
   What a Decision says of its evaluators: how many attempts were made, whether any was a fallback's, which evaluators
   were tried, and who the last was, by its own account if its answer counted.
   */
  ghost predicate EvaluatorSays(input: Input, x: Execution, v: Evaluator) {
    && v.profileDigest == input.profileDigest && v.profileVersion == input.profileVersion
    && v.attempts == |x.trace| == |x.world.calls| && x.trace != []
    && (v.fallback <==> exists i :: 0 <= i < |x.trace| && x.trace[i].leg.FallbackLeg?)
    && v.route == Collapsed(x.trace)
    && var n := |x.trace| - 1;
       && x.trace[n].evaluatorID in Entries(input.profile.evaluators)
       && var e := Entries(input.profile.evaluators)[x.trace[n].evaluatorID];
          && (if x.trace[n].code == Succeeded then AsReported(v, x.world.calls[n].answer.result.metadata) else AsConfigured(v, e))
          && IsAdapterOf(v, e)
  }

  /** Whatever its adapter reports, an evaluator's adapter and fixture are those of its profile. */
  predicate IsAdapterOf(v: Evaluator, e: Entry) {
    && v.adapter == e.adapterID && v.adapterVersion == e.adapterVersion
    && if e.mode.DeterministicFixture? then
         Parameter(e, "fixtureSet", v.fixtureSet) && Parameter(e, "fixtureVersion", v.fixtureVersion)
       else v.fixtureSet.None? && v.fixtureVersion.None?
  }

  lemma {:induction false} TextIsThere(members: seq<Trees.Member>, key: string)
    requires TextParameter(members, key).Some?
    ensures exists i :: 0 <= i < |members|
                        && members[i] == Trees.Member(key, Trees.Scalar(Trees.Text(TextParameter(members, key).value)))
  {
    var n := |members| - 1;
    if members[n].key != key {
      TextIsThere(members[..n], key);
      var i :| 0 <= i < n && members[..n][i] == Trees.Member(key, Trees.Scalar(Trees.Text(TextParameter(members[..n], key).value)));
      assert members[i] == members[..n][i];
    }
  }

  lemma FixtureIsThere(e: Entry, p: Profile)
    requires EntryOk(e, p) && e.mode.DeterministicFixture?
    ensures Parameter(e, "fixtureSet", Some(FixtureSet(e))) && Parameter(e, "fixtureVersion", Some(FixtureVersion(e)))
  {
    hide NamesOk, RetryOk, IdentifiersOk, ComponentOk;
    FixtureTexts(e);
    hide EntryOk, FixtureOk, ParametersOk;
    TextIsThere(e.parameters.value, "fixtureSet");
    TextIsThere(e.parameters.value, "fixtureVersion");
  }

  lemma FixtureTexts(e: Entry)
    requires FixtureOk(e) && e.mode.DeterministicFixture? && e.parameters.Some?
    ensures TextParameter(e.parameters.value, "fixtureSet").Some? && TextParameter(e.parameters.value, "fixtureVersion").Some?
  {
    hide TextParameter;
  }

  lemma IdentityOf(p: Plan, x: Execution, e: Entry)
    requires EntryOk(e, p.profile) && IsFrom(e, x.last)
    ensures AsReported(Identity(p, x), x.last) && IsAdapterOf(Identity(p, x), e)
    ensures Describes(x.last, e) ==> AsConfigured(Identity(p, x), e)
  {
    hide EntryOk, FixtureSet, FixtureVersion, Parameter;
    if e.mode.DeterministicFixture? {
      FixtureIsThere(e, p.profile);
    }
  }

  lemma IdentitySays(p: Plan, input: Input, x: Execution)
    requires Inv(p, x) && x.trace != [] && ValidProfile(input.profile)
    requires p.profile == input.profile && p.profileVersion == input.profileVersion
    requires p.request.profileDigest == input.profileDigest
    ensures EvaluatorSays(input, x, Identity(p, x))
  {
    hide Grammar, Timely, Collapsed, MetadataOk, ValidProfile, EntryOk, Entries, UsageRecord, AnyReported, IsFrom, Describes,
         AsReported, AsConfigured, IsAdapterOf;
    DeclaredIsOk(p.profile, x.trace[|x.trace| - 1].evaluatorID);
    IdentityOf(p, x, EntryOf(p, x.trace[|x.trace| - 1].evaluatorID));
  }

  lemma DeclaredIsOk(p: Profile, id: string)
    requires ValidProfile(p) && id in Entries(p.evaluators)
    ensures EntryOk(Entries(p.evaluators)[id], p)
  {
    hide EntryOk, Entries, RoutingOk, HeaderOk, SlotsOk;
    var i :| 0 <= i < |p.evaluators| && p.evaluators[i] == Entries(p.evaluators)[id];
  }

  /** Every Decision says of its evaluators what the run's own trace and calls say. */
  lemma EvaluatorIsReported(input: Input, w: World, hash: string -> Sum)
    requires Calm(w) && Run(input, w, hash).Decided?
    ensures var report := Run(input, w, hash).report;
      report.decision.evaluator.Some? && EvaluatorSays(input, report.x, report.decision.evaluator.value)
  {
    hide Run, PlanOf, PlanOk, Probed, Begins, RouteAll, Decide, Terminal, EvaluatorSays, Identity, Inv, Accepted, Reduce,
         OperationalFailure, IsDue, Digest, ValidProfile;
    DecidedParts(input, w, hash);
    var p, x, report := PlanOf(input, Tick(w).now, hash), Fresh(Tick(w)), Run(input, w, hash).report;
    PlanIsOfInput(input, Tick(w).now, hash);
    KeepsInv(p, x);
    ValidPlan(p);
    DecideParts(p, report.x, report.evidence, report.terminal, hash);
    IdentitySays(p, input, report.x);
  }

  // The terminal code

  /** A decided run that ended with a failure has its cause on record. */
  lemma TerminalHasCause(input: Input, w: World, hash: string -> Sum) returns (p: Plan)
    requires Calm(w) && Run(input, w, hash).Decided?
    ensures IsDue(input, Tick(w).now, p.request.deadline)
    ensures var report := Run(input, w, hash).report;
      report.terminal !in {Completed, UnresolvedRule} ==> Caused(p, report.x, report.terminal)
  {
    hide Run, PlanOf, PlanOk, Probed, Begins, RouteAll, Decide, Terminal, Caused, IsDue, Digest;
    DecidedParts(input, w, hash);
    p := PlanOf(input, Tick(w).now, hash);
    PlanIsOfInput(input, Tick(w).now, hash);
    FailureHasCause(p, Fresh(Tick(w)));
    var r := RouteAll(p, Fresh(Tick(w))).value;
    TerminalCodes(r.evidence, r.failure);
  }
}
