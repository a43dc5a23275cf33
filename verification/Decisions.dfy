/** Reduction of rule results and validation of Decisions (decision/reduce.go, validate.go, against.go). */
module Decisions {
  import opened Wrappers
  import opened Text
  import opened Codes
  import opened Traces
  import opened Policies
  import opened CanonicalPolicy

  const DECISION_API_VERSION := "decision.antaeus.io/v0alpha2"
  const DECISION_KIND := "Decision"
  const MAX_MESSAGE_LENGTH := 4096
  const MAX_EVALUATOR_ROUTE := 16
  const MAX_EVALUATOR_ATTEMPTS := 64
  const MAX_EXTENSIONS := 32

  datatype Verdict = AllowVerdict | ReviewVerdict | DenyVerdict | FailureVerdict | UnlistedVerdict(text: string)

  datatype RuleStatus = Matched | NotMatched | Indeterminate | Failed | UnlistedStatus(text: string)

  datatype Mode = Semantic | DeterministicFixture | UnlistedMode(text: string)

  datatype RuleResult = RuleResult(ruleID: string, status: RuleStatus, outcome: Option<Outcome>,
                                   confidence: Option<real>, reasonCodes: seq<Code>, message: string)

  datatype Stage = Configuration | PolicyResolution | Evaluation | Reducing | Internal | UnlistedStage(text: string)

  datatype Failure = Failure(code: Code, stage: Stage, retryable: bool, message: string)

  datatype Reduction = Reduction(outcome: Verdict, reasonCodes: seq<Code>, failure: Option<Failure>)

  datatype Evaluator = Evaluator(profileDigest: string, profileVersion: string, adapter: string, adapterVersion: string,
                                 mode: Mode, synthetic: Option<bool>, provider: string, model: string,
                                 fixtureSet: Option<string>, fixtureVersion: Option<string>,
                                 route: seq<string>, attempts: int, fallback: bool)

  /** The bytes of an extension, as what they are the JSON of. */
  datatype Raw = TraceJson(attempts: seq<Attempt>, terminal: Code) | UsageJson(usage: seq<UsageAttempt>)
               | OtherJson(text: string) | NotJson(text: string)

  datatype Decision = Decision(apiVersion: string, kind: string, outcome: Verdict, policyName: string, policyDigest: string, policyVersion: string,
                               ruleResults: seq<RuleResult>, reasonCodes: seq<Code>, failure: Option<Failure>,
                               evaluator: Option<Evaluator>, extensions: map<string, Raw>)

  // Field checks

  predicate MessageOk(message: string) {
    message == "" || (ValidString(message) && RuneCount(message) <= MAX_MESSAGE_LENGTH)
  }

  predicate ConfidenceOk(confidence: Option<real>) {
    confidence.Some? ==> 0.0 <= confidence.value <= 1.0
  }

  /** RuleResult.validate. */
  predicate RuleResultOk(r: RuleResult) {
    && IsRuleID(r.ruleID)
    && !r.status.UnlistedStatus?
    && (if r.status.Matched? then r.outcome.Some? && !r.outcome.value.Unlisted? else r.outcome.None?)
    && ConfidenceOk(r.confidence)
    && ReasonCodesOk(r.reasonCodes)
    && MessageOk(r.message)
  }

  /** Failure.validate. */
  predicate FailureOk(f: Failure) {
    IsReasonCode(f.code) && !f.stage.UnlistedStage? && MessageOk(f.message)
  }

  predicate VersionOk(version: string) {
    version != "" ==> ValidString(version) && RuneCount(version) <= 128
  }

  /** Evaluator.validate. */
  predicate EvaluatorOk(e: Evaluator) {
    && IsDigest(e.profileDigest)
    && VersionOk(e.profileVersion)
    && NonBlankText(e.adapter, 128)
    && EcmaText(e.adapterVersion, 128)
    && !e.mode.UnlistedMode?
    && e.synthetic.Some?
    && (if e.mode.DeterministicFixture? then
          && e.synthetic.value
          && e.fixtureSet.Some? && IsIdentifier(e.fixtureSet.value, 63)
          && e.fixtureVersion.Some? && EcmaText(e.fixtureVersion.value, 128)
        else
          !e.synthetic.value && e.fixtureSet.None? && e.fixtureVersion.None?)
    && (e.provider != "" ==> EcmaText(e.provider, 128))
    && (e.model != "" ==> EcmaText(e.model, 256))
    && 1 <= |e.route| <= MAX_EVALUATOR_ROUTE
    && (forall i :: 0 <= i < |e.route| ==> NonBlankText(e.route[i], 128))
    && 1 <= e.attempts <= MAX_EVALUATOR_ATTEMPTS
  }

  predicate DistinctResults(results: seq<RuleResult>) {
    forall i, j :: 0 <= i < j < |results| ==> results[i].ruleID != results[j].ruleID
  }

  predicate ValidDecision(d: Decision) {
    && d.apiVersion == DECISION_API_VERSION && d.kind == DECISION_KIND
    && !d.outcome.UnlistedVerdict?
    && IsName(d.policyName) && IsDigest(d.policyDigest) && VersionOk(d.policyVersion)
    && 1 <= |d.ruleResults| <= MAX_RULES
    && (forall i :: 0 <= i < |d.ruleResults| ==> RuleResultOk(d.ruleResults[i]))
    && DistinctResults(d.ruleResults)
    && ReasonCodesOk(d.reasonCodes)
    && (if d.outcome.FailureVerdict? then
          d.failure.Some? && FailureOk(d.failure.value) && d.failure.value.code in d.reasonCodes
        else d.failure.None?)
    && (d.evaluator.Some? ==> EvaluatorOk(d.evaluator.value))
    && ExtensionsOk(d.extensions)
  }

  predicate ExtensionsOk(extensions: map<string, Raw>) {
    |extensions| <= MAX_EXTENSIONS && forall name :: name in extensions ==> IsReverseDNS(name) && !extensions[name].NotJson?
  }

  /** RuleResult.validate, step by step. */
  method ValidateRuleResult(r: RuleResult) returns (ok: bool)
    ensures ok <==> RuleResultOk(r)
  {
    hide ReasonCodesOk, ValidString, RuneCount, IsRuleID;
    if !IsRuleID(r.ruleID) || r.status.UnlistedStatus? {
      return false;
    }
    if r.status.Matched? {
      if r.outcome.None? || r.outcome.value.Unlisted? {
        return false;
      }
    } else if r.outcome.Some? {
      return false;
    }
    if r.confidence.Some? && (r.confidence.value < 0.0 || r.confidence.value > 1.0) {
      return false;
    }
    ok := ValidateReasonCodes(r.reasonCodes);
    return ok && (r.message == "" || (ValidString(r.message) && RuneCount(r.message) <= MAX_MESSAGE_LENGTH));
  }

  /** Failure.validate. */
  method ValidateFailure(f: Failure) returns (ok: bool)
    ensures ok <==> FailureOk(f)
  {
    if !IsReasonCode(f.code) || f.stage.UnlistedStage? {
      return false;
    }
    return f.message == "" || (ValidString(f.message) && RuneCount(f.message) <= MAX_MESSAGE_LENGTH);
  }

  /** Evaluator.validate, step by step. */
  method ValidateEvaluator(e: Evaluator) returns (ok: bool)
    ensures ok <==> EvaluatorOk(e)
  {
    hide IsDigest, NonBlankText, EcmaText, IsIdentifier, ValidString, RuneCount;
    if !IsDigest(e.profileDigest) {
      return false;
    }
    if e.profileVersion != "" && (!ValidString(e.profileVersion) || RuneCount(e.profileVersion) > 128) {
      return false;
    }
    if !NonBlankText(e.adapter, 128) || !EcmaText(e.adapterVersion, 128) || e.mode.UnlistedMode? || e.synthetic.None? {
      return false;
    }
    if e.mode.DeterministicFixture? {
      if !e.synthetic.value || e.fixtureSet.None? || !IsIdentifier(e.fixtureSet.value, 63) {
        return false;
      }
      if e.fixtureVersion.None? || !EcmaText(e.fixtureVersion.value, 128) {
        return false;
      }
    } else if e.synthetic.value || e.fixtureSet.Some? || e.fixtureVersion.Some? {
      return false;
    }
    if (e.provider != "" && !EcmaText(e.provider, 128)) || (e.model != "" && !EcmaText(e.model, 256)) {
      return false;
    }
    if |e.route| == 0 || |e.route| > MAX_EVALUATOR_ROUTE {
      return false;
    }
    for i := 0 to |e.route|
      invariant forall k :: 0 <= k < i ==> NonBlankText(e.route[k], 128)
    {
      if !NonBlankText(e.route[i], 128) {
        return false;
      }
    }
    return 1 <= e.attempts <= MAX_EVALUATOR_ATTEMPTS;
  }

  /** The loop over the extensions, in whatever order the map gives them. */
  method ValidateExtensions(extensions: map<string, Raw>) returns (ok: bool)
    ensures ok <==> ExtensionsOk(extensions)
  {
    if |extensions| > MAX_EXTENSIONS {
      return false;
    }
    var left := extensions.Keys;
    while left != {}
      invariant left <= extensions.Keys
      invariant forall name :: name in extensions && name !in left ==> IsReverseDNS(name) && !extensions[name].NotJson?
      decreases |left|
    {
      var name :| name in left;
      if !IsReverseDNS(name) || extensions[name].NotJson? {
        return false;
      }
      left := left - {name};
    }
    return true;
  }

  /** Decision.Validate: one pass over the results with the set of IDs seen so far. */
  method Validate(d: Decision) returns (ok: bool)
    ensures ok <==> ValidDecision(d)
  {
    hide RuleResultOk, FailureOk, EvaluatorOk, ReasonCodesOk, ExtensionsOk, IsName, IsDigest, ValidString, RuneCount;
    if d.apiVersion != DECISION_API_VERSION || d.kind != DECISION_KIND {
      return false;
    }
    if d.outcome.UnlistedVerdict? || !IsName(d.policyName) || !IsDigest(d.policyDigest) {
      return false;
    }
    if d.policyVersion != "" && (!ValidString(d.policyVersion) || RuneCount(d.policyVersion) > 128) {
      return false;
    }
    if |d.ruleResults| == 0 || |d.ruleResults| > MAX_RULES {
      return false;
    }
    var seen: set<string> := {};
    for i := 0 to |d.ruleResults|
      invariant forall id :: id in seen <==> exists k :: 0 <= k < i && d.ruleResults[k].ruleID == id
      invariant forall k :: 0 <= k < i ==> RuleResultOk(d.ruleResults[k])
      invariant forall k, l :: 0 <= k < l < i ==> d.ruleResults[k].ruleID != d.ruleResults[l].ruleID
    {
      var result := d.ruleResults[i];
      var resultOk := ValidateRuleResult(result);
      if !resultOk || result.ruleID in seen {
        return false;
      }
      seen := seen + {result.ruleID};
    }
    var codesOk := ValidateReasonCodes(d.reasonCodes);
    if !codesOk {
      return false;
    }
    if d.outcome.FailureVerdict? {
      if d.failure.None? {
        return false;
      }
      var failureOk := ValidateFailure(d.failure.value);
      if !failureOk || d.failure.value.code !in d.reasonCodes {
        return false;
      }
    } else if d.failure.Some? {
      return false;
    }
    if d.evaluator.Some? {
      var evaluatorOk := ValidateEvaluator(d.evaluator.value);
      if !evaluatorOk {
        return false;
      }
    }
    ok := ValidateExtensions(d.extensions);
  }

  // Reduction

  predicate AnyMatched(results: seq<RuleResult>, outcome: Outcome) {
    exists i :: 0 <= i < |results| && results[i].status.Matched? && results[i].outcome == Some(outcome)
  }

  predicate AnyStatus(results: seq<RuleResult>, status: RuleStatus) {
    exists i :: 0 <= i < |results| && results[i].status == status
  }

  function VerdictOf(o: Outcome): Verdict {
    match o
    case Allow => AllowVerdict
    case Review => ReviewVerdict
    case Deny => DenyVerdict
    case Unlisted(text) => UnlistedVerdict(text)
  }

  /** Each result is well-formed and answers its rule, a matched one with the rule's own outcome. */
  predicate Answers(rules: seq<Rule>, results: seq<RuleResult>) {
    && |results| == |rules|
    && forall i :: 0 <= i < |results| ==>
         && RuleResultOk(results[i])
         && results[i].ruleID == rules[i].id
         && (results[i].status.Matched? ==> results[i].outcome == Some(rules[i].outcome))
  }

  const UNRESOLVED := Failure(UnresolvedRule, Evaluation, false, "")

  /** decision.Reduce: six scans in order of precedence. */
  function Reduce(p: Policy, results: seq<RuleResult>): Option<Reduction> {
    if !ValidPolicy(p) || !Answers(p.rules, results) then None
    else if AnyMatched(results, Deny) then Some(Reduction(DenyVerdict, [DenyRuleMatched], None))
    else if AnyStatus(results, Failed) then Some(Reduction(FailureVerdict, [UnresolvedRule], Some(UNRESOLVED)))
    else if AnyStatus(results, Indeterminate) then Some(Reduction(ReviewVerdict, [IndeterminateRule], None))
    else if AnyMatched(results, Review) then Some(Reduction(ReviewVerdict, [ReviewRuleMatched], None))
    else if AnyMatched(results, Allow) then Some(Reduction(AllowVerdict, [AllowRuleMatched], None))
    else Some(Reduction(VerdictOf(p.defaultOutcome), [DefaultOutcome], None))
  }

  /** anyMatched. */
  method FindMatched(results: seq<RuleResult>, outcome: Outcome) returns (found: bool)
    ensures found <==> AnyMatched(results, outcome)
  {
    for i := 0 to |results|
      invariant forall k :: 0 <= k < i ==> !(results[k].status.Matched? && results[k].outcome == Some(outcome))
    {
      if results[i].status.Matched? && results[i].outcome == Some(outcome) {
        return true;
      }
    }
    return false;
  }

  /** anyStatus. */
  method FindStatus(results: seq<RuleResult>, status: RuleStatus) returns (found: bool)
    ensures found <==> AnyStatus(results, status)
  {
    for i := 0 to |results|
      invariant forall k :: 0 <= k < i ==> results[k].status != status
    {
      if results[i].status == status {
        return true;
      }
    }
    return false;
  }

  /** The first half of decision.Reduce: one valid result for each rule of a valid policy. */
  method CheckAnswers(p: Policy, results: seq<RuleResult>) returns (ok: bool)
    ensures ok <==> ValidPolicy(p) && Answers(p.rules, results)
  {
    hide ValidPolicy, RuleResultOk;
    ok := Policies.Validate(p);
    if !ok || |results| != |p.rules| {
      return false;
    }
    for i := 0 to |results|
      invariant forall k :: 0 <= k < i ==> RuleResultOk(results[k]) && results[k].ruleID == p.rules[k].id
      invariant forall k :: 0 <= k < i && results[k].status.Matched? ==> results[k].outcome == Some(p.rules[k].outcome)
    {
      var resultOk := ValidateRuleResult(results[i]);
      if !resultOk || results[i].ruleID != p.rules[i].id {
        return false;
      }
      if results[i].status.Matched? && results[i].outcome != Some(p.rules[i].outcome) {
        return false;
      }
    }
    return true;
  }

  /** decision.Reduce itself. */
  method ApplyPrecedence(p: Policy, results: seq<RuleResult>) returns (r: Option<Reduction>)
    ensures r == Reduce(p, results)
  {
    hide ValidPolicy, Answers, AnyMatched, AnyStatus;
    var found := CheckAnswers(p, results);
    if !found {
      return None;
    }
    found := FindMatched(results, Deny);
    if found {
      return Some(Reduction(DenyVerdict, [DenyRuleMatched], None));
    }
    found := FindStatus(results, Failed);
    if found {
      return Some(Reduction(FailureVerdict, [UnresolvedRule], Some(Failure(UnresolvedRule, Evaluation, false, ""))));
    }
    found := FindStatus(results, Indeterminate);
    if found {
      return Some(Reduction(ReviewVerdict, [IndeterminateRule], None));
    }
    found := FindMatched(results, Review);
    if found {
      return Some(Reduction(ReviewVerdict, [ReviewRuleMatched], None));
    }
    found := FindMatched(results, Allow);
    if found {
      return Some(Reduction(AllowVerdict, [AllowRuleMatched], None));
    }
    return Some(Reduction(VerdictOf(p.defaultOutcome), [DefaultOutcome], None));
  }

  // The same as one maximum

  /** The weight of one rule's evidence. */
  function Rank(r: RuleResult): nat {
    match r.status
    case Matched => if r.outcome == Some(Deny) then 5 else if r.outcome == Some(Review) then 2 else 1
    case Failed => 4
    case Indeterminate => 3
    case _ => 0
  }

  function MaxRank(results: seq<RuleResult>): (m: nat)
    ensures forall i :: 0 <= i < |results| ==> Rank(results[i]) <= m
    ensures m == 0 || exists i :: 0 <= i < |results| && Rank(results[i]) == m
  {
    if results == [] then 0
    else
      var m := MaxRank(results[1..]);
      assert forall i :: 1 <= i < |results| ==> results[i] == results[1..][i - 1];
      assert forall i :: 0 <= i < |results[1..]| ==> results[1..][i] == results[i + 1];
      if Rank(results[0]) >= m then Rank(results[0]) else m
  }

  function ReductionOf(rank: nat, default: Outcome): Reduction {
    match rank
    case 5 => Reduction(DenyVerdict, [DenyRuleMatched], None)
    case 4 => Reduction(FailureVerdict, [UnresolvedRule], Some(UNRESOLVED))
    case 3 => Reduction(ReviewVerdict, [IndeterminateRule], None)
    case 2 => Reduction(ReviewVerdict, [ReviewRuleMatched], None)
    case 1 => Reduction(AllowVerdict, [AllowRuleMatched], None)
    case _ => Reduction(VerdictOf(default), [DefaultOutcome], None)
  }

  /** What a policy with this default decides on these results, and the code it gives for it. */
  predicate Decides(default: Outcome, results: seq<RuleResult>, verdict: Verdict, code: Code) {
    if exists i :: 0 <= i < |results| && results[i].status.Matched? && results[i].outcome == Some(Deny) then
      verdict.DenyVerdict? && code.DenyRuleMatched?
    else if exists i :: 0 <= i < |results| && results[i].status.Failed? then
      verdict.FailureVerdict? && code.UnresolvedRule?
    else if exists i :: 0 <= i < |results| && results[i].status.Indeterminate? then
      verdict.ReviewVerdict? && code.IndeterminateRule?
    else if exists i :: 0 <= i < |results| && results[i].status.Matched? && results[i].outcome == Some(Review) then
      verdict.ReviewVerdict? && code.ReviewRuleMatched?
    else if exists i :: 0 <= i < |results| && results[i].status.Matched? && results[i].outcome == Some(Allow) then
      verdict.AllowVerdict? && code.AllowRuleMatched?
    else
      && code.DefaultOutcome? && (verdict.DenyVerdict? <==> default.Deny?)
      && (verdict.ReviewVerdict? <==> default.Review?) && (verdict.AllowVerdict? <==> default.Allow?)
  }

  /** The reduction says what the policy decides, with one code; an unresolved rule that decides is the failure. */
  lemma ReduceSays(p: Policy, results: seq<RuleResult>)
    requires Reduce(p, results).Some?
    ensures var r := Reduce(p, results).value;
      && |r.reasonCodes| == 1 && Decides(p.defaultOutcome, results, r.outcome, r.reasonCodes[0])
      && (if r.outcome.FailureVerdict? then r.failure == Some(Failure(UnresolvedRule, Evaluation, false, ""))
          else r.failure.None?)
  {
    hide RuleResultOk, IsName, BoundedText, RuleOk;
    assert AnyStatus(results, Failed) <==> exists i :: 0 <= i < |results| && results[i].status.Failed?;
    assert AnyStatus(results, Indeterminate) <==> exists i :: 0 <= i < |results| && results[i].status.Indeterminate?;
  }

  /** The six scans compute the reduction of the greatest rank. */
  lemma ReduceIsMaximum(p: Policy, results: seq<RuleResult>)
    requires Reduce(p, results).Some?
    ensures Reduce(p, results).value == ReductionOf(MaxRank(results), p.defaultOutcome)
  {
    hide ValidPolicy, RuleResultOk;
    var m := MaxRank(results);
    forall i | 0 <= i < |results| ensures results[i].status.Matched? ==> results[i].outcome in {Some(Allow), Some(Review), Some(Deny)}
    {
      MatchedIsListed(results[i]);
    }
    assert AnyMatched(results, Deny) <==> m == 5;
    assert m != 5 ==> (AnyStatus(results, Failed) <==> m == 4);
    assert m < 4 ==> (AnyStatus(results, Indeterminate) <==> m == 3);
    assert m < 3 ==> (AnyMatched(results, Review) <==> m == 2);
    assert m < 2 ==> (AnyMatched(results, Allow) <==> m == 1);
  }

  lemma MatchedIsListed(r: RuleResult)
    requires RuleResultOk(r)
    ensures r.status.Matched? ==> r.outcome in {Some(Allow), Some(Review), Some(Deny)}
  {
  }

  /** Raising the evidence of any rules can only raise the rank the reduction is made from. */
  lemma RankIsMonotone(lower: seq<RuleResult>, higher: seq<RuleResult>)
    requires |lower| == |higher|
    requires forall i :: 0 <= i < |lower| ==> Rank(lower[i]) <= Rank(higher[i])
    ensures MaxRank(lower) <= MaxRank(higher)
  {
  }

  ghost predicate IsPermutation(order: seq<nat>, n: nat) {
    && |order| == n
    && (forall i :: 0 <= i < n ==> order[i] < n)
    && (forall i, j :: 0 <= i < j < n ==> order[i] != order[j])
    && (forall k :: 0 <= k < n ==> k in order)
  }

  function Reorder<T>(s: seq<T>, order: seq<nat>): (t: seq<T>)
    requires |order| == |s| && forall i :: 0 <= i < |order| ==> order[i] < |s|
    ensures |t| == |s| && forall i :: 0 <= i < |s| ==> t[i] == s[order[i]]
  {
    seq(|s|, i requires 0 <= i < |s| => s[order[i]])
  }

  lemma SameRank(a: seq<RuleResult>, b: seq<RuleResult>)
    requires forall i :: 0 <= i < |a| ==> a[i] in b
    ensures MaxRank(a) <= MaxRank(b)
  {
    if MaxRank(a) > 0 {
      var i :| 0 <= i < |a| && Rank(a[i]) == MaxRank(a);
      assert a[i] in b;
    }
  }

  lemma ReorderedIsValid(p: Policy, order: seq<nat>)
    requires ValidPolicy(p) && IsPermutation(order, |p.rules|)
    ensures ValidPolicy(p.(rules := Reorder(p.rules, order)))
  {
    hide RuleOk;
    var rules := Reorder(p.rules, order);
    forall i, j | 0 <= i < j < |rules| ensures rules[i].id != rules[j].id {
      assert order[i] < order[j] || order[j] < order[i];
    }
  }

  lemma ReorderedRank(results: seq<RuleResult>, order: seq<nat>)
    requires IsPermutation(order, |results|)
    ensures MaxRank(Reorder(results, order)) == MaxRank(results)
  {
    hide MaxRank, Rank;
    var permuted := Reorder(results, order);
    forall k | 0 <= k < |results| ensures results[k] in permuted {
      assert k in order;
      var i :| 0 <= i < |order| && order[i] == k;
      assert permuted[i] == results[k];
    }
    SameRank(results, permuted);
    SameRank(permuted, results);
  }

  lemma ReduceAnswers(p: Policy, results: seq<RuleResult>)
    ensures Reduce(p, results).Some? <==> ValidPolicy(p) && Answers(p.rules, results)
  {
    hide ValidPolicy, Answers;
  }

  /** A reduction is made of one valid result for each rule of a valid policy, in order, and of nothing else. */
  lemma ReduceIsDefined(p: Policy, results: seq<RuleResult>)
    ensures Reduce(p, results).Some? <==>
            && ValidPolicy(p) && |results| == |p.rules|
            && forall i :: 0 <= i < |p.rules| ==>
                 && RuleResultOk(results[i]) && results[i].ruleID == p.rules[i].id
                 && (results[i].status.Matched? ==> results[i].outcome == Some(p.rules[i].outcome))
  {
    hide ValidPolicy, RuleResultOk;
  }

  /** Listing the rules in another order, each with its result, does not change the reduction. */
  lemma ReduceIgnoresOrder(p: Policy, results: seq<RuleResult>, order: seq<nat>)
    requires |results| == |p.rules| && IsPermutation(order, |p.rules|)
    requires Reduce(p, results).Some?
    ensures Reduce(p.(rules := Reorder(p.rules, order)), Reorder(results, order)) == Reduce(p, results)
  {
    hide ValidPolicy, RuleResultOk, MaxRank, Reduce;
    var q, permuted := p.(rules := Reorder(p.rules, order)), Reorder(results, order);
    ReduceIsDefined(p, results);
    ReorderedIsValid(p, order);
    assert Answers(q.rules, permuted);
    ReduceIsDefined(q, permuted);
    ReorderedRank(results, order);
    ReduceIsMaximum(p, results);
    ReduceIsMaximum(q, permuted);
  }

  // ValidateAgainst

  predicate Accepted(d: Decision, p: Policy, hash: string -> Sum) {
    && ValidDecision(d)
    && ValidPolicy(p)
    && d.policyName == p.name
    && d.policyDigest == Digest(p, hash)
    && (var reduction := Reduce(p, d.ruleResults);
        && reduction.Some?
        && d.outcome == reduction.value.outcome
        && forall i :: 0 <= i < |reduction.value.reasonCodes| ==> reduction.value.reasonCodes[i] in d.reasonCodes)
  }

  /**
   What ValidateAgainst accepts: a valid Decision that names this valid policy by name and digest, answers its rules,
   and carries what the policy decides on them, with its code among the Decision's own.
   */
  lemma AcceptedExactly(d: Decision, p: Policy, hash: string -> Sum)
    ensures Accepted(d, p, hash) <==>
            && ValidDecision(d) && ValidPolicy(p) && d.policyName == p.name && d.policyDigest == Digest(p, hash)
            && |d.ruleResults| == |p.rules|
            && (forall i :: 0 <= i < |p.rules| ==>
                  && d.ruleResults[i].ruleID == p.rules[i].id
                  && (d.ruleResults[i].status.Matched? ==> d.ruleResults[i].outcome == Some(p.rules[i].outcome)))
            && exists c :: c in d.reasonCodes && Decides(p.defaultOutcome, d.ruleResults, d.outcome, c)
  {
    hide Digest, Decides, RuleResultOk, RuleOk, Reduce, DistinctIDs, DistinctResults, ExtensionsOk, EvaluatorOk, FailureOk, VersionOk,
         IsName, IsDigest, ReasonCodesOk;
    ReduceIsDefined(p, d.ruleResults);
    if Reduce(p, d.ruleResults).Some? {
      ReduceSays(p, d.ruleResults);
      var r := Reduce(p, d.ruleResults).value;
      assert r.reasonCodes == [r.reasonCodes[0]];
      forall c | Decides(p.defaultOutcome, d.ruleResults, d.outcome, c) ensures d.outcome == r.outcome && c == r.reasonCodes[0] {
        OneVerdict(p.defaultOutcome, d.ruleResults, d.outcome, c, r.outcome, r.reasonCodes[0]);
      }
    }
  }

  lemma OneVerdict(default: Outcome, results: seq<RuleResult>, v: Verdict, c: Code, w: Verdict, e: Code)
    requires !default.Unlisted? && Decides(default, results, v, c) && Decides(default, results, w, e)
    ensures v == w && c == e
  {
  }

  /** Decision.ValidateAgainst. */
  method ValidateAgainst(d: Decision, p: Policy, hash: string -> Sum) returns (ok: bool)
    ensures ok <==> Accepted(d, p, hash)
  {
    hide ValidDecision, ValidPolicy, Digest, Reduce;
    ok := Validate(d);
    if !ok {
      return false;
    }
    ok := Policies.Validate(p);
    if !ok || d.policyName != p.name || d.policyDigest != Digest(p, hash) {
      return false;
    }
    var reduction := ApplyPrecedence(p, d.ruleResults);
    if reduction.None? || d.outcome != reduction.value.outcome {
      return false;
    }
    var codes := reduction.value.reasonCodes;
    for i := 0 to |codes|
      invariant forall k :: 0 <= k < i ==> codes[k] in d.reasonCodes
    {
      if codes[i] !in d.reasonCodes {
        return false;
      }
    }
    return true;
  }

  /** An accepted Decision carries the outcome and the reason code of its greatest evidence, for this very policy. */
  lemma AcceptedIsMaximum(d: Decision, p: Policy, hash: string -> Sum)
    requires Accepted(d, p, hash)
    ensures d.outcome == ReductionOf(MaxRank(d.ruleResults), p.defaultOutcome).outcome
    ensures forall c :: c in ReductionOf(MaxRank(d.ruleResults), p.defaultOutcome).reasonCodes ==> c in d.reasonCodes
    ensures exists c :: c in d.reasonCodes && Decides(p.defaultOutcome, d.ruleResults, d.outcome, c)
  {
    hide ValidPolicy, ValidDecision, Digest, MaxRank, Decides;
    ReduceIsMaximum(p, d.ruleResults);
    ReduceSays(p, d.ruleResults);
    assert Reduce(p, d.ruleResults).value.reasonCodes[0] in d.reasonCodes;
  }

  /** A Decision is accepted against one policy only, short of a hash collision. */
  lemma AcceptedIdentifiesPolicy(d: Decision, p: Policy, q: Policy, hash: string -> Sum)
    requires Accepted(d, p, hash) && Accepted(d, q, hash)
    ensures p == q || (CanonicalText(p) != CanonicalText(q) && hash(CanonicalText(p)) == hash(CanonicalText(q)))
  {
    DigestIdentifies(p, q, hash);
  }
}
