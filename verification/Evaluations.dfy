/** The boundary between the runner and its adapters (evaluator/evaluator.go, evaluator/validate.go). */
module Evaluations {
  import opened Wrappers
  import opened Text
  import opened Codes
  import opened Traces
  import opened Policies
  import opened Decisions
  import Trees

  /** A rule as adapters see it, without its outcome. */
  datatype Question = Question(id: string, when: string)

  const MAX_INPUT_BYTES := 1048576

  /** Go's zero time, in nanoseconds from 1970. */
  const ZERO_TIME := -62135596800000000000

  /** The bytes of an input: how many there are, and the value they are the JSON of, if any. */
  datatype Payload = Payload(size: nat, value: Option<Trees.Tree>)

  datatype Request = Request(policyName: string, policyDigest: string, input: Payload, rules: seq<Question>,
                             deadline: int, correlationID: string, profileDigest: string)

  /** evaluator.RuleResult. */
  datatype Evidence = Evidence(ruleID: string, status: RuleStatus, confidence: Option<real>,
                               reasonCodes: seq<Code>, message: string)

  datatype Metadata = Metadata(adapterID: string, adapterVersion: string, mode: Mode, synthetic: bool,
                               provider: string, model: string, modelRevision: string, requestID: string,
                               fixtureSet: string, fixtureVersion: string)

  datatype Result = Result(evidence: seq<Evidence>, metadata: Metadata, usage: Option<Usage>)

  /** An adapter's error: evaluator.Error, or any other error value. */
  datatype Fault = Fault(code: Code, retryable: bool, retryAfter: int) | OtherFault

  predicate QuestionsOk(rules: seq<Question>) {
    && 1 <= |rules| <= MAX_RULES
    && (forall i :: 0 <= i < |rules| ==> IsRuleID(rules[i].id) && NonBlankText(rules[i].when, MAX_CONDITION_LENGTH))
    && (forall i, j :: 0 <= i < j < |rules| ==> rules[i].id != rules[j].id)
  }

  /** A JSON object within the limit. */
  predicate PayloadOk(input: Payload) {
    1 <= input.size <= MAX_INPUT_BYTES && input.value.Some? && input.value.value.Object?
  }

  /** Request.Validate. */
  predicate RequestOk(r: Request) {
    && IsName(r.policyName) && IsDigest(r.policyDigest) && IsDigest(r.profileDigest)
    && PayloadOk(r.input)
    && QuestionsOk(r.rules)
    && r.deadline != ZERO_TIME
    && NonBlankText(r.correlationID, 128)
  }

  predicate EvidenceOk(e: Evidence) {
    && !e.status.UnlistedStatus?
    && ConfidenceOk(e.confidence)
    && ReasonCodesOk(e.reasonCodes)
    && ValidString(e.message) && RuneCount(e.message) <= MAX_MESSAGE_LENGTH
  }

  predicate MetadataOk(m: Metadata) {
    && NonBlankText(m.adapterID, 128)
    && EcmaText(m.adapterVersion, 128)
    && !m.mode.UnlistedMode?
    && (m.mode.DeterministicFixture? <==> m.synthetic)
    && (if m.mode.DeterministicFixture? then NonBlankText(m.fixtureSet, 64) && EcmaText(m.fixtureVersion, 128)
        else m.fixtureSet == "" && m.fixtureVersion == "")
    && (m.provider != "" ==> EcmaText(m.provider, 128))
    && (m.model != "" ==> EcmaText(m.model, 256))
    && (m.requestID != "" ==> NonBlankText(m.requestID, 128))
    && (m.modelRevision != "" ==> EcmaText(m.modelRevision, 256))
  }

  /** One piece of evidence per question, in order. */
  predicate Covers(rules: seq<Question>, evidence: seq<Evidence>) {
    && |evidence| == |rules|
    && forall i :: 0 <= i < |rules| ==> evidence[i].ruleID == rules[i].id && EvidenceOk(evidence[i])
  }

  /** ValidateResult. */
  predicate ResultOk(request: Request, result: Result) {
    RequestOk(request) && Covers(request.rules, result.evidence) && MetadataOk(result.metadata)
  }

  /** An empty or oversized input, one that is no JSON, and one that is JSON but no object are refused. */
  method ValidatePayload(input: Payload) returns (ok: bool)
    ensures ok <==> PayloadOk(input)
  {
    if input.size == 0 || input.size > MAX_INPUT_BYTES || input.value.None? {
      return false;
    }
    return input.value.value.Object?;
  }

  method ValidateRequest(r: Request) returns (ok: bool)
    ensures ok <==> RequestOk(r)
  {
    hide IsName, IsDigest, NonBlankText, IsRuleID;
    var payloadOk := ValidatePayload(r.input);
    if !IsName(r.policyName) || !IsDigest(r.policyDigest) || !IsDigest(r.profileDigest) || !payloadOk {
      return false;
    }
    if |r.rules| == 0 || |r.rules| > MAX_RULES {
      return false;
    }
    var seen: set<string> := {};
    for i := 0 to |r.rules|
      invariant forall id :: id in seen <==> exists k :: 0 <= k < i && r.rules[k].id == id
      invariant forall k :: 0 <= k < i ==> IsRuleID(r.rules[k].id) && NonBlankText(r.rules[k].when, MAX_CONDITION_LENGTH)
      invariant forall k, l :: 0 <= k < l < i ==> r.rules[k].id != r.rules[l].id
    {
      if !IsRuleID(r.rules[i].id) || r.rules[i].id in seen {
        return false;
      }
      seen := seen + {r.rules[i].id};
      if !NonBlankText(r.rules[i].when, MAX_CONDITION_LENGTH) {
        return false;
      }
    }
    return r.deadline != ZERO_TIME && NonBlankText(r.correlationID, 128);
  }

  /** The body of the loop over results, once the rule ID is right. */
  method ValidateEvidence(e: Evidence) returns (ok: bool)
    ensures ok <==> EvidenceOk(e)
  {
    hide ReasonCodesOk, ValidString, RuneCount;
    if e.status.UnlistedStatus? || (e.confidence.Some? && (e.confidence.value < 0.0 || e.confidence.value > 1.0)) {
      return false;
    }
    ok := ValidateReasonCodes(e.reasonCodes);
    return ok && ValidString(e.message) && RuneCount(e.message) <= MAX_MESSAGE_LENGTH;
  }

  /** The checks of the metadata, in order. */
  method ValidateMetadata(m: Metadata) returns (ok: bool)
    ensures ok <==> MetadataOk(m)
  {
    hide NonBlankText, EcmaText;
    if !NonBlankText(m.adapterID, 128) || !EcmaText(m.adapterVersion, 128) || m.mode.UnlistedMode? {
      return false;
    }
    if (m.mode.DeterministicFixture? && !m.synthetic) || (m.mode.Semantic? && m.synthetic) {
      return false;
    }
    if m.mode.DeterministicFixture? {
      if !NonBlankText(m.fixtureSet, 64) || !EcmaText(m.fixtureVersion, 128) {
        return false;
      }
    } else if m.fixtureSet != "" || m.fixtureVersion != "" {
      return false;
    }
    if m.provider != "" && !EcmaText(m.provider, 128) {
      return false;
    }
    if m.model != "" && !EcmaText(m.model, 256) {
      return false;
    }
    if m.requestID != "" && !NonBlankText(m.requestID, 128) {
      return false;
    }
    return m.modelRevision == "" || EcmaText(m.modelRevision, 256);
  }

  method ValidateResult(request: Request, result: Result) returns (ok: bool)
    ensures ok <==> ResultOk(request, result)
  {
    hide EvidenceOk, MetadataOk, RequestOk;
    ok := ValidateRequest(request);
    if !ok || |result.evidence| != |request.rules| {
      return false;
    }
    for i := 0 to |result.evidence|
      invariant forall k :: 0 <= k < i ==> result.evidence[k].ruleID == request.rules[k].id && EvidenceOk(result.evidence[k])
    {
      var evidenceOk := ValidateEvidence(result.evidence[i]);
      if result.evidence[i].ruleID != request.rules[i].id || !evidenceOk {
        return false;
      }
    }
    ok := ValidateMetadata(result.metadata);
  }
}
