/**
 Reason, failure and attempt codes. The codes the program itself compares or
 emits have constructors of their own; every other text is `Other`. Each text
 has one representation: `Other` stands only for texts without a constructor,
 here and wherever a listed set of texts leaves an unlisted rest.
 */
module Codes {
  import opened Text

  datatype Code =
    | EvaluatorTimeout  // evaluator.timeout
    | EvaluatorUnavailable  // evaluator.unavailable
    | EvaluatorThrottled  // evaluator.throttled
    | DeadlineExceeded  // evaluation.deadline_exceeded
    | Cancelled  // evaluation.cancelled
    | AttemptLimit  // evaluation.attempt_limit
    | AdapterFailed  // evaluation.adapter_failed
    | InvalidResult  // evaluation.invalid_result
    | Preflight  // evaluation.preflight
    | LowConfidence  // evaluation.low_confidence
    | UnresolvedRule  // evaluation.unresolved_rule
    | IndeterminateRule  // evaluation.indeterminate_rule
    | DenyRuleMatched  // policy.deny_rule_matched
    | ReviewRuleMatched  // policy.review_rule_matched
    | AllowRuleMatched  // policy.allow_rule_matched
    | DefaultOutcome  // policy.default_outcome
    | Succeeded  // evaluation.succeeded
    | Completed  // completed
    | Other(text: string)

  const MAX_REASON_CODES := 16

  /** ^[a-z][a-z0-9_.-]{0,127}$, met by every text with a constructor of its own. */
  predicate IsReasonCode(c: Code) {
    c.Other? ==> IsIdentifier(c.text, 127)
  }

  /** validateReasonCodes: 1 to 16 well-formed codes, none repeated. */
  predicate ReasonCodesOk(codes: seq<Code>) {
    && 1 <= |codes| <= MAX_REASON_CODES
    && (forall i :: 0 <= i < |codes| ==> IsReasonCode(codes[i]))
    && (forall i, j :: 0 <= i < j < |codes| ==> codes[i] != codes[j])
  }

  method ValidateReasonCodes(codes: seq<Code>) returns (ok: bool)
    ensures ok <==> ReasonCodesOk(codes)
  {
    if |codes| == 0 || |codes| > MAX_REASON_CODES {
      return false;
    }
    var seen: set<Code> := {};
    for i := 0 to |codes|
      invariant forall c :: c in seen <==> exists k :: 0 <= k < i && codes[k] == c
      invariant forall k :: 0 <= k < i ==> IsReasonCode(codes[k])
      invariant forall k, l :: 0 <= k < l < i ==> codes[k] != codes[l]
    {
      if !IsReasonCode(codes[i]) || codes[i] in seen {
        return false;
      }
      seen := seen + {codes[i]};
    }
    return true;
  }
}
