/** The policy artifact and its validation (policy/policy.go, policy/validate.go). */
module Policies {
  import opened Wrappers
  import opened Text

  const API_VERSION := "policy.antaeus.io/v0alpha1"
  const KIND := "Policy"
  const MAX_RULES := 256
  const MAX_DESCRIPTION_LENGTH := 4096
  const MAX_CONDITION_LENGTH := 16384

  /** A policy-authored outcome; `Unlisted` holds any other text. */
  datatype Outcome = Allow | Review | Deny | Unlisted(text: string)

  datatype Rule = Rule(id: string, description: Option<string>, when: string, outcome: Outcome)

  datatype Policy = Policy(apiVersion: string, kind: string, name: string, description: Option<string>,
                           defaultOutcome: Outcome, rules: seq<Rule>)

  predicate IsRuleID(s: string) {
    IsIdentifier(s, 63)
  }

  predicate BoundedText(s: string, maxRunes: nat) {
    ValidString(s) && RuneCount(s) <= maxRunes
  }

  predicate RuleOk(r: Rule) {
    && IsRuleID(r.id)
    && (r.description.Some? ==> BoundedText(r.description.value, MAX_DESCRIPTION_LENGTH))
    && NonBlankText(r.when, MAX_CONDITION_LENGTH)
    && !r.outcome.Unlisted?
  }

  predicate DistinctIDs(rules: seq<Rule>) {
    forall i, j :: 0 <= i < j < |rules| ==> rules[i].id != rules[j].id
  }

  predicate ValidPolicy(p: Policy) {
    && p.apiVersion == API_VERSION
    && p.kind == KIND
    && IsName(p.name)
    && (p.description.Some? ==> BoundedText(p.description.value, MAX_DESCRIPTION_LENGTH))
    && !p.defaultOutcome.Unlisted?
    && 1 <= |p.rules| <= MAX_RULES
    && (forall i :: 0 <= i < |p.rules| ==> RuleOk(p.rules[i]))
    && DistinctIDs(p.rules)
  }

  /** Artifact.Validate: one pass over the rules with the set of IDs seen so far. */
  method Validate(p: Policy) returns (ok: bool)
    ensures ok <==> ValidPolicy(p)
  {
    if p.apiVersion != API_VERSION || p.kind != KIND || !IsName(p.name) {
      return false;
    }
    if p.description.Some? && !BoundedText(p.description.value, MAX_DESCRIPTION_LENGTH) {
      return false;
    }
    if p.defaultOutcome.Unlisted? || |p.rules| == 0 || |p.rules| > MAX_RULES {
      return false;
    }
    var seen: set<string> := {};
    for i := 0 to |p.rules|
      invariant forall id :: id in seen <==> exists k :: 0 <= k < i && p.rules[k].id == id
      invariant forall k :: 0 <= k < i ==> RuleOk(p.rules[k])
      invariant DistinctIDs(p.rules[..i])
    {
      var rule := p.rules[i];
      if !IsRuleID(rule.id) || rule.id in seen {
        return false;
      }
      seen := seen + {rule.id};
      if rule.description.Some? && !BoundedText(rule.description.value, MAX_DESCRIPTION_LENGTH) {
        return false;
      }
      if !NonBlankText(rule.when, MAX_CONDITION_LENGTH) || rule.outcome.Unlisted? {
        return false;
      }
    }
    assert p.rules[..|p.rules|] == p.rules;
    return true;
  }
}
