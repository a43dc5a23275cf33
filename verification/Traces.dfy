/** What the runner records of its attempts (evaluator/runner/runner.go, usage.go), and publishes with a Decision. */
module Traces {
  import opened Wrappers
  import opened Codes

  datatype Leg = PrimaryLeg | EscalationLeg | FallbackLeg

  datatype Attempt = Attempt(evaluatorID: string, adapterID: string, adapterVersion: string, leg: Leg, attempt: nat,
                             ruleIndexes: seq<nat>, code: Code, latencyMS: int, provider: string,
                             requestedModel: string, requestedRevision: string,
                             resolvedModel: string, resolvedRevision: string, revisionAvailable: bool)

  datatype UsageStatus = Reported | Unavailable | Invalid | UnlistedUsage(text: string)

  datatype Usage = Usage(status: UsageStatus, inputTokens: Option<int>, outputTokens: Option<int>)

  datatype UsageAttempt = UsageAttempt(traceIndex: nat, adapterFailureCode: Option<Code>, usage: Usage)
}
