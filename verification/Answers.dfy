/** How the provider adapters turn unordered answers into evidence in request order (adapters/openai, adapters/systemone). */
module Answers {
  import opened Wrappers
  import opened Text
  import opened Codes
  import opened Decisions
  import opened Evaluations

  predicate DistinctTexts(texts: seq<string>) {
    forall i, j :: 0 <= i < j < |texts| ==> texts[i] != texts[j]
  }

  function QuestionIDs(rules: seq<Question>): (ids: seq<string>)
    ensures |ids| == |rules| && forall i :: 0 <= i < |rules| ==> ids[i] == rules[i].id
  {
    seq(|rules|, i requires 0 <= i < |rules| => rules[i].id)
  }

  function Elements(texts: seq<string>): set<string> {
    set t | t in texts
  }

  lemma {:induction false} DistinctCount(texts: seq<string>)
    requires DistinctTexts(texts)
    ensures |Elements(texts)| == |texts| && multiset(texts) == multiset(Elements(texts))
  {
    if texts != [] {
      var init, last := texts[..|texts| - 1], texts[|texts| - 1];
      assert texts == init + [last];
      DistinctCount(init);
      assert last !in init;
      assert Elements(texts) == Elements(init) + {last};
    }
  }

  lemma SameCountSubset(a: set<string>, b: set<string>)
    requires a <= b && |a| == |b|
    ensures a == b
  {
    assert b == a + (b - a);
  }

  // openai

  datatype Answer = Answer(ruleID: string, status: RuleStatus)

  function AnsweredIDs(answers: seq<Answer>): (ids: seq<string>)
    ensures |ids| == |answers| && forall i :: 0 <= i < |answers| ==> ids[i] == answers[i].ruleID
  {
    seq(|answers|, i requires 0 <= i < |answers| => answers[i].ruleID)
  }

  /** A model may match, not match or abstain; only the runner declares failure. */
  predicate Allowed(status: RuleStatus) {
    status.Matched? || status.NotMatched? || status.Indeterminate?
  }

  predicate AllAllowed(answers: seq<Answer>) {
    forall i :: 0 <= i < |answers| ==> Allowed(answers[i].status)
  }

  function StatusText(status: RuleStatus): string {
    match status
    case Matched => "matched"
    case NotMatched => "not_matched"
    case Indeterminate => "indeterminate"
    case Failed => "failed"
    case UnlistedStatus(text) => text
  }

  /** The codes of both adapters, spelled out. */
  lemma SpelledOut(status: RuleStatus)
    ensures status.Matched? ==>
              "openai." + StatusText(status) == "openai.matched" && "systemone." + StatusText(status) == "systemone.matched"
    ensures status.NotMatched? ==>
              "openai." + StatusText(status) == "openai.not_matched" && "systemone." + StatusText(status) == "systemone.not_matched"
    ensures status.Indeterminate? ==>
              "openai." + StatusText(status) == "openai.indeterminate" && "systemone." + StatusText(status) == "systemone.indeterminate"
  {
  }

  function OpenAIEvidence(rule: Question, status: RuleStatus): Evidence {
    Evidence(rule.id, status, None, [Other("openai." + StatusText(status))], "")
  }

  /** The answered IDs are the requested IDs in some order, each once. */
  predicate Permuted(answers: seq<Answer>, rules: seq<Question>) {
    multiset(AnsweredIDs(answers)) == multiset(QuestionIDs(rules))
  }

  predicate Indexed(byID: map<string, RuleStatus>, answers: seq<Answer>) {
    && byID.Keys == Elements(AnsweredIDs(answers))
    && forall i :: 0 <= i < |answers| ==> answers[i].ruleID in byID && byID[answers[i].ruleID] == answers[i].status
  }

  /** Evidence with the status a model gave this rule, without confidence or message, and with the one code of that status. */
  predicate Carries(e: Evidence, rule: Question, status: RuleStatus) {
    && e.ruleID == rule.id && e.status == status && e.confidence.None? && e.message == ""
    && (status.Matched? ==> e.reasonCodes == [Other("openai.matched")])
    && (status.NotMatched? ==> e.reasonCodes == [Other("openai.not_matched")])
    && (status.Indeterminate? ==> e.reasonCodes == [Other("openai.indeterminate")])
  }

  lemma OpenAICarries(rule: Question, status: RuleStatus)
    ensures Carries(OpenAIEvidence(rule, status), rule, status)
  {
    hide StatusText;
    SpelledOut(status);
  }

  /** Each rule carries the status its own answer gave. */
  predicate ReindexedAs(answers: seq<Answer>, rules: seq<Question>, evidence: seq<Evidence>) {
    && |evidence| == |rules|
    && forall i, j :: 0 <= i < |rules| && 0 <= j < |answers| && answers[j].ruleID == rules[i].id ==>
                        Carries(evidence[i], rules[i], answers[j].status)
  }

  /** The loops of parseResponse over decoded answers; the request was validated, so its rule IDs are distinct. */
  method Reindex(answers: seq<Answer>, rules: seq<Question>) returns (r: Option<seq<Evidence>>)
    requires DistinctTexts(QuestionIDs(rules))
    ensures r.Some? <==> (forall i :: 0 <= i < |answers| ==> answers[i].status in {Matched, NotMatched, Indeterminate})
                         && multiset(AnsweredIDs(answers)) == multiset(QuestionIDs(rules))
    ensures r.Some? ==> ReindexedAs(answers, rules, r.value)
  {
    AllowedExactly(answers, rules);
    hide OpenAIEvidence, Permuted, DistinctTexts, Elements, AllAllowed, Allowed, ReindexedAs, Indexed;
    var byID: map<string, RuleStatus> := map[];
    NothingIndexed(answers);
    for i := 0 to |answers|
      invariant AllAllowed(answers[..i]) && DistinctTexts(AnsweredIDs(answers[..i])) && Indexed(byID, answers[..i])
    {
      OneMoreAnswer(answers, i, byID);
      if !Allowed(answers[i].status) {
        return None;
      }
      if answers[i].ruleID in byID {
        RepeatIsNoPermutation(answers, i, rules);
        return None;
      }
      byID := byID[answers[i].ruleID := answers[i].status];
    }
    assert answers[..|answers|] == answers;
    PermutedWhenCovered(answers, rules, byID);
    if |byID| != |rules| {
      return None;
    }
    r := EmitInOrder(byID, rules);
    if r.Some? {
      EmittedIsReindexed(answers, rules, byID, r.value);
    }
  }

  lemma AllowedExactly(answers: seq<Answer>, rules: seq<Question>)
    ensures AllAllowed(answers) <==> forall i :: 0 <= i < |answers| ==> answers[i].status in {Matched, NotMatched, Indeterminate}
    ensures Permuted(answers, rules) <==> multiset(AnsweredIDs(answers)) == multiset(QuestionIDs(rules))
  {
  }

  method EmitInOrder(byID: map<string, RuleStatus>, rules: seq<Question>) returns (r: Option<seq<Evidence>>)
    ensures r.Some? <==> forall i :: 0 <= i < |rules| ==> rules[i].id in byID
    ensures r.Some? ==> |r.value| == |rules|
    ensures r.Some? ==> forall i :: 0 <= i < |rules| ==> r.value[i] == OpenAIEvidence(rules[i], byID[rules[i].id])
  {
    hide OpenAIEvidence;
    var results: seq<Evidence> := [];
    for i := 0 to |rules|
      invariant |results| == i && forall k :: 0 <= k < i ==> rules[k].id in byID
      invariant forall k :: 0 <= k < i ==> results[k] == OpenAIEvidence(rules[k], byID[rules[k].id])
    {
      if rules[i].id !in byID {
        return None;
      }
      results := results + [OpenAIEvidence(rules[i], byID[rules[i].id])];
    }
    return Some(results);
  }

  lemma NothingIndexed(answers: seq<Answer>)
    ensures AllAllowed(answers[..0]) && DistinctTexts(AnsweredIDs(answers[..0])) && Indexed(map[], answers[..0])
  {
  }

  lemma EmittedIsReindexed(answers: seq<Answer>, rules: seq<Question>, byID: map<string, RuleStatus>, evidence: seq<Evidence>)
    requires Indexed(byID, answers) && |evidence| == |rules|
    requires forall i :: 0 <= i < |rules| ==> rules[i].id in byID && evidence[i] == OpenAIEvidence(rules[i], byID[rules[i].id])
    ensures ReindexedAs(answers, rules, evidence)
  {
    hide OpenAIEvidence, Carries, Elements;
    forall i, j | 0 <= i < |rules| && 0 <= j < |answers| && answers[j].ruleID == rules[i].id
      ensures Carries(evidence[i], rules[i], answers[j].status)
    {
      OpenAICarries(rules[i], answers[j].status);
    }
  }

  /** One answer more in the index: allowed, not met before, and found under its own ID. */
  lemma OneMoreAnswer(answers: seq<Answer>, i: nat, byID: map<string, RuleStatus>)
    requires i < |answers| && Indexed(byID, answers[..i])
    ensures AllAllowed(answers) ==> Allowed(answers[i].status)
    ensures AllAllowed(answers[..i + 1]) <==> AllAllowed(answers[..i]) && Allowed(answers[i].status)
    ensures answers[i].ruleID in byID <==> answers[i].ruleID in AnsweredIDs(answers[..i])
    ensures DistinctTexts(AnsweredIDs(answers[..i])) && answers[i].ruleID !in byID ==>
              && DistinctTexts(AnsweredIDs(answers[..i + 1]))
              && Indexed(byID[answers[i].ruleID := answers[i].status], answers[..i + 1])
  {
    var before, after := AnsweredIDs(answers[..i]), AnsweredIDs(answers[..i + 1]);
    assert answers[..i + 1] == answers[..i] + [answers[i]];
    assert after == before + [answers[i].ruleID];
    assert forall t :: t in after <==> t in before || t == answers[i].ruleID;
  }

  /** Distinct texts have multiplicity one, so a repeated ID rules a permutation out. */
  lemma RepeatIsNoPermutation(answers: seq<Answer>, i: nat, rules: seq<Question>)
    requires i < |answers| && DistinctTexts(QuestionIDs(rules))
    requires answers[i].ruleID in AnsweredIDs(answers[..i])
    ensures !Permuted(answers, rules)
  {
    var ids, id := AnsweredIDs(answers), answers[i].ruleID;
    DistinctCount(QuestionIDs(rules));
    assert ids == AnsweredIDs(answers[..i]) + [id] + ids[i + 1..];
    assert multiset(ids)[id] >= 2;
  }

  /** With distinct IDs on both sides, counting and finding every rule is as good as a permutation. */
  lemma PermutedWhenCovered(answers: seq<Answer>, rules: seq<Question>, byID: map<string, RuleStatus>)
    requires DistinctTexts(QuestionIDs(rules)) && DistinctTexts(AnsweredIDs(answers)) && Indexed(byID, answers)
    ensures Permuted(answers, rules) <==>
            |byID| == |rules| && forall i :: 0 <= i < |rules| ==> rules[i].id in byID
  {
    PermutedSets(answers, rules);
    assert |byID.Keys| == |byID|;
    assert forall i :: 0 <= i < |rules| ==> QuestionIDs(rules)[i] == rules[i].id;
    hide Permuted, DistinctTexts;
  }

  lemma PermutedSets(answers: seq<Answer>, rules: seq<Question>)
    requires DistinctTexts(QuestionIDs(rules)) && DistinctTexts(AnsweredIDs(answers))
    ensures |Elements(AnsweredIDs(answers))| == |answers|
    ensures Permuted(answers, rules) <==>
            |answers| == |rules| && forall t :: t in QuestionIDs(rules) ==> t in Elements(AnsweredIDs(answers))
  {
    var asked, answered := QuestionIDs(rules), AnsweredIDs(answers);
    DistinctCount(asked);
    DistinctCount(answered);
    if |answers| == |rules| && forall t :: t in asked ==> t in Elements(answered) {
      SameCountSubset(Elements(asked), Elements(answered));
    }
    if Permuted(answers, rules) {
      assert |multiset(asked)| == |asked| && |multiset(answered)| == |answered|;
      forall t | t in asked ensures t in answered {
        assert multiset(asked)[t] > 0;
      }
    }
  }

  // systemone

  /** A member of an answer object, as far as decoding tells them apart. */
  datatype Field = Number(value: real) | Words(text: string) | Null | OtherField

  /** None when the raw answer is no object or repeats a key. */
  type RawAnswer = Option<map<string, Field>>

  predicate Probability(f: Field) {
    f.Number? && 0.0 <= f.value <= 1.0
  }

  function Bare(fields: map<string, Field>, allowConfidence: bool): map<string, Field> {
    if allowConfidence then fields - {"confidence"} else fields
  }

  /** A noul probability, and beside it nothing but, where the contract allows it, a confidence from 0 to 1. */
  predicate AnswerOk(raw: RawAnswer, allowConfidence: bool) {
    && raw.Some?
    && (allowConfidence && "confidence" in raw.value ==> Probability(raw.value["confidence"]))
    && var fields := Bare(raw.value, allowConfidence);
       && fields.Keys == {"type", "noul"} && fields["type"] == Words("noul") && Probability(fields["noul"])
  }

  function StatusOf(p: real): RuleStatus {
    if p > 0.5 then Matched else if p < 0.5 then NotMatched else Indeterminate
  }

  function Larger(a: real, b: real): real {
    if a < b then b else a
  }

  function SystemOneEvidence(rule: Question, p: real): Evidence {
    var status := StatusOf(p);
    Evidence(rule.id, status, Some(Larger(p, 1.0 - p)), [Other("systemone." + StatusText(status))], "")
  }

  /** Evidence of a probability: the likelier status with its own probability, no message, and the one code of that status. */
  predicate Weighs(e: Evidence, rule: Question, p: real) {
    && e.ruleID == rule.id && e.message == ""
    && e.confidence == Some(if p > 0.5 then p else 1.0 - p)
    && if p > 0.5 then e.status.Matched? && e.reasonCodes == [Other("systemone.matched")]
       else if p < 0.5 then e.status.NotMatched? && e.reasonCodes == [Other("systemone.not_matched")]
       else e.status.Indeterminate? && e.reasonCodes == [Other("systemone.indeterminate")]
  }

  lemma SystemOneWeighs(rule: Question, p: real)
    ensures Weighs(SystemOneEvidence(rule, p), rule, p)
  {
    hide StatusText;
    SpelledOut(StatusOf(p));
  }

  /** Each rule carries the evidence of the probability in its own answer. */
  predicate NormalisedAs(answers: map<string, RawAnswer>, rules: seq<Question>, evidence: seq<Evidence>, allowConfidence: bool) {
    && |evidence| == |rules|
    && forall i :: 0 <= i < |rules| ==>
                     && rules[i].id in answers && AnswerOk(answers[rules[i].id], allowConfidence)
                     && Weighs(evidence[i], rules[i], answers[rules[i].id].value["noul"].value)
  }

  function ProbabilityOf(raw: RawAnswer): real {
    if raw.Some? && "noul" in raw.value && raw.value["noul"].Number? then raw.value["noul"].value else 0.0
  }

  /** parseVersionedResponse once the answers object is decoded. */
  method Normalise(answers: map<string, RawAnswer>, rules: seq<Question>, allowConfidence: bool)
    returns (r: Option<seq<Evidence>>)
    requires DistinctTexts(QuestionIDs(rules))
    ensures r.Some? <==> answers.Keys == Elements(QuestionIDs(rules)) &&
                         forall id :: id in answers ==> AnswerOk(answers[id], allowConfidence)
    ensures r.Some? ==> NormalisedAs(answers, rules, r.value, allowConfidence)
  {
    hide SystemOneEvidence, AnswerOk, Weighs, NormalisedAs, ProbabilityOf;
    ghost var ids := QuestionIDs(rules);
    DistinctCount(ids);
    assert |answers.Keys| == |answers|;
    if |answers| != |rules| {
      return None;
    }
    var results: seq<Evidence> := [];
    for i := 0 to |rules|
      invariant |results| == i
      invariant forall k :: 0 <= k < i ==>
                              && rules[k].id in answers && AnswerOk(answers[rules[k].id], allowConfidence)
                              && Weighs(results[k], rules[k], ProbabilityOf(answers[rules[k].id]))
    {
      if rules[i].id !in answers {
        assert ids[i] in Elements(ids);
        return None;
      }
      var raw := answers[rules[i].id];
      var p := ReadAnswer(raw, allowConfidence);
      if p.None? {
        return None;
      }
      SystemOneWeighs(rules[i], p.value);
      results := results + [SystemOneEvidence(rules[i], p.value)];
    }
    forall t | t in Elements(ids) ensures t in answers {
      var i :| 0 <= i < |ids| && ids[i] == t;
    }
    SameCountSubset(Elements(ids), answers.Keys);
    forall id | id in answers ensures AnswerOk(answers[id], allowConfidence) {
      assert id in ids;
      var i :| 0 <= i < |ids| && ids[i] == id;
    }
    AllWeighed(answers, rules, results, allowConfidence);
    return Some(results);
  }

  lemma AllWeighed(answers: map<string, RawAnswer>, rules: seq<Question>, evidence: seq<Evidence>, allowConfidence: bool)
    requires |evidence| == |rules|
    requires forall i :: 0 <= i < |rules| ==>
               && rules[i].id in answers && AnswerOk(answers[rules[i].id], allowConfidence)
               && Weighs(evidence[i], rules[i], ProbabilityOf(answers[rules[i].id]))
    ensures NormalisedAs(answers, rules, evidence, allowConfidence)
  {
    hide Weighs;
  }

  method ReadAnswer(raw: RawAnswer, allowConfidence: bool) returns (p: Option<real>)
    ensures p.Some? <==> AnswerOk(raw, allowConfidence)
    ensures p.Some? ==> p.value == ProbabilityOf(raw)
  {
    if raw.None? {
      return None;
    }
    var answer := raw.value;
    if allowConfidence && "confidence" in answer {
      if !Probability(answer["confidence"]) {
        return None;
      }
      answer := answer - {"confidence"};
    }
    assert answer == Bare(raw.value, allowConfidence);
    if |answer| != 2 || "type" !in answer || answer["type"] != Words("noul") || "noul" !in answer || !answer["noul"].Number? {
      TwoKeys(answer);
      return None;
    }
    TwoKeys(answer);
    if answer["noul"].value < 0.0 || answer["noul"].value > 1.0 {
      return None;
    }
    return Some(answer["noul"].value);
  }

  lemma TwoKeys(answer: map<string, Field>)
    ensures |answer| == 2 && "type" in answer && "noul" in answer <==> answer.Keys == {"type", "noul"}
  {
    var two: set<string> := {"type", "noul"};
    assert "type"[0] != "noul"[0];
    assert |two| == 2 && |answer.Keys| == |answer|;
    if two <= answer.Keys && |answer| == 2 {
      SameCountSubset(two, answer.Keys);
    }
  }

  // What both hand to the runner

  /** The confidence is that of the stated status: at least a half, and a half only for an indeterminate rule. */
  lemma ConfidenceIsOfStatus(rule: Question, p: real)
    requires 0.0 <= p <= 1.0
    ensures var e := SystemOneEvidence(rule, p);
      && 0.5 <= e.confidence.value <= 1.0
      && (e.status.Matched? <==> p == e.confidence.value && p != 0.5)
      && (e.status.NotMatched? <==> 1.0 - p == e.confidence.value && p != 0.5)
      && (e.status.Indeterminate? <==> e.confidence.value == 0.5)
  {
    hide StatusText;
  }

  lemma EmittedCodes(status: RuleStatus)
    requires Allowed(status)
    ensures ReasonCodesOk([Other("openai." + StatusText(status))]) && ReasonCodesOk([Other("systemone." + StatusText(status))])
    ensures ValidString("") && RuneCount("") == 0
  {
  }

  lemma CarriedIsOk(e: Evidence, rule: Question, status: RuleStatus)
    requires Allowed(status) && Carries(e, rule, status)
    ensures EvidenceOk(e) && e.ruleID == rule.id
  {
    hide ReasonCodesOk, StatusText;
    EmittedCodes(status);
    SpelledOut(status);
  }

  lemma WeighedIsOk(e: Evidence, rule: Question, p: real)
    requires 0.0 <= p <= 1.0 && Weighs(e, rule, p)
    ensures EvidenceOk(e) && e.ruleID == rule.id
  {
    hide ReasonCodesOk, StatusText;
    EmittedCodes(e.status);
    SpelledOut(e.status);
  }

  /** Accepted openai answers pass the checks the runner makes on evidence: one per rule, in request order. */
  lemma ReindexedCovers(answers: seq<Answer>, rules: seq<Question>, evidence: seq<Evidence>)
    requires AllAllowed(answers) && Permuted(answers, rules) && ReindexedAs(answers, rules, evidence)
    ensures Covers(rules, evidence)
  {
    hide Carries, EvidenceOk;
    forall i | 0 <= i < |rules| ensures evidence[i].ruleID == rules[i].id && EvidenceOk(evidence[i]) {
      assert QuestionIDs(rules)[i] in multiset(QuestionIDs(rules));
      assert rules[i].id in AnsweredIDs(answers);
      var j :| 0 <= j < |answers| && AnsweredIDs(answers)[j] == rules[i].id;
      CarriedIsOk(evidence[i], rules[i], answers[j].status);
    }
  }

  /** So do accepted systemone answers. */
  lemma NormalisedCovers(answers: map<string, RawAnswer>, rules: seq<Question>, evidence: seq<Evidence>, allowConfidence: bool)
    requires NormalisedAs(answers, rules, evidence, allowConfidence)
    ensures Covers(rules, evidence)
  {
    hide Weighs, EvidenceOk;
    forall i | 0 <= i < |rules| ensures evidence[i].ruleID == rules[i].id && EvidenceOk(evidence[i]) {
      WeighedIsOk(evidence[i], rules[i], answers[rules[i].id].value["noul"].value);
    }
  }
}
