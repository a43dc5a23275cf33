/** Evaluator profiles and their validation (evaluator/profile/profile.go, validate.go). */
module Profiles {
  import opened Wrappers
  import opened Text
  import opened Decisions
  import Trees
  import ValueWalker

  const PROFILE_API_VERSION := "evaluator.antaeus.io/v0alpha2"
  const PROFILE_KIND := "EvaluatorProfile"
  const MAX_PROFILE_DESCRIPTION := 4096
  const MAX_CREDENTIAL_SLOTS := 16
  const MAX_CAPABILITIES := 32
  const MAX_PARAMETERS := 32
  const MAX_EVALUATORS := 16
  const MAX_TOTAL_TIMEOUT_MS := 300000
  const MAX_ATTEMPT_TIMEOUT_MS := 120000
  const MAX_ATTEMPTS := 5
  const MAX_BACKOFF_MS := 60000
  const MAX_FALLBACKS := 15
  const FIXTURE_ADAPTER := "io.antaeus.fixture"
  const CONFIDENCE_SCORES := "confidence-scores"

  datatype Class = TimeoutClass | UnavailableClass | ThrottledClass | UnlistedClass(text: string)

  /** Lists that may be nil in Go are options here. */
  datatype RetryPolicy = RetryPolicy(maxAttempts: int, retryOn: Option<seq<Class>>, initialBackoffMS: Option<int>,
                                     maxBackoffMS: Option<int>, multiplier: Option<real>)

  /** The exact identity of an adapter or a protocol. */
  datatype Component = Component(id: string, version: string)

  datatype Template = Template(id: Option<string>, digest: string)

  /** One evaluator; its parameters are the members of a map, so without repeated keys. */
  datatype Entry = Entry(id: string, mode: Mode, adapterID: string, adapterVersion: string, protocol: Component,
                         capabilities: seq<string>, timeoutMS: int, retry: RetryPolicy, provider: Option<string>,
                         model: Option<string>, modelRevision: Option<string>, template: Option<Template>,
                         credentialSlot: Option<string>, parameters: Option<seq<Trees.Member>>)

  function AdapterOf(e: Entry): Component {
    Component(e.adapterID, e.adapterVersion)
  }

  /** A parameter that is a string, if there is one of that name. */
  function TextParameter(members: seq<Trees.Member>, key: string): Option<string> {
    if members == [] then None
    else
      var last := members[|members| - 1];
      if last.key == key then
        if last.value.Scalar? && last.value.leaf.Text? then Some(last.value.leaf.text) else None
      else TextParameter(members[..|members| - 1], key)
  }

  function FixtureSet(e: Entry): string {
    TextParameter(e.parameters.GetOr([]), "fixtureSet").GetOr("")
  }

  function FixtureVersion(e: Entry): string {
    TextParameter(e.parameters.GetOr([]), "fixtureVersion").GetOr("")
  }

  datatype LowConfidenceAction = BecomesIndeterminate | Escalates | UnlistedAction(text: string)

  datatype Confidence = Confidence(enabled: bool, minimumAccepted: Option<real>, onLowConfidence: Option<LowConfidenceAction>)

  datatype Routing = Routing(primary: string, escalation: Option<string>, fallbacks: Option<seq<string>>,
                             fallbackOn: Option<seq<Class>>, confidence: Confidence,
                             onIndeterminate: string, onFailure: string)

  /** `encodes` stands for the checks on the encoded profile: strict source and canonical size. */
  datatype Profile = Profile(apiVersion: string, kind: string, name: string, description: Option<string>, totalTimeoutMS: int,
                             slots: Option<seq<string>>, evaluators: seq<Entry>, routing: Routing, encodes: bool)

  /** localbinding.Key: a credential slot of an adapter. */
  datatype Key = Key(adapterID: string, slot: string)

  function KeyOf(e: Entry): Key
    requires e.credentialSlot.Some?
  {
    Key(e.adapterID, e.credentialSlot.value)
  }

  function Fallbacks(r: Routing): seq<string> {
    r.fallbacks.GetOr([])
  }

  function FallbackOn(r: Routing): seq<Class> {
    r.fallbackOn.GetOr([])
  }

  function RetryOn(r: RetryPolicy): seq<Class> {
    r.retryOn.GetOr([])
  }

  /** Every position of the route, in the order they can run. */
  function RouteOf(r: Routing): (route: seq<string>)
    ensures |route| == 1 + (if r.escalation.Some? then 1 else 0) + |Fallbacks(r)|
  {
    [r.primary] + (if r.escalation.Some? then [r.escalation.value] else []) + Fallbacks(r)
  }

  // Retry policies

  predicate ClassesOk(classes: seq<Class>) {
    && |classes| <= 3
    && (forall i :: 0 <= i < |classes| ==> !classes[i].UnlistedClass?)
    && (forall i, j :: 0 <= i < j < |classes| ==> classes[i] != classes[j])
  }

  predicate RetryOk(r: RetryPolicy) {
    && 1 <= r.maxAttempts <= MAX_ATTEMPTS
    && r.retryOn.Some? && ClassesOk(r.retryOn.value)
    && (if r.maxAttempts == 1 then
          r.retryOn.value == [] && r.initialBackoffMS.None? && r.maxBackoffMS.None? && r.multiplier.None?
        else
          && r.retryOn.value != [] && r.initialBackoffMS.Some? && r.maxBackoffMS.Some? && r.multiplier.Some?
          && 0 <= r.initialBackoffMS.value <= r.maxBackoffMS.value <= MAX_BACKOFF_MS
          && 1.0 <= r.multiplier.value <= 10.0)
  }

  /** The loop both class lists are checked with: listed classes, none repeated. */
  method ValidateClasses(classes: seq<Class>) returns (ok: bool)
    requires |classes| <= 3
    ensures ok <==> ClassesOk(classes)
  {
    var seen: set<Class> := {};
    for i := 0 to |classes|
      invariant forall c :: c in seen <==> exists k :: 0 <= k < i && classes[k] == c
      invariant forall k :: 0 <= k < i ==> !classes[k].UnlistedClass?
      invariant forall k, l :: 0 <= k < l < i ==> classes[k] != classes[l]
    {
      if classes[i].UnlistedClass? || classes[i] in seen {
        return false;
      }
      seen := seen + {classes[i]};
    }
    return true;
  }

  method ValidateRetry(r: RetryPolicy) returns (ok: bool)
    ensures ok <==> RetryOk(r)
  {
    if r.maxAttempts < 1 || r.maxAttempts > MAX_ATTEMPTS || r.retryOn.None? || |r.retryOn.value| > 3 {
      return false;
    }
    var classesOk := ValidateClasses(r.retryOn.value);
    if !classesOk {
      return false;
    }
    if r.maxAttempts == 1 {
      return |r.retryOn.value| == 0 && r.initialBackoffMS.None? && r.maxBackoffMS.None? && r.multiplier.None?;
    }
    if |r.retryOn.value| == 0 || r.initialBackoffMS.None? || r.maxBackoffMS.None? || r.multiplier.None? {
      return false;
    }
    var initial, maximum := r.initialBackoffMS.value, r.maxBackoffMS.value;
    if initial < 0 || initial > MAX_BACKOFF_MS || maximum < 0 || maximum > MAX_BACKOFF_MS || initial > maximum {
      return false;
    }
    return 1.0 <= r.multiplier.value <= 10.0;
  }

  // Routing

  predicate Distinct(route: seq<string>) {
    forall i, j :: 0 <= i < j < |route| ==> route[i] != route[j]
  }

  predicate ConfidenceRoutingOk(r: Routing, entries: map<string, Entry>) {
    if !r.confidence.enabled then
      r.confidence.minimumAccepted.None? && r.confidence.onLowConfidence.None? && r.escalation.None?
    else
      && r.confidence.minimumAccepted.Some? && 0.0 <= r.confidence.minimumAccepted.value <= 1.0
      && r.confidence.onLowConfidence.Some? && !r.confidence.onLowConfidence.value.UnlistedAction?
      && (r.confidence.onLowConfidence.value.Escalates? <==> r.escalation.Some?)
      && forall i :: 0 <= i < |RouteOf(r)| ==>
           RouteOf(r)[i] in entries && CONFIDENCE_SCORES in entries[RouteOf(r)[i]].capabilities
  }

  predicate PositionsOk(route: seq<string>, entries: map<string, Entry>) {
    (forall i :: 0 <= i < |route| ==> IsIdentifier(route[i], 63) && route[i] in entries) && Distinct(route)
  }

  predicate RoutingOk(r: Routing, entries: map<string, Entry>) {
    && r.fallbacks.Some? && |r.fallbacks.value| <= MAX_FALLBACKS
    && PositionsOk(RouteOf(r), entries)
    && (if r.fallbacks.value == [] then r.fallbackOn.None? else r.fallbackOn.Some? && r.fallbackOn.value != [])
    && ClassesOk(FallbackOn(r))
    && ConfidenceRoutingOk(r, entries)
    && r.onIndeterminate == "review" && r.onFailure == "failure"
  }

  /** addRoutePosition: the positions taken so far, extended by one more unless it is unknown or taken. */
  method AddRoutePosition(positions: map<string, nat>, entries: map<string, Entry>, id: string, position: nat)
    returns (ok: bool, extended: map<string, nat>)
    ensures ok <==> IsIdentifier(id, 63) && id in entries && id !in positions
    ensures extended == if ok then positions[id := position] else positions
  {
    if !IsIdentifier(id, 63) || id !in entries || id in positions {
      return false, positions;
    }
    return true, positions[id := position];
  }

  /** The route's positions in order: primary, escalation, fallbacks. */
  method AddRoutePositions(r: Routing, entries: map<string, Entry>) returns (ok: bool)
    requires r.fallbacks.Some?
    ensures ok <==> |r.fallbacks.value| <= MAX_FALLBACKS && PositionsOk(RouteOf(r), entries)
  {
    hide IsIdentifier;
    ghost var route := RouteOf(r);
    var positions: map<string, nat> := map[];
    var added: bool;
    assert route[0] == r.primary;
    added, positions := AddRoutePosition(positions, entries, r.primary, 0);
    if !added || |r.fallbacks.value| > MAX_FALLBACKS {
      return false;
    }
    var next := 1;
    if r.escalation.Some? {
      assert route[1] == r.escalation.value;
      added, positions := AddRoutePosition(positions, entries, r.escalation.value, 1);
      if !added {
        return false;
      }
      next := 2;
    }
    for i := 0 to |r.fallbacks.value|
      invariant forall id :: id in positions <==> exists k :: 0 <= k < next + i && route[k] == id
      invariant forall k :: 0 <= k < next + i ==> IsIdentifier(route[k], 63) && route[k] in entries
      invariant forall k, l :: 0 <= k < l < next + i ==> route[k] != route[l]
    {
      assert route[next + i] == r.fallbacks.value[i];
      added, positions := AddRoutePosition(positions, entries, r.fallbacks.value[i], next + i);
      if !added {
        return false;
      }
    }
    return true;
  }

  method ValidateRouting(r: Routing, entries: map<string, Entry>) returns (ok: bool)
    ensures ok <==> RoutingOk(r, entries)
  {
    hide IsIdentifier, Distinct, ConfidenceRoutingOk;
    if r.fallbacks.None? {
      return false;
    }
    var positionsOk := AddRoutePositions(r, entries);
    if !positionsOk {
      return false;
    }
    if |r.fallbacks.value| == 0 {
      if r.fallbackOn.Some? {
        return false;
      }
    } else if r.fallbackOn.None? || |r.fallbackOn.value| == 0 || |r.fallbackOn.value| > 3 {
      return false;
    }
    var classesOk := ValidateClasses(FallbackOn(r));
    if !classesOk {
      return false;
    }
    var confidenceOk := ValidateConfidence(r, entries);
    return confidenceOk && r.onIndeterminate == "review" && r.onFailure == "failure";
  }

  method ValidateConfidence(r: Routing, entries: map<string, Entry>) returns (ok: bool)
    requires forall i :: 0 <= i < |RouteOf(r)| ==> RouteOf(r)[i] in entries
    ensures ok <==> ConfidenceRoutingOk(r, entries)
  {
    var c := r.confidence;
    if !c.enabled {
      return c.minimumAccepted.None? && c.onLowConfidence.None? && r.escalation.None?;
    }
    if c.minimumAccepted.None? || c.minimumAccepted.value < 0.0 || c.minimumAccepted.value > 1.0 {
      return false;
    }
    if c.onLowConfidence.None? || c.onLowConfidence.value.UnlistedAction? {
      return false;
    }
    if c.onLowConfidence.value.Escalates? && r.escalation.None? {
      return false;
    }
    if !c.onLowConfidence.value.Escalates? && r.escalation.Some? {
      return false;
    }
    var routes := RouteOf(r);
    for i := 0 to |routes|
      invariant forall k :: 0 <= k < i ==> CONFIDENCE_SCORES in entries[routes[k]].capabilities
    {
      if CONFIDENCE_SCORES !in entries[routes[i]].capabilities {
        return false;
      }
    }
    return true;
  }

  // Profiles

  predicate FixtureOk(e: Entry) {
    if e.mode.DeterministicFixture? then
      && e.adapterID == FIXTURE_ADAPTER
      && e.provider.None? && e.model.None? && e.modelRevision.None? && e.template.None? && e.credentialSlot.None?
      && |e.parameters.GetOr([])| == 2
      && IsIdentifier(FixtureSet(e), 63) && NonBlankText(FixtureVersion(e), 128)
    else e.adapterID != FIXTURE_ADAPTER
  }

  predicate ComponentOk(c: Component) {
    IsNamespaced(c.id) && NonBlankText(c.version, 128)
  }

  /** ^[a-z0-9][a-z0-9._-]{0,127}$ */
  predicate IsProvider(s: string) {
    1 <= |s| <= 128 && IsAlnum(s[0]) && forall k :: 1 <= k < |s| ==> IsIdentifierTail(s[k])
  }

  predicate IsModelStart(c: char) {
    IsAlnum(c) || 'A' <= c <= 'Z'
  }

  /** ^[A-Za-z0-9][A-Za-z0-9._:/@+-]{0,255}$, and not a URL. */
  predicate IsModel(s: string) {
    && 1 <= |s| <= 256 && IsModelStart(s[0])
    && (forall k :: 1 <= k < |s| ==> IsModelStart(s[k]) || s[k] in "._:/@+-")
    && (forall k :: 0 <= k < |s| - 2 ==> !(s[k] == ':' && s[k + 1] == '/' && s[k + 2] == '/'))
  }

  predicate TemplateOk(t: Template) {
    (t.id.Some? ==> IsNamespaced(t.id.value)) && IsDigest(t.digest)
  }

  /** Local identifiers, none repeated. */
  predicate IdentifiersOk(names: seq<string>) {
    (forall i :: 0 <= i < |names| ==> IsIdentifier(names[i], 63)) && Distinct(names)
  }

  /** The loop over credential slots, and the one over capabilities. */
  method ValidateIdentifiers(names: seq<string>) returns (ok: bool)
    ensures ok <==> IdentifiersOk(names)
  {
    hide IsIdentifier;
    var seen: set<string> := {};
    for i := 0 to |names|
      invariant forall n :: n in seen <==> exists k :: 0 <= k < i && names[k] == n
      invariant forall k :: 0 <= k < i ==> IsIdentifier(names[k], 63)
      invariant forall k, l :: 0 <= k < l < i ==> names[k] != names[l]
    {
      if !IsIdentifier(names[i], 63) || names[i] in seen {
        return false;
      }
      seen := seen + {names[i]};
    }
    return true;
  }

  predicate ParametersOk(parameters: Option<seq<Trees.Member>>) {
    && parameters.Some? && |parameters.value| <= MAX_PARAMETERS
    && ValueWalker.AcceptsValue(Trees.Object(parameters.value), 0, 0)
  }

  predicate NamesOk(e: Entry) {
    && (e.provider.Some? ==> IsProvider(e.provider.value))
    && (e.model.Some? ==> IsModel(e.model.value)) && (e.modelRevision.Some? ==> IsModel(e.modelRevision.value))
    && (e.template.Some? ==> TemplateOk(e.template.value))
  }

  function Slots(p: Profile): seq<string> {
    p.slots.GetOr([])
  }

  predicate SlotsOk(p: Profile) {
    p.slots.Some? && |p.slots.value| <= MAX_CREDENTIAL_SLOTS && IdentifiersOk(p.slots.value)
  }

  predicate HeaderOk(p: Profile) {
    && p.apiVersion == PROFILE_API_VERSION && p.kind == PROFILE_KIND && IsName(p.name)
    && (p.description.Some? ==> NonBlankText(p.description.value, MAX_PROFILE_DESCRIPTION))
  }

  /** What validateEvaluator asks of one evaluator of the profile. */
  predicate EntryOk(e: Entry, p: Profile) {
    && IsIdentifier(e.id, 63)
    && !e.mode.UnlistedMode?
    && IsNamespaced(e.adapterID) && NonBlankText(e.adapterVersion, 128) && ComponentOk(e.protocol)
    && 1 <= |e.capabilities| <= MAX_CAPABILITIES && IdentifiersOk(e.capabilities)
    && 1 <= e.timeoutMS <= MAX_ATTEMPT_TIMEOUT_MS && e.timeoutMS <= p.totalTimeoutMS
    && RetryOk(e.retry)
    && NamesOk(e)
    && (e.credentialSlot.Some? ==> IsIdentifier(e.credentialSlot.value, 63) && e.credentialSlot.value in Slots(p))
    && ParametersOk(e.parameters)
    && FixtureOk(e)
  }

  /** The entries by ID, as the validator and the runner both collect them. */
  function Entries(evaluators: seq<Entry>): (m: map<string, Entry>)
    ensures forall id :: id in m ==> m[id] in evaluators && m[id].id == id
  {
    if evaluators == [] then map[]
    else
      var last := evaluators[|evaluators| - 1];
      Entries(evaluators[..|evaluators| - 1])[last.id := last]
  }

  predicate ValidProfile(p: Profile) {
    && HeaderOk(p)
    && 1 <= p.totalTimeoutMS <= MAX_TOTAL_TIMEOUT_MS
    && SlotsOk(p)
    && 1 <= |p.evaluators| <= MAX_EVALUATORS
    && (forall i :: 0 <= i < |p.evaluators| ==> EntryOk(p.evaluators[i], p))
    && (forall i, j :: 0 <= i < j < |p.evaluators| ==> p.evaluators[i].id != p.evaluators[j].id)
    && (forall i :: 0 <= i < |p.evaluators| ==> p.evaluators[i].mode == p.evaluators[0].mode)
    && RoutingOk(p.routing, Entries(p.evaluators))
    && p.encodes
  }

  lemma {:induction false} EntriesKeys(evaluators: seq<Entry>)
    ensures forall id :: id in Entries(evaluators) <==> exists k :: 0 <= k < |evaluators| && evaluators[k].id == id
  {
    if evaluators != [] {
      EntriesKeys(evaluators[..|evaluators| - 1]);
    }
  }

  lemma EntriesPrefix(evaluators: seq<Entry>, i: nat)
    requires i < |evaluators|
    ensures Entries(evaluators[..i + 1]) == Entries(evaluators[..i])[evaluators[i].id := evaluators[i]]
    ensures forall id :: id in Entries(evaluators[..i]) <==> exists k :: 0 <= k < i && evaluators[k].id == id
  {
    assert evaluators[..i + 1][..i] == evaluators[..i];
    EntriesKeys(evaluators[..i]);
    forall id | id in Entries(evaluators[..i]) ensures exists k :: 0 <= k < i && evaluators[k].id == id {
      var k :| 0 <= k < i && evaluators[..i][k].id == id;
      assert evaluators[k].id == id;
    }
    forall k | 0 <= k < i ensures evaluators[k].id in Entries(evaluators[..i]) {
      assert evaluators[..i][k].id == evaluators[k].id;
    }
  }

  /** validateComponent. */
  method ValidateComponent(id: string, version: string) returns (ok: bool)
    ensures ok <==> IsNamespaced(id) && NonBlankText(version, 128)
  {
    if !IsNamespaced(id) {
      return false;
    }
    return NonBlankText(version, 128);
  }

  /** The optional names of an evaluator, in order. */
  method ValidateNames(e: Entry) returns (ok: bool)
    ensures ok <==> NamesOk(e)
  {
    hide IsProvider, IsModel, IsNamespaced, IsDigest;
    if e.provider.Some? && !IsProvider(e.provider.value) {
      return false;
    }
    if (e.model.Some? && !IsModel(e.model.value)) || (e.modelRevision.Some? && !IsModel(e.modelRevision.value)) {
      return false;
    }
    if e.template.Some? {
      if e.template.value.id.Some? && !IsNamespaced(e.template.value.id.value) {
        return false;
      }
      return IsDigest(e.template.value.digest);
    }
    return true;
  }

  /** validateFixtureEvaluator for a fixture; otherwise only the fixture's adapter is refused. */
  method ValidateFixture(e: Entry) returns (ok: bool)
    ensures ok <==> FixtureOk(e)
  {
    hide IsIdentifier, NonBlankText;
    if !e.mode.DeterministicFixture? {
      return e.adapterID != FIXTURE_ADAPTER;
    }
    if e.adapterID != FIXTURE_ADAPTER || e.provider.Some? || e.model.Some? || e.modelRevision.Some? || e.template.Some? {
      return false;
    }
    if e.credentialSlot.Some? || |e.parameters.GetOr([])| != 2 {
      return false;
    }
    return IsIdentifier(FixtureSet(e), 63) && NonBlankText(FixtureVersion(e), 128);
  }

  /** The parameters of an evaluator: an object within its limits. */
  method ValidateParameterData(parameters: Option<seq<Trees.Member>>) returns (ok: bool)
    ensures ok <==> ParametersOk(parameters)
  {
    if parameters.None? || |parameters.value| > MAX_PARAMETERS {
      return false;
    }
    return ValueWalker.AcceptsValue(Trees.Object(parameters.value), 0, 0);
  }

  /** validateEvaluator. */
  method ValidateEntry(e: Entry, p: Profile) returns (ok: bool)
    ensures ok <==> EntryOk(e, p)
  {
    hide IsIdentifier, IsNamespaced, NonBlankText, RetryOk, NamesOk, ParametersOk, FixtureOk, IdentifiersOk;
    if !IsIdentifier(e.id, 63) || e.mode.UnlistedMode? {
      return false;
    }
    var adapterOk := ValidateComponent(e.adapterID, e.adapterVersion);
    var protocolOk := ValidateComponent(e.protocol.id, e.protocol.version);
    if !adapterOk || !protocolOk {
      return false;
    }
    if |e.capabilities| == 0 || |e.capabilities| > MAX_CAPABILITIES {
      return false;
    }
    var capabilitiesOk := ValidateIdentifiers(e.capabilities);
    if !capabilitiesOk || e.timeoutMS < 1 || e.timeoutMS > MAX_ATTEMPT_TIMEOUT_MS || e.timeoutMS > p.totalTimeoutMS {
      return false;
    }
    var retryOk := ValidateRetry(e.retry);
    var namesOk := ValidateNames(e);
    if !retryOk || !namesOk {
      return false;
    }
    if e.credentialSlot.Some? && (!IsIdentifier(e.credentialSlot.value, 63) || e.credentialSlot.value !in Slots(p)) {
      return false;
    }
    var parametersOk := ValidateParameterData(e.parameters);
    var fixtureOk := ValidateFixture(e);
    return parametersOk && fixtureOk;
  }

  /** What the pass over the evaluators has established of the first `n`. */
  ghost predicate Collected(p: Profile, n: nat)
    requires n <= |p.evaluators|
  {
    && (forall i :: 0 <= i < n ==> EntryOk(p.evaluators[i], p))
    && (forall i, j :: 0 <= i < j < n ==> p.evaluators[i].id != p.evaluators[j].id)
    && (forall i :: 0 <= i < n ==> p.evaluators[i].mode == p.evaluators[0].mode)
  }

  lemma ValidIsBounded(p: Profile)
    ensures ValidProfile(p) ==>
              HeaderOk(p) && SlotsOk(p)
              && 1 <= p.totalTimeoutMS <= MAX_TOTAL_TIMEOUT_MS && 1 <= |p.evaluators| <= MAX_EVALUATORS
  {
    hide EntryOk, Entries, RoutingOk, HeaderOk, SlotsOk;
  }

  lemma NoneCollected(p: Profile)
    ensures Collected(p, 0)
  {
  }

  lemma EntriesOfNone(evaluators: seq<Entry>)
    ensures Entries(evaluators[..0]) == map[]
  {
  }

  lemma OneMoreCollected(p: Profile, n: nat)
    requires n < |p.evaluators| && Collected(p, n)
    ensures Collected(p, n + 1) <==>
              && EntryOk(p.evaluators[n], p)
              && p.evaluators[n].id !in Entries(p.evaluators[..n])
              && p.evaluators[n].mode == p.evaluators[0].mode
  {
    hide EntryOk, Entries;
    EntriesPrefix(p.evaluators, n);
  }

  lemma AllCollected(p: Profile, n: nat)
    requires 1 <= p.totalTimeoutMS <= MAX_TOTAL_TIMEOUT_MS && 1 <= |p.evaluators| <= MAX_EVALUATORS && n <= |p.evaluators|
    requires HeaderOk(p) && SlotsOk(p)
    ensures Collected(p, |p.evaluators|) ==> (ValidProfile(p) <==> RoutingOk(p.routing, Entries(p.evaluators)) && p.encodes)
    ensures !Collected(p, n) ==> !ValidProfile(p)
  {
    hide EntryOk, Entries, RoutingOk, HeaderOk, SlotsOk;
  }

  /** The version, the kind and the metadata. */
  method ValidateHeader(p: Profile) returns (ok: bool)
    ensures ok <==> HeaderOk(p)
  {
    hide IsName, NonBlankText;
    if p.apiVersion != PROFILE_API_VERSION || p.kind != PROFILE_KIND || !IsName(p.name) {
      return false;
    }
    return p.description.None? || NonBlankText(p.description.value, MAX_PROFILE_DESCRIPTION);
  }

  /** Artifact.Validate: collects the entries by ID in one pass, then checks the routing over them. */
  method Validate(p: Profile) returns (ok: bool)
    ensures ok <==> ValidProfile(p)
  {
    hide EntryOk, RoutingOk, Entries, Collected, ValidProfile, HeaderOk, IdentifiersOk;
    ValidIsBounded(p);
    var headerOk := ValidateHeader(p);
    if !headerOk || p.totalTimeoutMS < 1 || p.totalTimeoutMS > MAX_TOTAL_TIMEOUT_MS {
      return false;
    }
    if p.slots.None? || |p.slots.value| > MAX_CREDENTIAL_SLOTS {
      return false;
    }
    var slotsOk := ValidateIdentifiers(p.slots.value);
    if !slotsOk || |p.evaluators| == 0 || |p.evaluators| > MAX_EVALUATORS {
      return false;
    }
    var entries: map<string, Entry> := map[];
    NoneCollected(p);
    EntriesOfNone(p.evaluators);
    for i := 0 to |p.evaluators|
      invariant entries == Entries(p.evaluators[..i]) && Collected(p, i)
    {
      var e := p.evaluators[i];
      EntriesPrefix(p.evaluators, i);
      OneMoreCollected(p, i);
      AllCollected(p, i + 1);
      var entryOk := ValidateEntry(e, p);
      if !entryOk || e.id in entries || e.mode != p.evaluators[0].mode {
        return false;
      }
      entries := entries[e.id := e];
    }
    assert p.evaluators[..|p.evaluators|] == p.evaluators;
    AllCollected(p, |p.evaluators|);
    var routingOk := ValidateRouting(p.routing, entries);
    return routingOk && p.encodes;
  }

  lemma {:induction false} EntriesAreFew(evaluators: seq<Entry>)
    ensures |Entries(evaluators)| <= |evaluators|
  {
    if evaluators != [] {
      var init := evaluators[..|evaluators| - 1];
      var last := evaluators[|evaluators| - 1];
      EntriesAreFew(init);
      assert Entries(evaluators).Keys == Entries(init).Keys + {last.id};
    }
  }

  lemma {:induction false} DistinctIsBounded(route: seq<string>, keys: set<string>)
    requires Distinct(route) && forall i :: 0 <= i < |route| ==> route[i] in keys
    ensures |route| <= |keys|
  {
    if route != [] {
      DistinctIsBounded(route[1..], keys - {route[0]});
    }
  }

  /** A route visits each evaluator at most once, so although 17 positions can be written it has at most 16. */
  lemma RouteIsBounded(p: Profile)
    requires ValidProfile(p)
    ensures |RouteOf(p.routing)| <= MAX_EVALUATORS
  {
    hide EntryOk, Entries, HeaderOk, SlotsOk, RouteOf, ConfidenceRoutingOk;
    EntriesAreFew(p.evaluators);
    DistinctIsBounded(RouteOf(p.routing), Entries(p.evaluators).Keys);
  }

  // Backoff, over real arithmetic

  function Power(base: real, n: nat): real {
    if n == 0 then 1.0 else base * Power(base, n - 1)
  }

  predicate Scheduled(r: RetryPolicy) {
    r.initialBackoffMS.Some? && r.maxBackoffMS.Some? && r.multiplier.Some?
  }

  function Grown(r: RetryPolicy, attempt: nat): real
    requires Scheduled(r) && attempt >= 1
  {
    r.initialBackoffMS.value as real * Power(r.multiplier.value, attempt - 1)
  }

  /** Conversion to an integer drops the fraction. */
  function Capped(cap: int, x: real): int {
    (if cap as real <= x then cap as real else x).Floor
  }

  /** The scheduled wait after a numbered attempt, in whole milliseconds. */
  function BackoffMS(r: RetryPolicy, attempt: nat): int
    requires Scheduled(r) && attempt >= 1
  {
    Capped(r.maxBackoffMS.value, Grown(r, attempt))
  }

  lemma {:induction false} PowerGrows(base: real, n: nat)
    requires base >= 1.0
    ensures 1.0 <= Power(base, n) <= Power(base, n + 1)
  {
    if n > 0 {
      PowerGrows(base, n - 1);
    }
  }

  lemma Scale(a: real, x: real, y: real)
    requires 0.0 <= a && 1.0 <= x <= y
    ensures a <= a * x <= a * y
  {
    assert 0.0 <= a * (x - 1.0) && 0.0 <= a * (y - x);
  }

  lemma GrownGrows(r: RetryPolicy, attempt: nat)
    requires Scheduled(r) && attempt >= 1 && r.initialBackoffMS.value >= 0 && r.multiplier.value >= 1.0
    ensures Grown(r, 1) == r.initialBackoffMS.value as real
    ensures r.initialBackoffMS.value as real <= Grown(r, attempt) <= Grown(r, attempt + 1)
  {
    var initial := r.initialBackoffMS.value as real;
    PowerGrows(r.multiplier.value, attempt - 1);
    Scale(initial, Power(r.multiplier.value, attempt - 1), Power(r.multiplier.value, attempt));
    assert Power(r.multiplier.value, 0) == 1.0;
    assert initial * 1.0 == initial;
  }

  lemma CappedGrows(low: int, cap: int, x: real, y: real)
    requires low <= cap && low as real <= x <= y
    ensures low <= Capped(cap, x) <= Capped(cap, y) <= cap
    ensures Capped(cap, low as real) == low
  {
  }

  /** The schedule starts at the initial backoff, never shrinks and never passes the cap. */
  lemma BackoffSchedule(r: RetryPolicy, attempt: nat)
    requires RetryOk(r) && r.maxAttempts > 1 && attempt >= 1
    ensures BackoffMS(r, 1) == r.initialBackoffMS.value
    ensures r.initialBackoffMS.value <= BackoffMS(r, attempt) <= BackoffMS(r, attempt + 1) <= r.maxBackoffMS.value
  {
    hide Grown, Capped;
    GrownGrows(r, attempt);
    CappedGrows(r.initialBackoffMS.value, r.maxBackoffMS.value, Grown(r, attempt), Grown(r, attempt + 1));
  }

  /** The unrounded waits, each the one before it times the multiplier. */
  ghost predicate Growing(r: RetryPolicy, waits: seq<real>)
    requires Scheduled(r)
  {
    && (waits != [] ==> waits[0] == r.initialBackoffMS.value as real)
    && forall k :: 1 <= k < |waits| ==> waits[k] == waits[k - 1] * r.multiplier.value
  }

  lemma {:induction false} GrownIsGrowing(r: RetryPolicy, waits: seq<real>, attempt: nat)
    requires Scheduled(r) && Growing(r, waits) && 1 <= attempt <= |waits|
    ensures Grown(r, attempt) == waits[attempt - 1]
  {
    var initial, m := r.initialBackoffMS.value as real, r.multiplier.value;
    if attempt == 1 {
      assert Power(m, 0) == 1.0;
    } else {
      GrownIsGrowing(r, waits, attempt - 1);
      Reassociate(initial, m, Power(m, attempt - 2));
    }
  }

  lemma Reassociate(a: real, b: real, c: real)
    ensures a * (b * c) == (a * c) * b
  {
  }

  /** The scheduled wait after attempt k is the k-th of the growing waits or the cap, whichever is less, in whole milliseconds. */
  lemma BackoffExactly(r: RetryPolicy, waits: seq<real>, attempt: nat)
    requires Scheduled(r) && Growing(r, waits) && 1 <= attempt <= |waits|
    ensures if waits[attempt - 1] < r.maxBackoffMS.value as real then
              BackoffMS(r, attempt) as real <= waits[attempt - 1] < (BackoffMS(r, attempt) + 1) as real
            else BackoffMS(r, attempt) == r.maxBackoffMS.value
  {
    hide Grown, Growing;
    GrownIsGrowing(r, waits, attempt);
  }

  /** Run's jitter: half of the base and a draw from what is left of it. */
  function DefaultJitter(base: int, draw: int): (d: int)
    requires 0 <= base && 0 <= draw <= base - base / 2
  {
    base / 2 + draw
  }

  /** The default jitter takes exactly the values from half of the base to all of it. */
  lemma JitterRange(base: int, delay: int)
    requires 0 <= base
    ensures base / 2 <= delay <= base <==>
            exists draw :: 0 <= draw <= base - base / 2 && delay == DefaultJitter(base, draw)
  {
    if base / 2 <= delay <= base {
      assert delay == DefaultJitter(base, delay - base / 2);
    }
  }
}
