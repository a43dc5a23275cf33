/** A run that is decided: a one-rule policy under a fixture profile, so that what is proved of runs is proved of some. */
module Examples {
  import opened Wrappers
  import opened Text
  import opened Policies
  import opened Decisions
  import opened Evaluations
  import opened Profiles
  import opened Quoting
  import opened Canonical
  import opened CanonicalPolicy
  import opened Surroundings
  import opened Routes
  import opened Registries
  import opened Deciding
  import opened Acceptance

  lemma {:induction false} EscapedLength(s: string, i: nat)
    requires i <= |s|
    ensures |Escaped(s, i)| <= 6 * (|s| - i)
    decreases |s| - i
  {
    hide DecodeRune, EncodeRune;
    if i < |s| {
      DecodeThenEncode(s, i);
      EscapedLength(s, i + DecodeRune(s, i).size);
    }
  }

  function Weight(fields: seq<Field>): nat {
    if fields == [] then 0
    else 6 * |fields[0].key| + 4 + |Print(fields[0].value)| + Weight(fields[1..])
  }

  lemma {:induction false} FieldsWeigh(fields: seq<Field>)
    ensures |PrintFields(fields)| <= Weight(fields)
  {
    hide Escaped, Print;
    if fields != [] {
      EscapedLength(fields[0].key, 0);
      FieldsWeigh(fields[1..]);
      assert |Quote(fields[0].key)| == |Escaped(fields[0].key, 0)| + 2;
      assert |PrintField(fields[0])| == |Quote(fields[0].key)| + 1 + |Print(fields[0].value)|;
    }
  }

  lemma TextWeighs(text: string)
    ensures |Print(Str(text))| <= 6 * |text| + 2
  {
    hide Escaped;
    EscapedLength(text, 0);
  }

  lemma ObjectWeighs(fields: seq<Field>)
    ensures |Print(Obj(fields))| <= 2 + Weight(fields)
  {
    hide PrintFields, Weight;
    FieldsWeigh(fields);
  }

  const EXAMPLE_RULE := Rule("r", None, "w", Deny)
  const EXAMPLE_POLICY := Policy(API_VERSION, KIND, "p", None, Allow, [EXAMPLE_RULE])
  const EXAMPLE_ROUTING := Routing("e", None, Some([]), None, Confidence(false, None, None), "review", "failure")
  const EXAMPLE_TIMEOUT_MS := 1000
  const EXAMPLE_PROTOCOL := Component("p.q", "1")
  const EXAMPLE_INPUT := Payload(2, Some(Trees.Object([])))
  const EXAMPLE_REGISTRY: Registry :=
    map[Component(FIXTURE_ADAPTER, "1") := Installed(DeterministicFixture, EXAMPLE_PROTOCOL, ["c"], "1", None, true)]
  const EXAMPLE_PARAMETERS := [Trees.Member("fixtureSet", Trees.Scalar(Trees.Text("f"))),
                               Trees.Member("fixtureVersion", Trees.Scalar(Trees.Text("1")))]

  /** Its evaluator, for any timeout and retry policy. */
  function ExampleEntry(timeoutMS: int, retry: RetryPolicy): Entry {
    Entry("e", DeterministicFixture, FIXTURE_ADAPTER, "1", EXAMPLE_PROTOCOL, ["c"], timeoutMS, retry, None, None, None, None,
          None, Some(EXAMPLE_PARAMETERS))
  }

  function ExampleProfile(timeoutMS: int, retry: RetryPolicy): Profile {
    ProfileAround(ExampleEntry(timeoutMS, retry))
  }

  function ProfileAround(e: Entry): Profile {
    Profile(PROFILE_API_VERSION, PROFILE_KIND, "p", None, EXAMPLE_TIMEOUT_MS, Some([]), [e], EXAMPLE_ROUTING, true)
  }

  lemma ShortText(s: string)
    requires |s| == 1 && (IsLower(s[0]) || s[0] == '1')
    ensures NonBlankText(s, 128) && EcmaText(s, 128) && NonBlankText(s, MAX_CONDITION_LENGTH) && IsAscii(s)
  {
    AsciiTail(s, 0);
    assert DecodeRune(s, 0) == Rune(s[0] as int, 1);
  }

  lemma ExampleIsSmall()
    ensures |CanonicalText(EXAMPLE_POLICY)| <= MAX_SOURCE_BYTES
  {
    hide Print, Weight;
    var p := EXAMPLE_POLICY;
    var rule := RuleDoc(EXAMPLE_RULE);
    TextWeighs("r");
    TextWeighs("w");
    TextWeighs("p");
    TextWeighs(OutcomeText(Deny));
    TextWeighs(OutcomeText(Allow));
    TextWeighs(API_VERSION);
    TextWeighs(KIND);
    Weigh3(rule.fields[0], rule.fields[1], rule.fields[2]);
    assert rule.fields == [rule.fields[0], rule.fields[1], rule.fields[2]];
    ObjectWeighs(rule.fields);
    assert RuleDocs(p.rules) == [rule];
    OneItem(rule);
    Weigh1(MetadataFields(p)[0]);
    assert MetadataFields(p) == [MetadataFields(p)[0]];
    ObjectWeighs(MetadataFields(p));
    Weigh2(SpecFields(p)[0], SpecFields(p)[1]);
    ObjectWeighs(SpecFields(p));
    Weigh4(RootFields(p)[0], RootFields(p)[1], RootFields(p)[2], RootFields(p)[3]);
    ObjectWeighs(RootFields(p));
  }

  lemma OneItem(d: Doc)
    ensures |Print(Arr([d]))| == 2 + |Print(d)|
  {
    assert PrintItems([d]) == Print(d) + "";
  }

  function Heavy(f: Field): nat {
    6 * |f.key| + 4 + |Print(f.value)|
  }

  lemma Weigh1(a: Field)
    ensures Weight([a]) == Heavy(a)
  {
    hide Print;
    assert [a][1..] == [];
  }

  lemma Weigh2(a: Field, b: Field)
    ensures Weight([a, b]) == Heavy(a) + Heavy(b)
  {
    hide Print;
    assert [a, b][1..] == [b];
    Weigh1(b);
  }

  lemma Weigh3(a: Field, b: Field, c: Field)
    ensures Weight([a, b, c]) == Heavy(a) + Heavy(b) + Heavy(c)
  {
    hide Print;
    assert [a, b, c][1..] == [b, c];
    Weigh2(b, c);
  }

  lemma Weigh4(a: Field, b: Field, c: Field, d: Field)
    ensures Weight([a, b, c, d]) == Heavy(a) + Heavy(b) + Heavy(c) + Heavy(d)
  {
    hide Print;
    assert [a, b, c, d][1..] == [b, c, d];
    Weigh3(b, c, d);
  }

  lemma ExamplePolicyIsValid()
    ensures ValidPolicy(EXAMPLE_POLICY)
  {
    ShortText("w");
  }

  lemma ExampleProfileIsValid(timeoutMS: int, retry: RetryPolicy)
    requires 1 <= timeoutMS <= EXAMPLE_TIMEOUT_MS && RetryOk(retry)
    ensures ValidProfile(ExampleProfile(timeoutMS, retry))
    ensures Entries(ExampleProfile(timeoutMS, retry).evaluators) == map["e" := ExampleEntry(timeoutMS, retry)]
  {
    hide EntryOk, Entries, RoutingOk, IsName;
    var e := ExampleEntry(timeoutMS, retry);
    ExampleEntries(e);
    ExampleEntryIsOk(timeoutMS, retry);
    ExampleRouting(e);
    ExampleNames();
  }

  lemma ExampleRouting(e: Entry)
    requires e.id == "e"
    ensures RouteOf(EXAMPLE_ROUTING) == ["e"] && RoutingOk(EXAMPLE_ROUTING, map["e" := e])
  {
    assert RouteOf(EXAMPLE_ROUTING) == ["e"];
  }

  lemma ExampleEntryIsOk(timeoutMS: int, retry: RetryPolicy)
    requires 1 <= timeoutMS <= EXAMPLE_TIMEOUT_MS && RetryOk(retry)
    ensures EntryOk(ExampleEntry(timeoutMS, retry), ExampleProfile(timeoutMS, retry))
  {
    ShortText("1");
    FixtureIsNamespaced();
    ExampleParametersAreOk();
    ExampleNames();
    ExampleFixture(ExampleEntry(timeoutMS, retry));
    hide NonBlankText, IsNamespaced, RetryOk, ParametersOk, IsIdentifier, TextParameter, FixtureSet, FixtureVersion;
  }

  lemma ExampleNames()
    ensures IsName("p") && IsIdentifier("e", 63) && IsIdentifier("f", 63) && IdentifiersOk(["c"]) && IsNamespaced(EXAMPLE_PROTOCOL.id)
  {
    assert IsIdentifier("c", 63);
  }

  lemma ExampleFixture(e: Entry)
    requires e.parameters == Some(EXAMPLE_PARAMETERS)
    ensures FixtureSet(e) == "f" && FixtureVersion(e) == "1"
  {
    var named, version := EXAMPLE_PARAMETERS[0], EXAMPLE_PARAMETERS[1];
    assert EXAMPLE_PARAMETERS[..1] == [named];
    assert named.key[7] != version.key[7];
    assert TextParameter([named], "fixtureSet") == Some("f");
  }

  lemma ExampleParametersAreOk()
    ensures ParametersOk(Some(EXAMPLE_PARAMETERS))
  {
    AsciiTail("f", 0);
    AsciiTail("1", 0);
    var named, version := EXAMPLE_PARAMETERS[0], EXAMPLE_PARAMETERS[1];
    assert EXAMPLE_PARAMETERS[..1] == [named] && [named][..0] == [];
    assert named.key[7] != version.key[7];
    KeysAreText();
    FitsExample(named, version);
    assert ValueWalker.Sound(named.value) && ValueWalker.Sound(version.value);
    hide ValidString;
  }

  lemma KeysAreText()
    ensures ValidString(EXAMPLE_PARAMETERS[0].key) && ValidString(EXAMPLE_PARAMETERS[1].key)
  {
    hide IsAscii, ValidFrom, RuneCountFrom;
    KeyLetters();
    AsciiTail(EXAMPLE_PARAMETERS[0].key, 0);
    AsciiTail(EXAMPLE_PARAMETERS[1].key, 0);
  }

  lemma KeyLetters()
    ensures IsAscii(EXAMPLE_PARAMETERS[0].key) && IsAscii(EXAMPLE_PARAMETERS[1].key)
  {
  }

  lemma FitsExample(a: Trees.Member, b: Trees.Member)
    requires a.key != b.key && a.value.Scalar? && b.value.Scalar?
    ensures Trees.Fits(Trees.Object([a, b]), 0, 0)
  {
    assert [a, b][..1] == [a] && [a][..0] == [];
    assert Trees.NodesAmong([a]) == 2 && Trees.DepthAmong([a]) == 0;
    assert [a, b][1] == b && Trees.Depth(b.value) == 0 && Trees.Nodes(b.value) == 1;
    assert Trees.NodesAmong([a, b]) == 4 && Trees.DepthAmong([a, b]) == 0;
    assert Trees.KeysDiffer([a, b]);
  }

  lemma FixtureIsNamespaced()
    ensures IsNamespaced(FIXTURE_ADAPTER)
  {
    FixtureLetters();
    assert FIXTURE_ADAPTER[2] == '.' && FIXTURE_ADAPTER[10] == '.' && |FIXTURE_ADAPTER| == 18;
    hide IsLower;
  }

  lemma FixtureLetters()
    ensures forall i :: 0 <= i < |FIXTURE_ADAPTER| && i != 2 && i != 10 ==> IsLower(FIXTURE_ADAPTER[i])
  {
  }

  lemma ExampleEntries(e: Entry)
    requires e.id == "e"
    ensures Entries([e]) == map["e" := e]
  {
    assert [e][..0] == [];
  }

  /** The example, under the digest the hash gives its policy. */
  function Example(timeoutMS: int, retry: RetryPolicy, hash: string -> Sum): Input {
    Input(EXAMPLE_POLICY, "", ExampleProfile(timeoutMS, retry), "", Digest(EXAMPLE_POLICY, hash), EXAMPLE_INPUT, "c", None, map[],
          true, EXAMPLE_REGISTRY, Permission(false, true))
  }

  lemma ExampleIsAdmitted(timeoutMS: int, retry: RetryPolicy, now: int, hash: string -> Sum)
    requires 1 <= timeoutMS <= EXAMPLE_TIMEOUT_MS && RetryOk(retry) && now + EXAMPLE_TIMEOUT_MS * MILLISECOND != ZERO_TIME
    ensures var input := Example(timeoutMS, retry, hash); Admitted(input, PlanOf(input, now, hash))
  {
    hide ValidPolicy, ValidProfile, CanonicalText, Digest, RequestOk, Entries, MetadataOk, Taken, Along, Credentialed, RetryOk,
         Runnable, Readable;
    ExampleIsReadable(timeoutMS, retry, hash);
    ExampleNeedsNoCredentials(ExampleEntry(timeoutMS, retry));
    ExampleProfileIsValid(timeoutMS, retry);
    ExampleIsRunnable(timeoutMS, retry);
    ExampleRequestIsOk(timeoutMS, retry, now, hash);
    ExampleMetadataIsOk(timeoutMS, retry);
    assert RouteOf(EXAMPLE_ROUTING) == ["e"];
  }

  lemma ExampleIsReadable(timeoutMS: int, retry: RetryPolicy, hash: string -> Sum)
    requires 1 <= timeoutMS <= EXAMPLE_TIMEOUT_MS && RetryOk(retry)
    ensures Readable(Example(timeoutMS, retry, hash))
  {
    hide ValidPolicy, ValidProfile, CanonicalText, Digest;
    ExamplePolicyIsValid();
    ExampleProfileIsValid(timeoutMS, retry);
    ExampleIsSmall();
  }

  lemma ExampleIsRunnable(timeoutMS: int, retry: RetryPolicy)
    ensures Runnable(ExampleEntry(timeoutMS, retry), EXAMPLE_REGISTRY, Permission(false, true))
  {
    ExampleFixture(ExampleEntry(timeoutMS, retry));
    hide FixtureVersion;
  }

  lemma ExampleNeedsNoCredentials(e: Entry)
    requires e.id == "e" && e.credentialSlot.None?
    ensures Along(ProfileAround(e)) == [e] && Credentialed([e], map[])
  {
    hide Entries;
    ExampleEntries(e);
    assert RouteOf(EXAMPLE_ROUTING) == ["e"];
    assert ["e"][..0] == [];
    assert EntriesAlong(map["e" := e], ["e"]) == [e];
  }

  lemma ExampleRequestIsOk(timeoutMS: int, retry: RetryPolicy, now: int, hash: string -> Sum)
    requires now + EXAMPLE_TIMEOUT_MS * MILLISECOND != ZERO_TIME
    ensures RequestOk(PlanOf(Example(timeoutMS, retry, hash), now, hash).request)
  {
    hide Digest, IsDigest, CanonicalText, NonBlankText, Taken, Along;
    DigestIsWellFormed(EXAMPLE_POLICY, hash);
    ShortText("w");
    ShortText("c");
  }

  lemma ExampleMetadataIsOk(timeoutMS: int, retry: RetryPolicy)
    ensures MetadataOk(MetadataOf(ExampleEntry(timeoutMS, retry)))
  {
    hide NonBlankText, EcmaText, FixtureSet, FixtureVersion;
    ExampleFixture(ExampleEntry(timeoutMS, retry));
    ShortText("1");
    FixtureIsText();
    IdentifierIsText("f", 63);
  }

  lemma FixtureIsText()
    ensures NonBlankText(FIXTURE_ADAPTER, 128)
  {
    FixtureLetters();
    assert FIXTURE_ADAPTER[2] == '.' && FIXTURE_ADAPTER[10] == '.' && |FIXTURE_ADAPTER| == 18;
    IdentifierIsText(FIXTURE_ADAPTER, 127);
  }

  lemma ExamplePlan(timeoutMS: int, retry: RetryPolicy, now: int, hash: string -> Sum)
    ensures var p := PlanOf(Example(timeoutMS, retry, hash), now, hash);
      && p.request.deadline == now + EXAMPLE_TIMEOUT_MS * MILLISECOND
      && p.profile == Example(timeoutMS, retry, hash).profile == ExampleProfile(timeoutMS, retry)
  {
    hide Digest, Taken, Along, Questions;
  }

  /**
   Whatever its evaluator's timeout and retry policy, the example is decided in every world that is not cancelled at the
   start, does not stop the run before its first attempt and does not give it the zero time for a deadline, and in no
   other; so the theorems about runs speak of runs that exist.
   */
  lemma ExampleIsDecided(timeoutMS: int, retry: RetryPolicy, w: World, hash: string -> Sum)
    requires Calm(w) && 1 <= timeoutMS <= EXAMPLE_TIMEOUT_MS && RetryOk(retry)
    ensures var deadline := Tick(w).now + EXAMPLE_TIMEOUT_MS * MILLISECOND;
      Run(Example(timeoutMS, retry, hash), w, hash).Decided? <==>
      w.signal.Quiet? && Stopped(Tick(w), deadline).code.None? && deadline != ZERO_TIME
  {
    hide Admitted, Run, PlanOf, Example, Stopped, RetryOk, Tick, RequestOk;
    var input, now := Example(timeoutMS, retry, hash), Tick(w).now;
    ExamplePlan(timeoutMS, retry, now, hash);
    DecidedWhenAdmitted(input, w, hash);
    if now + EXAMPLE_TIMEOUT_MS * MILLISECOND != ZERO_TIME {
      ExampleIsAdmitted(timeoutMS, retry, now, hash);
    } else {
      ZeroIsRefused(input, PlanOf(input, now, hash));
    }
  }

  lemma ZeroIsRefused(input: Input, p: Plan)
    requires p.request.deadline == ZERO_TIME
    ensures !Admitted(input, p)
  {
    hide Readable, AllRunnable, Credentialed, Probes, LabelOk;
  }
}
