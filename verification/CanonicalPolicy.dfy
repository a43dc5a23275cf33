/** Artifact.CanonicalJSON, Digest and the way back (policy/canonical.go, policy/parse.go). */
module CanonicalPolicy {
  import opened Wrappers
  import opened Text
  import opened Policies
  import opened Quoting
  import opened Canonical

  const MAX_SOURCE_BYTES := 1048576

  function OutcomeText(o: Outcome): string {
    match o
    case Allow => "allow"
    case Review => "review"
    case Deny => "deny"
    case Unlisted(text) => text
  }

  // The policy as a JSON value, properties in the order they are written.

  function TextField(key: string, value: string): Field {
    Field(key, Str(value))
  }

  function Described(description: Option<string>): seq<Field> {
    if description.None? then [] else [TextField("description", description.value)]
  }

  function RuleDoc(r: Rule): Doc {
    Obj(Described(r.description)
        + [TextField("id", r.id), TextField("outcome", OutcomeText(r.outcome)), TextField("when", r.when)])
  }

  function RuleDocs(rules: seq<Rule>): (docs: seq<Doc>)
    ensures |docs| == |rules| && forall i :: 0 <= i < |rules| ==> docs[i] == RuleDoc(rules[i])
  {
    seq(|rules|, i requires 0 <= i < |rules| => RuleDoc(rules[i]))
  }

  function MetadataFields(p: Policy): seq<Field> {
    Described(p.description) + [TextField("name", p.name)]
  }

  function SpecFields(p: Policy): seq<Field> {
    [TextField("defaultOutcome", OutcomeText(p.defaultOutcome)), Field("rules", Arr(RuleDocs(p.rules)))]
  }

  function RootFields(p: Policy): seq<Field> {
    [TextField("apiVersion", p.apiVersion),
     TextField("kind", p.kind),
     Field("metadata", Obj(MetadataFields(p))),
     Field("spec", Obj(SpecFields(p)))]
  }

  function PolicyDoc(p: Policy): Doc {
    Obj(RootFields(p))
  }

  /** The canonical text of a policy. */
  function CanonicalText(p: Policy): string {
    Print(PolicyDoc(p))
  }

  // Section 3.2.3 of RFC 8785: the properties of every object in ascending order.
  // The keys here are ASCII, where UTF-16 code units and bytes order alike.

  predicate Before(a: string, b: string)
    decreases |a|
  {
    b != "" && (a == "" || a[0] < b[0] || (a[0] == b[0] && Before(a[1..], b[1..])))
  }

  ghost predicate KeysAscend(d: Doc) {
    match d
    case Str(_) => true
    case Arr(items) => forall i :: 0 <= i < |items| ==> KeysAscend(items[i])
    case Obj(fields) =>
      && (forall i :: 0 <= i < |fields| ==> KeysAscend(fields[i].value))
      && (forall i :: 1 <= i < |fields| ==> Before(fields[i - 1].key, fields[i].key))
  }

  lemma RuleKeysAscend(r: Rule)
    ensures KeysAscend(RuleDoc(r))
  {
  }

  lemma PolicyKeysAscend(p: Policy)
    ensures KeysAscend(PolicyDoc(p))
  {
    forall i | 0 <= i < |p.rules| ensures KeysAscend(RuleDocs(p.rules)[i]) {
      RuleKeysAscend(p.rules[i]);
    }
    assert KeysAscend(Arr(RuleDocs(p.rules)));
    assert Before("description", "name");
    var metadata := Described(p.description) + [TextField("name", p.name)];
    assert p.description.Some? ==> metadata == [TextField("description", p.description.value), TextField("name", p.name)];
    assert KeysAscend(Obj(metadata));
    assert Before("defaultOutcome", "rules");
    assert KeysAscend(Obj(SpecFields(p)));
  }

  // Decoding: members by name, unknown or repeated names and other kinds of values refused, absent texts empty.

  function OutcomeOf(text: string): Outcome {
    if text == "allow" then Allow
    else if text == "review" then Review
    else if text == "deny" then Deny
    else Unlisted(text)
  }

  predicate OnlyKeys(fields: seq<Field>, allowed: set<string>) {
    && (forall i :: 0 <= i < |fields| ==> fields[i].key in allowed)
    && (forall i, j :: 0 <= i < j < |fields| ==> fields[i].key != fields[j].key)
  }

  function Lookup(fields: seq<Field>, key: string): Option<Doc> {
    if fields == [] then None
    else if fields[0].key == key then Some(fields[0].value)
    else Lookup(fields[1..], key)
  }

  /** An absent text is empty; a value of another kind is an error. */
  function TextOf(fields: seq<Field>, key: string): Option<string> {
    var d := Lookup(fields, key);
    if d.None? then Some("") else if d.value.Str? then Some(d.value.text) else None
  }

  /** An absent description stays absent. */
  function DescriptionOf(fields: seq<Field>): Option<Option<string>> {
    var d := Lookup(fields, "description");
    if d.None? then Some(None) else if d.value.Str? then Some(Some(d.value.text)) else None
  }

  function FieldsOf(fields: seq<Field>, key: string): Option<seq<Field>> {
    var d := Lookup(fields, key);
    if d.None? then Some([]) else if d.value.Obj? then Some(d.value.fields) else None
  }

  function DecodeRule(d: Doc): Option<Rule> {
    if !d.Obj? || !OnlyKeys(d.fields, {"id", "description", "when", "outcome"}) then None
    else
      var id := TextOf(d.fields, "id");
      var description := DescriptionOf(d.fields);
      var when := TextOf(d.fields, "when");
      var outcome := TextOf(d.fields, "outcome");
      if id.None? || description.None? || when.None? || outcome.None? then None
      else Some(Rule(id.value, description.value, when.value, OutcomeOf(outcome.value)))
  }

  function DecodeRules(docs: seq<Doc>): Option<seq<Rule>> {
    if docs == [] then Some([])
    else
      var first := DecodeRule(docs[0]);
      var others := DecodeRules(docs[1..]);
      if first.None? || others.None? then None else Some([first.value] + others.value)
  }

  function DecodePolicy(d: Doc): Option<Policy> {
    if !d.Obj? || !OnlyKeys(d.fields, {"apiVersion", "kind", "metadata", "spec"}) then None
    else
      var apiVersion := TextOf(d.fields, "apiVersion");
      var kind := TextOf(d.fields, "kind");
      var metadata := FieldsOf(d.fields, "metadata");
      var spec := FieldsOf(d.fields, "spec");
      if apiVersion.None? || kind.None? || metadata.None? || spec.None? then None
      else if !OnlyKeys(metadata.value, {"name", "description"}) || !OnlyKeys(spec.value, {"defaultOutcome", "rules"}) then None
      else
        var name := TextOf(metadata.value, "name");
        var description := DescriptionOf(metadata.value);
        var outcome := TextOf(spec.value, "defaultOutcome");
        var rules := Lookup(spec.value, "rules");
        if name.None? || description.None? || outcome.None? || (rules.Some? && !rules.value.Arr?) then None
        else
          var decoded := DecodeRules(if rules.None? then [] else rules.value.items);
          if decoded.None? then None
          else Some(Policy(apiVersion.value, kind.value, name.value, description.value,
                           OutcomeOf(outcome.value), decoded.value))
  }

  lemma {:induction false} LookupFinds(fields: seq<Field>, i: nat)
    requires i < |fields| && forall j :: 0 <= j < i ==> fields[j].key != fields[i].key
    ensures Lookup(fields, fields[i].key) == Some(fields[i].value)
  {
    if i > 0 {
      LookupFinds(fields[1..], i - 1);
    }
  }

  lemma {:induction false} LookupMisses(fields: seq<Field>, key: string)
    requires forall j :: 0 <= j < |fields| ==> fields[j].key != key
    ensures Lookup(fields, key) == None
  {
    if fields != [] {
      LookupMisses(fields[1..], key);
    }
  }

  lemma DecodesDescription(description: Option<string>, others: seq<Field>)
    requires forall j :: 0 <= j < |others| ==> others[j].key != "description"
    ensures DescriptionOf(Described(description) + others) == Some(description)
  {
    var fields := Described(description) + others;
    if description.Some? {
      LookupFinds(fields, 0);
    } else {
      assert fields == others;
      LookupMisses(fields, "description");
    }
  }

  lemma DecodesRule(r: Rule)
    requires OutcomeOf(OutcomeText(r.outcome)) == r.outcome
    ensures DecodeRule(RuleDoc(r)) == Some(r)
  {
    var fields := RuleDoc(r).fields;
    var d := |Described(r.description)|;
    assert fields[d].key == "id" && fields[d + 1].key == "outcome" && fields[d + 2].key == "when";
    LookupFinds(fields, d);
    LookupFinds(fields, d + 1);
    LookupFinds(fields, d + 2);
    DecodesDescription(r.description,
      [TextField("id", r.id), TextField("outcome", OutcomeText(r.outcome)), TextField("when", r.when)]);
  }

  lemma {:induction false} DecodesRules(rules: seq<Rule>)
    requires forall i :: 0 <= i < |rules| ==> OutcomeOf(OutcomeText(rules[i].outcome)) == rules[i].outcome
    ensures DecodeRules(RuleDocs(rules)) == Some(rules)
  {
    hide DecodeRule, RuleDoc;
    if rules != [] {
      DecodesRule(rules[0]);
      DecodesRules(rules[1..]);
      assert RuleDocs(rules)[1..] == RuleDocs(rules[1..]);
      assert rules == [rules[0]] + rules[1..];
    }
  }

  lemma ListedOutcome(o: Outcome)
    requires !o.Unlisted?
    ensures OutcomeOf(OutcomeText(o)) == o
  {
  }

  lemma DecodesMetadata(p: Policy)
    ensures TextOf(MetadataFields(p), "name") == Some(p.name)
    ensures DescriptionOf(MetadataFields(p)) == Some(p.description)
    ensures OnlyKeys(MetadataFields(p), {"name", "description"})
  {
    LookupFinds(MetadataFields(p), |Described(p.description)|);
    DecodesDescription(p.description, [TextField("name", p.name)]);
  }

  lemma DecodesSpec(p: Policy)
    ensures TextOf(SpecFields(p), "defaultOutcome") == Some(OutcomeText(p.defaultOutcome))
    ensures Lookup(SpecFields(p), "rules") == Some(Arr(RuleDocs(p.rules)))
    ensures OnlyKeys(SpecFields(p), {"defaultOutcome", "rules"})
  {
    LookupFinds(SpecFields(p), 0);
    LookupFinds(SpecFields(p), 1);
  }

  lemma DecodesRoot(p: Policy)
    ensures TextOf(RootFields(p), "apiVersion") == Some(p.apiVersion)
    ensures TextOf(RootFields(p), "kind") == Some(p.kind)
    ensures FieldsOf(RootFields(p), "metadata") == Some(MetadataFields(p))
    ensures FieldsOf(RootFields(p), "spec") == Some(SpecFields(p))
    ensures OnlyKeys(RootFields(p), {"apiVersion", "kind", "metadata", "spec"})
  {
    hide MetadataFields, SpecFields;
    var fields := RootFields(p);
    LookupFinds(fields, 0);
    LookupFinds(fields, 1);
    LookupFinds(fields, 2);
    LookupFinds(fields, 3);
  }

  lemma DecodesPolicy(p: Policy)
    requires ValidPolicy(p)
    ensures DecodePolicy(PolicyDoc(p)) == Some(p)
  {
    DecodesRoot(p);
    DecodesMetadata(p);
    DecodesSpec(p);
    ListedOutcome(p.defaultOutcome);
    forall i | 0 <= i < |p.rules| ensures OutcomeOf(OutcomeText(p.rules[i].outcome)) == p.rules[i].outcome {
      assert RuleOk(p.rules[i]);
      ListedOutcome(p.rules[i].outcome);
    }
    DecodesRules(p.rules);
    hide RootFields, MetadataFields, SpecFields, TextOf, FieldsOf, DescriptionOf, Lookup, OnlyKeys, RuleOk, OutcomeText, OutcomeOf;
  }

  predicate SpelledAs(o: Outcome, text: Option<string>) {
    && (text == Some("allow") <==> o.Allow?) && (text == Some("review") <==> o.Review?) && (text == Some("deny") <==> o.Deny?)
  }

  lemma OutcomeIsSpelled(o: Outcome)
    requires !o.Unlisted?
    ensures SpelledAs(o, Some(OutcomeText(o)))
  {
  }

  /** The document of a valid policy spells its outcomes allow, review and deny. */
  lemma OutcomesAreSpelled(p: Policy)
    requires ValidPolicy(p)
    ensures SpelledAs(p.defaultOutcome, TextOf(SpecFields(p), "defaultOutcome"))
    ensures forall i :: 0 <= i < |p.rules| ==>
              RuleDoc(p.rules[i]).Obj? && SpelledAs(p.rules[i].outcome, TextOf(RuleDoc(p.rules[i]).fields, "outcome"))
  {
    hide SpelledAs, OutcomeText, RuleDoc, TextOf, SpecFields;
    DecodesSpec(p);
    OutcomeIsSpelled(p.defaultOutcome);
    forall i | 0 <= i < |p.rules|
      ensures RuleDoc(p.rules[i]).Obj? && SpelledAs(p.rules[i].outcome, TextOf(RuleDoc(p.rules[i]).fields, "outcome"))
    {
      assert RuleOk(p.rules[i]);
      RuleOutcome(p.rules[i]);
      OutcomeIsSpelled(p.rules[i].outcome);
    }
  }

  lemma RuleOutcome(r: Rule)
    ensures RuleDoc(r).Obj? && TextOf(RuleDoc(r).fields, "outcome") == Some(OutcomeText(r.outcome))
  {
    var fields := RuleDoc(r).fields;
    var d := |Described(r.description)|;
    assert fields[d].key == "id" && fields[d + 1].key == "outcome";
    LookupFinds(fields, d + 1);
  }

  // The texts of a valid policy are well-formed, so its canonical text reads back.

  lemma PlainIsValid(s: string)
    requires IsAscii(s)
    ensures ValidString(s)
  {
    AsciiTail(s, 0);
  }

  lemma OutcomeIsAscii(o: Outcome)
    requires !o.Unlisted?
    ensures IsAscii(OutcomeText(o))
  {
  }

  lemma ObjWellFormed(fields: seq<Field>)
    requires forall i :: 0 <= i < |fields| ==> IsAscii(fields[i].key) && WellFormed(fields[i].value)
    ensures WellFormed(Obj(fields))
  {
    forall i | 0 <= i < |fields| ensures ValidString(fields[i].key) {
      PlainIsValid(fields[i].key);
    }
  }

  lemma DescribedWellFormed(description: Option<string>)
    requires description.Some? ==> ValidString(description.value)
    ensures forall f :: f in Described(description) ==> IsAscii(f.key) && WellFormed(f.value)
  {
  }

  lemma AsciiFieldOk(key: string, value: string)
    requires IsAscii(key) && IsAscii(value)
    ensures WellFormed(TextField(key, value).value)
  {
    PlainIsValid(value);
  }

  lemma RuleDocWellFormed(r: Rule)
    requires RuleOk(r)
    ensures WellFormed(RuleDoc(r))
  {
    hide Escaped;
    OutcomeIsAscii(r.outcome);
    AsciiFieldOk("id", r.id);
    AsciiFieldOk("outcome", OutcomeText(r.outcome));
    DescribedWellFormed(r.description);
    ObjWellFormed(RuleDoc(r).fields);
  }

  lemma PolicyDocWellFormed(p: Policy)
    requires ValidPolicy(p)
    ensures WellFormed(PolicyDoc(p))
  {
    HeaderIsAscii(p);
    PlainIsValid(p.apiVersion);
    PlainIsValid(p.kind);
    MetadataWellFormed(p);
    SpecWellFormed(p);
    var fields := PolicyDoc(p).fields;
    RootKeysAscii(p);
    assert forall i :: 0 <= i < 4 ==> WellFormed(fields[i].value);
    ObjWellFormed(fields);
  }

  lemma HeaderIsAscii(p: Policy)
    requires ValidPolicy(p)
    ensures IsAscii(p.apiVersion) && IsAscii(p.kind)
  {
  }

  lemma RootKeysAscii(p: Policy)
    ensures |PolicyDoc(p).fields| == 4 && forall i :: 0 <= i < 4 ==> IsAscii(PolicyDoc(p).fields[i].key)
  {
  }

  lemma MetadataWellFormed(p: Policy)
    requires ValidPolicy(p)
    ensures WellFormed(PolicyDoc(p).fields[2].value)
  {
    hide Escaped;
    AsciiFieldOk("name", p.name);
    DescribedWellFormed(p.description);
    ObjWellFormed(Described(p.description) + [TextField("name", p.name)]);
  }

  lemma SpecWellFormed(p: Policy)
    requires ValidPolicy(p)
    ensures WellFormed(PolicyDoc(p).fields[3].value)
  {
    hide Escaped;
    OutcomeIsAscii(p.defaultOutcome);
    AsciiFieldOk("defaultOutcome", OutcomeText(p.defaultOutcome));
    forall i | 0 <= i < |p.rules| ensures WellFormed(RuleDocs(p.rules)[i]) {
      assert RuleOk(p.rules[i]);
      RuleDocWellFormed(p.rules[i]);
    }
    assert WellFormed(Arr(RuleDocs(p.rules)));
    ObjWellFormed([TextField("defaultOutcome", OutcomeText(p.defaultOutcome)), Field("rules", Arr(RuleDocs(p.rules)))]);
  }

  /** Reading the canonical text and decoding what was read. */
  function ReadPolicy(t: string): Option<Policy> {
    var d := ReadDoc(t);
    if d.None? || d.value.rest != "" then None else DecodePolicy(d.value.value)
  }

  /** Canonical text determines a valid policy: decoding gives it back, absent description and all. */
  lemma CanonicalRoundTrip(p: Policy)
    requires ValidPolicy(p)
    ensures ReadPolicy(CanonicalText(p)) == Some(p)
  {
    PolicyDocWellFormed(p);
    ReadPrinted(PolicyDoc(p), "");
    assert CanonicalText(p) + "" == CanonicalText(p);
    DecodesPolicy(p);
  }

  /** Two different valid policies never share canonical bytes. */
  lemma CanonicalIsInjective(p: Policy, q: Policy)
    requires ValidPolicy(p) && ValidPolicy(q)
    requires CanonicalText(p) == CanonicalText(q)
    ensures p == q
  {
    CanonicalRoundTrip(p);
    CanonicalRoundTrip(q);
  }

  // The encoder itself. It grows one buffer; the lemmas say how a printed list grows by one member.

  /** An object begun at `base`, ready for its next member. */
  ghost function Started(base: string, fields: seq<Field>): string {
    if fields == [] then base else base + PrintFields(fields) + ","
  }

  lemma {:induction false} FieldsGrow(base: string, fields: seq<Field>, f: Field)
    ensures base + PrintFields(fields + [f])
         == Started(base, fields) + PrintField(f)
    decreases |fields|
  {
    if fields == [] {
      assert fields + [f] == [f];
      assert PrintFields([f]) == PrintField(f) + "" == PrintField(f);
    } else {
      var tail := PrintFields(fields[1..] + [f]);
      assert (fields + [f])[1..] == fields[1..] + [f];
      assert PrintFields(fields + [f]) == PrintField(fields[0]) + ("," + tail);
      var head := base + PrintField(fields[0]) + ",";
      Associate(base, PrintField(fields[0]), ",", tail);
      Associate(PrintField(fields[0]), ",", tail, "");
      assert base + PrintFields(fields + [f]) == head + tail;
      FieldsGrow(head, fields[1..], f);
      if |fields| == 1 {
        assert PrintFields(fields) == PrintField(fields[0]) + "" == PrintField(fields[0]);
      } else {
        Associate(base, PrintField(fields[0]), ",", PrintFields(fields[1..]));
        Associate(PrintField(fields[0]), ",", PrintFields(fields[1..]), "");
      }
    }
  }

  lemma {:induction false} ItemsGrow(base: string, items: seq<Doc>, d: Doc)
    ensures base + PrintItems(items + [d])
         == (if items == [] then base else base + PrintItems(items) + ",") + Print(d)
    decreases |items|
  {
    if items == [] {
      assert items + [d] == [d];
      assert PrintItems([d]) == Print(d) + "" == Print(d);
    } else {
      var tail := PrintItems(items[1..] + [d]);
      assert (items + [d])[1..] == items[1..] + [d];
      assert PrintItems(items + [d]) == Print(items[0]) + ("," + tail);
      var head := base + Print(items[0]) + ",";
      Associate(base, Print(items[0]), ",", tail);
      Associate(Print(items[0]), ",", tail, "");
      assert base + PrintItems(items + [d]) == head + tail;
      ItemsGrow(head, items[1..], d);
      if |items| == 1 {
        assert PrintItems(items) == Print(items[0]) + "" == Print(items[0]);
      } else {
        Associate(base, Print(items[0]), ",", PrintItems(items[1..]));
        Associate(Print(items[0]), ",", PrintItems(items[1..]), "");
      }
    }
  }

  ghost predicate Plain(s: string) {
    forall k :: 0 <= k < |s| ==> 0x20 <= s[k] as int < 0x7F && s[k] != '\"' && s[k] != '\\'
  }

  lemma PlainRune(s: string, i: nat)
    requires Plain(s) && i < |s|
    ensures DecodeRune(s, i) == Rune(s[i] as int, 1) && EscapeRune(s[i] as int) == [s[i]]
  {
  }

  lemma {:induction false} PlainEscapes(s: string, i: nat)
    requires Plain(s) && i <= |s|
    ensures Escaped(s, i) == s[i..]
    decreases |s| - i
  {
    hide DecodeRune, EscapeRune, EncodeRune;
    if i < |s| {
      PlainEscapes(s, i + 1);
      PlainRune(s, i);
      assert s[i..] == [s[i]] + s[i + 1..];
    }
  }

  /** A quoted property name and a colon. */
  method AppendKey(dst: string, key: string) returns (out: string)
    requires Plain(key)
    ensures out == dst + (Quote(key) + ":")
  {
    PlainEscapes(key, 0);
    out := dst + "\"" + key + "\":";
  }

  /** One text member of the object begun at `base`. */
  method AppendText(dst: string, key: string, value: string, ghost base: string, ghost fields: seq<Field>)
    returns (out: string)
    requires Plain(key)
    requires dst == Started(base, fields)
    ensures out == base + PrintFields(fields + [TextField(key, value)])
  {
    hide Escaped;
    out := AppendKey(dst, key);
    out := AppendString(out, value);
    Associate(dst, Quote(key) + ":", Quote(value), "");
    FieldsGrow(base, fields, TextField(key, value));
  }

  /** An optional description and the comma after it, at the start of an object. */
  method AppendDescription(dst: string, description: Option<string>) returns (out: string)
    ensures out == Started(dst, Described(description))
  {
    hide Escaped;
    out := dst;
    if description.Some? {
      out := AppendText(out, "description", description.value, dst, []);
      assert [] + [TextField("description", description.value)] == Described(description);
      out := out + ",";
    }
  }

  lemma Close(dst: string, fields: seq<Field>)
    ensures dst + "{" + PrintFields(fields) + "}" == dst + Print(Obj(fields))
  {
    Associate(dst, "{", PrintFields(fields), "}");
    Associate("{", PrintFields(fields), "}", "");
  }

  /** One iteration of the loop over the rules. */
  method AppendRule(dst: string, r: Rule) returns (out: string)
    ensures out == dst + Print(RuleDoc(r))
  {
    hide Escaped;
    ghost var open := dst + "{";
    ghost var f0 := Described(r.description);
    ghost var f1 := f0 + [TextField("id", r.id)];
    ghost var f2 := f1 + [TextField("outcome", OutcomeText(r.outcome))];
    ghost var f3 := f2 + [TextField("when", r.when)];
    out := dst + "{";
    out := AppendDescription(out, r.description);
    out := AppendText(out, "id", r.id, open, f0);
    out := out + ",";
    out := AppendText(out, "outcome", OutcomeText(r.outcome), open, f1);
    out := out + ",";
    out := AppendText(out, "when", r.when, open, f2);
    out := out + "}";
    assert f3 == RuleDoc(r).fields;
    Close(dst, f3);
  }

  /** The rules in order, with commas between them. */
  method AppendRules(dst: string, rules: seq<Rule>) returns (out: string)
    ensures out == dst + PrintItems(RuleDocs(rules))
  {
    out := dst;
    ghost var docs := RuleDocs(rules);
    for i := 0 to |rules|
      invariant out == dst + PrintItems(docs[..i])
    {
      ItemsGrow(dst, docs[..i], docs[i]);
      assert docs[..i] + [docs[i]] == docs[..i + 1];
      if i > 0 {
        out := out + ",";
      }
      out := AppendRule(out, rules[i]);
    }
    assert docs[..|rules|] == docs;
  }

  /** Artifact.CanonicalJSON: an error for an invalid policy, its canonical text otherwise. */
  method CanonicalJSON(p: Policy) returns (json: Option<string>)
    ensures json == if ValidPolicy(p) then Some(CanonicalText(p)) else None
  {
    hide Escaped;
    var valid := Validate(p);
    if !valid {
      return None;
    }
    var dst := "{";
    dst := AppendText(dst, "apiVersion", p.apiVersion, "{", []);
    dst := dst + ",";
    dst := AppendText(dst, "kind", p.kind, "{", RootFields(p)[..1]);
    dst := dst + ",";
    assert dst == Started("{", RootFields(p)[..2]) by {
      assert [] + [RootFields(p)[0]] == RootFields(p)[..1];
      assert RootFields(p)[..1] + [RootFields(p)[1]] == RootFields(p)[..2];
    }
    dst := AppendMetadata(dst, p, "{", RootFields(p)[..2]);
    dst := dst + ",";
    assert RootFields(p)[..2] + [RootFields(p)[2]] == RootFields(p)[..3];
    dst := AppendSpec(dst, p, "{", RootFields(p)[..3]);
    assert RootFields(p)[..3] + [RootFields(p)[3]] == RootFields(p);
    dst := dst + "}";
    Associate("{", PrintFields(RootFields(p)), "}", "");
    return Some(dst);
  }

  lemma MemberGrows(dst: string, key: string, value: Doc, base: string, fields: seq<Field>)
    requires dst == Started(base, fields)
    ensures dst + (Quote(key) + ":") + Print(value) == base + PrintFields(fields + [Field(key, value)])
  {
    hide Escaped;
    Associate(dst, Quote(key) + ":", Print(value), "");
    FieldsGrow(base, fields, Field(key, value));
  }

  /** The member "metadata" of the object begun at `base`. */
  method AppendMetadata(dst: string, p: Policy, ghost base: string, ghost fields: seq<Field>) returns (out: string)
    requires dst == Started(base, fields)
    ensures out == base + PrintFields(fields + [Field("metadata", Obj(MetadataFields(p)))])
  {
    hide Escaped;
    out := AppendKey(dst, "metadata");
    ghost var key := out;
    out := out + "{";
    out := AppendDescription(out, p.description);
    out := AppendText(out, "name", p.name, key + "{", Described(p.description));
    out := out + "}";
    Close(key, MetadataFields(p));
    MemberGrows(dst, "metadata", Obj(MetadataFields(p)), base, fields);
  }

  /** The member "rules" of the object begun at `base`. */
  method AppendRulesMember(dst: string, rules: seq<Rule>, ghost base: string, ghost fields: seq<Field>)
    returns (out: string)
    requires dst == Started(base, fields)
    ensures out == base + PrintFields(fields + [Field("rules", Arr(RuleDocs(rules)))])
  {
    hide Escaped;
    out := AppendKey(dst, "rules");
    ghost var key := out;
    out := out + "[";
    out := AppendRules(out, rules);
    out := out + "]";
    Associate(key, "[", PrintItems(RuleDocs(rules)), "]");
    Associate("[", PrintItems(RuleDocs(rules)), "]", "");
    MemberGrows(dst, "rules", Arr(RuleDocs(rules)), base, fields);
  }

  /** The member "spec" of the object begun at `base`. */
  method AppendSpec(dst: string, p: Policy, ghost base: string, ghost fields: seq<Field>) returns (out: string)
    requires dst == Started(base, fields)
    ensures out == base + PrintFields(fields + [Field("spec", Obj(SpecFields(p)))])
  {
    hide Escaped;
    out := AppendKey(dst, "spec");
    ghost var key := out;
    out := out + "{";
    out := AppendText(out, "defaultOutcome", OutcomeText(p.defaultOutcome), key + "{", []);
    out := out + ",";
    out := AppendRulesMember(out, p.rules, key + "{", [SpecFields(p)[0]]);
    out := out + "}";
    assert [SpecFields(p)[0]] + [SpecFields(p)[1]] == SpecFields(p);
    Close(key, SpecFields(p));
    MemberGrows(dst, "spec", Obj(SpecFields(p)), base, fields);
  }

  // Content identity

  type Byte = b: int | 0 <= b < 256
  type Sum = s: seq<Byte> | |s| == 32 witness seq(32, _ => 0)

  /** hex.EncodeToString. */
  function Hex(bytes: seq<Byte>): (s: string)
    ensures |s| == 2 * |bytes|
    ensures forall k :: 0 <= k < |s| ==> s[k] == HexDigit(if k % 2 == 0 then bytes[k / 2] / 16 else bytes[k / 2] % 16)
  {
    seq(2 * |bytes|, k requires 0 <= k < 2 * |bytes| =>
      HexDigit(if k % 2 == 0 then bytes[k / 2] / 16 else bytes[k / 2] % 16))
  }

  /** Artifact.Digest over any 256-bit hash of the canonical text. */
  function Digest(p: Policy, hash: string -> Sum): string {
    DIGEST_PREFIX + Hex(hash(CanonicalText(p)))
  }

  lemma DigestIsWellFormed(p: Policy, hash: string -> Sum)
    ensures IsDigest(Digest(p, hash))
  {
    hide CanonicalText;
  }

  lemma HexIsInjective(a: seq<Byte>, b: seq<Byte>)
    requires Hex(a) == Hex(b)
    ensures a == b
  {
    assert |a| == |b|;
    forall i | 0 <= i < |a| ensures a[i] == b[i] {
      assert Hex(a)[2 * i] == Hex(b)[2 * i];
      assert Hex(a)[2 * i + 1] == Hex(b)[2 * i + 1];
      assert HexDigit(a[i] / 16) == HexDigit(b[i] / 16) && HexDigit(a[i] % 16) == HexDigit(b[i] % 16);
    }
  }

  /** Each byte is two digits, the greater first. */
  lemma HexSpells(bytes: seq<Byte>, i: nat)
    requires i < |bytes|
    ensures var s := Hex(bytes);
      && HexValue(s[2 * i]).Some? && HexValue(s[2 * i + 1]).Some?
      && bytes[i] == HexValue(s[2 * i]).value * 16 + HexValue(s[2 * i + 1]).value
  {
    HexDigitValue(bytes[i] / 16);
    HexDigitValue(bytes[i] % 16);
  }

  /** Two valid policies with one digest are the same policy, or their canonical texts collide under the hash. */
  lemma DigestIdentifies(p: Policy, q: Policy, hash: string -> Sum)
    requires ValidPolicy(p) && ValidPolicy(q) && Digest(p, hash) == Digest(q, hash)
    ensures p == q || (CanonicalText(p) != CanonicalText(q) && hash(CanonicalText(p)) == hash(CanonicalText(q)))
  {
    var a, b := Hex(hash(CanonicalText(p))), Hex(hash(CanonicalText(q)));
    assert a == (DIGEST_PREFIX + a)[7..] && b == (DIGEST_PREFIX + b)[7..];
    HexIsInjective(hash(CanonicalText(p)), hash(CanonicalText(q)));
    if CanonicalText(p) == CanonicalText(q) {
      CanonicalIsInjective(p, q);
    }
  }
}
