/**
 The canonical form of a policy against the strict-source checks (strictsource.Decode): whatever the policy, its
 text is well-formed UTF-8, its escapes pass the surrogate scanner, and its tree stays within the walkers' limits.
 */
module CanonicalSource {
  import opened Wrappers
  import opened Text
  import opened Policies
  import opened Quoting
  import opened Canonical
  import opened CanonicalPolicy
  import opened EscapeScanner
  import Trees

  // Text

  /** Putting `t` in front of `rest` changes neither the scanner's answer nor well-formedness. */
  ghost predicate Passes(t: string, rest: string, inString: bool) {
    && Scan(t + rest, 0, inString) == Scan(rest, 0, inString)
    && (ValidString(rest) ==> ValidString(t + rest))
  }

  lemma {:induction false} ScanShift(head: string, t: string, i: nat, inString: bool)
    ensures Scan(head + t, |head| + i, inString) == Scan(t, i, inString)
    decreases |t| - i
  {
    if i < |t| {
      var u := head + t;
      forall k | i <= k < |t| ensures u[|head| + k] == t[k] {
      }
      HexShift(head, t, i + 2);
      HexShift(head, t, i + 8);
      hide HexAt;
      if t[i] == '\"' {
        ScanShift(head, t, i + 1, !inString);
      } else if t[i] != '\\' || !inString || i + 1 >= |t| {
        ScanShift(head, t, i + 1, inString);
      } else if t[i + 1] != 'u' {
        ScanShift(head, t, i + 2, inString);
      } else {
        ScanShift(head, t, i + 1, inString);
        ScanShift(head, t, i + 6, inString);
        ScanShift(head, t, i + 12, inString);
      }
    }
  }

  lemma HexShift(head: string, t: string, i: nat)
    ensures HexAt(head + t, |head| + i) == HexAt(t, i)
  {
    if i + 4 <= |t| {
      assert (head + t)[|head| + i..|head| + i + 4] == t[i..i + 4];
    }
  }

  lemma Compose(a: string, b: string, rest: string, inString: bool)
    requires Passes(a, b + rest, inString) && Passes(b, rest, inString)
    ensures Passes(a + b, rest, inString)
  {
    assert a + b + rest == a + (b + rest);
    hide Scan, ValidString;
  }

  /** A byte that neither opens a string nor an escape. */
  lemma PlainByte(c: char, rest: string, inString: bool)
    requires c as int < 0x80 && c != '\"' && c != '\\'
    ensures Passes([c], rest, inString)
  {
    ScanShift([c], rest, 0, inString);
    ValidShift([c], rest, 0);
    assert ([c] + rest)[0] == c;
    hide HexAt;
  }

  /** A rune written as itself: no byte of it is a quote or a backslash. */
  lemma {:induction false} RunePasses(e: string, rest: string, k: nat)
    requires k <= |e| && forall j :: 0 <= j < |e| ==> e[j] != '\"' && e[j] != '\\'
    ensures Scan(e + rest, k, true) == Scan(rest, 0, true)
    decreases |e| - k
  {
    if k < |e| {
      assert (e + rest)[k] == e[k];
      RunePasses(e, rest, k + 1);
    } else {
      ScanShift(e, rest, 0, true);
    }
  }

  lemma EncodedRunePasses(r: int, rest: string)
    requires IsScalar(r) && r > 0x1F && r != 0x22 && r != 0x5C
    ensures Passes(EncodeRune(r), rest, true)
  {
    var e := EncodeRune(r);
    EncodedRuneIsWellFormed(r, rest);
    ValidShift(e, rest, 0);
    hide Scan;
    RunePasses(e, rest, 0);
  }

  lemma ShortPasses(c: char, rest: string)
    requires c as int < 0x80 && c != 'u'
    ensures Passes(['\\', c], rest, true)
  {
    var e := ['\\', c];
    ScanShift(e, rest, 0, true);
    ValidShift(e, rest, 0);
    assert (e + rest)[0] == '\\' && (e + rest)[1] == c;
    hide HexAt;
    AsciiAhead(e + rest, 2);
  }

  /** A control character's escape is no surrogate. */
  lemma ControlPasses(r: int, rest: string)
    requires 0 <= r <= 0x1F
    ensures Passes(['\\', 'u', '0', '0', HexDigit(r / 16), HexDigit(r % 16)], rest, true)
  {
    var e := ['\\', 'u', '0', '0', HexDigit(r / 16), HexDigit(r % 16)];
    var t := e + rest;
    assert t[2..6] == e[2..6];
    assert forall k :: 0 <= k < 6 ==> t[k] == e[k];
    HexDigitValue(r / 16);
    HexDigitValue(r % 16);
    assert HexAt(t, 2).Some? && HexAt(t, 2).value == r;
    hide HexAt;
    ScanShift(e, rest, 0, true);
    ValidShift(e, rest, 0);
    assert ValidFrom(t, 6) == ValidString(rest);
    AsciiAhead(t, 6);
  }

  lemma {:induction false} AsciiAhead(t: string, n: nat)
    requires n <= |t| && forall k :: 0 <= k < n ==> t[k] as int < 0x80
    ensures ValidFrom(t, 0) == ValidFrom(t, n)
  {
    if n > 0 {
      AsciiAhead(t, n - 1);
    }
  }

  lemma EscapedRunePasses(r: int, rest: string)
    requires IsScalar(r)
    ensures Passes(EscapeRune(r), rest, true)
  {
    hide Passes, EncodeRune;
    if r == 0x22 || r == 0x5C {
      ShortPasses(r as char, rest);
    } else if r == 0x08 {
      ShortPasses('b', rest);
    } else if r == 0x09 {
      ShortPasses('t', rest);
    } else if r == 0x0A {
      ShortPasses('n', rest);
    } else if r == 0x0C {
      ShortPasses('f', rest);
    } else if r == 0x0D {
      ShortPasses('r', rest);
    } else if r <= 0x1F {
      ControlPasses(r, rest);
    } else {
      EncodedRunePasses(r, rest);
    }
  }

  lemma {:induction false} EscapedPasses(s: string, i: nat, rest: string)
    requires i <= |s|
    ensures Passes(Escaped(s, i), rest, true)
    decreases |s| - i
  {
    hide EscapeRune, DecodeRune, Scan, ValidString;
    if i < |s| {
      DecodeThenEncode(s, i);
      var r := DecodeRune(s, i);
      var tail := Escaped(s, i + r.size);
      EscapedPasses(s, i + r.size, rest);
      EscapedRunePasses(r.value, tail + rest);
      Compose(EscapeRune(r.value), tail, rest, true);
    } else {
      assert "" + rest == rest;
    }
  }

  lemma QuotePasses(s: string, rest: string)
    ensures Passes(Quote(s), rest, false)
  {
    hide Escaped;
    var q := "\"";
    var t := Escaped(s, 0) + (q + rest);
    assert Quote(s) + rest == q + t;
    EscapedPasses(s, 0, q + rest);
    ScanShift(q, t, 0, true);
    ScanShift(q, rest, 0, false);
    ValidShift(q, t, 0);
    ValidShift(q, rest, 0);
    assert (q + t)[0] == '\"' && (q + rest)[0] == '\"';
    hide HexAt;
  }

  lemma {:induction false} PrintPasses(d: Doc, rest: string)
    ensures Passes(Print(d), rest, false)
    decreases d, 1
  {
    hide Passes, Quote, PrintItems, PrintFields;
    match d
    case Str(s) =>
      QuotePasses(s, rest);
    case Arr(items) =>
      PlainByte(']', rest, false);
      ItemsPass(items, "]" + rest);
      PlainByte('[', PrintItems(items) + ("]" + rest), false);
      Compose("[", PrintItems(items), "]" + rest, false);
      Enclose("[", PrintItems(items), "]", rest);
    case Obj(fields) =>
      PlainByte('}', rest, false);
      FieldsPass(fields, "}" + rest);
      PlainByte('{', PrintFields(fields) + ("}" + rest), false);
      Compose("{", PrintFields(fields), "}" + rest, false);
      Enclose("{", PrintFields(fields), "}", rest);
  }

  lemma Enclose(a: string, b: string, c: string, rest: string)
    requires Passes(a + b, c + rest, false) && Passes(c, rest, false)
    ensures Passes(a + b + c, rest, false)
  {
    hide Passes;
    Compose(a + b, c, rest, false);
  }

  lemma Nothing(rest: string)
    ensures Passes("", rest, false)
  {
    assert "" + rest == rest;
    hide Scan, ValidString;
  }

  lemma {:induction false} ItemsPass(items: seq<Doc>, rest: string)
    ensures Passes(PrintItems(items), rest, false)
    decreases items, 2
  {
    hide Passes, Print;
    if items == [] {
      Nothing(rest);
    } else if |items| == 1 {
      PrintPasses(items[0], rest);
      assert Print(items[0]) + "" == Print(items[0]);
    } else {
      var more := PrintItems(items[1..]);
      ItemsPass(items[1..], rest);
      PlainByte(',', more + rest, false);
      Compose(",", more, rest, false);
      PrintPasses(items[0], "," + more + rest);
      Compose(Print(items[0]), "," + more, rest, false);
    }
  }

  lemma {:induction false} FieldsPass(fields: seq<Field>, rest: string)
    ensures Passes(PrintFields(fields), rest, false)
    decreases fields, 2
  {
    hide Passes, PrintField;
    if fields == [] {
      Nothing(rest);
    } else if |fields| == 1 {
      FieldPasses(fields[0], rest);
      assert PrintField(fields[0]) + "" == PrintField(fields[0]);
    } else {
      var more := PrintFields(fields[1..]);
      FieldsPass(fields[1..], rest);
      PlainByte(',', more + rest, false);
      Compose(",", more, rest, false);
      FieldPasses(fields[0], "," + more + rest);
      Compose(PrintField(fields[0]), "," + more, rest, false);
    }
  }

  lemma FieldPasses(f: Field, rest: string)
    ensures Passes(PrintField(f), rest, false)
    decreases f, 2
  {
    hide Passes, Print, Quote;
    var value := Print(f.value);
    PrintPasses(f.value, rest);
    PlainByte(':', value + rest, false);
    QuotePasses(f.key, ":" + (value + rest));
    Compose(Quote(f.key), ":", value + rest, false);
    Compose(Quote(f.key) + ":", value, rest, false);
  }

  /** Canonical text is UTF-8 without a lone surrogate escape, even for a policy that was never validated. */
  lemma CanonicalTextPasses(p: Policy)
    ensures ValidString(CanonicalText(p)) && Scan(CanonicalText(p), 0, false)
  {
    hide Print;
    PrintPasses(PolicyDoc(p), "");
    assert CanonicalText(p) + "" == CanonicalText(p);
  }

  // Trees

  /** The value a canonical document denotes. */
  function TreeOf(d: Doc): Trees.Tree
    decreases d, 0
  {
    match d
    case Str(s) => Trees.Scalar(Trees.Text(s))
    case Arr(items) => Trees.Array(TreesOf(items))
    case Obj(fields) => Trees.Object(MembersOf(fields))
  }

  function TreesOf(items: seq<Doc>): (r: seq<Trees.Tree>)
    ensures |r| == |items|
    decreases items, 1
  {
    if items == [] then [] else TreesOf(items[..|items| - 1]) + [TreeOf(items[|items| - 1])]
  }

  function MembersOf(fields: seq<Field>): (r: seq<Trees.Member>)
    ensures |r| == |fields|
    decreases fields, 1
  {
    if fields == [] then []
    else
      var last := fields[|fields| - 1];
      MembersOf(fields[..|fields| - 1]) + [Trees.Member(last.key, TreeOf(last.value))]
  }

  ghost predicate Small(v: Trees.Tree, nodes: nat, depth: nat) {
    Trees.Nodes(v) <= nodes && Trees.Depth(v) <= depth && Trees.NoRepeatedKey(v)
  }

  ghost predicate SmallItems(items: seq<Trees.Tree>, nodes: nat, depth: nat) {
    && Trees.NodesIn(items) <= nodes && Trees.DepthIn(items) <= depth
    && forall x :: x in items ==> Trees.NoRepeatedKey(x)
  }

  ghost predicate SmallMembers(members: seq<Trees.Member>, nodes: nat, depth: nat) {
    && Trees.NodesAmong(members) <= nodes && Trees.DepthAmong(members) <= depth && Trees.KeysDiffer(members)
    && forall m :: m in members ==> Trees.NoRepeatedKey(m.value)
  }

  lemma OneMoreItem(items: seq<Trees.Tree>, x: Trees.Tree, nodes: nat, more: nat, depth: nat)
    requires SmallItems(items, nodes, depth) && Small(x, more, depth)
    ensures SmallItems(items + [x], nodes + more, depth)
  {
    assert (items + [x])[..|items|] == items;
    hide Trees.Nodes, Trees.Depth, Trees.NoRepeatedKey;
  }

  lemma OneMoreMember(members: seq<Trees.Member>, m: Trees.Member, nodes: nat, more: nat, depth: nat)
    requires SmallMembers(members, nodes, depth) && Small(m.value, more, depth) && m.key !in Trees.Keys(members)
    ensures SmallMembers(members + [m], nodes + 1 + more, depth)
  {
    assert (members + [m])[..|members|] == members;
    Trees.DifferOneMore(members, m);
    hide Trees.Nodes, Trees.Depth, Trees.NoRepeatedKey, Trees.KeysDiffer, Trees.Keys;
  }

  /** A list of documents each within the given size. */
  lemma {:induction false} ItemsAreSmall(items: seq<Doc>, nodes: nat, depth: nat)
    requires forall d :: d in items ==> Small(TreeOf(d), nodes, depth)
    ensures SmallItems(TreesOf(items), nodes * |items|, depth)
  {
    hide TreeOf, Small, SmallItems;
    if items != [] {
      var init, last := items[..|items| - 1], items[|items| - 1];
      ItemsAreSmall(init, nodes, depth);
      Times(nodes, |init|);
      OneMoreItem(TreesOf(init), TreeOf(last), nodes * |init|, nodes, depth);
    } else {
      NoItems(depth);
    }
  }

  lemma Times(a: nat, b: nat)
    ensures a * (b + 1) == a * b + a && a * b >= 0
  {
  }

  lemma NoItems(depth: nat)
    ensures SmallItems([], 0, depth)
  {
  }

  ghost predicate SmallFields(fields: seq<Field>, nodes: nat, depth: nat) {
    SmallMembers(MembersOf(fields), nodes, depth) && Trees.Keys(MembersOf(fields)) == set f | f in fields :: f.key
  }

  lemma NoFields(depth: nat)
    ensures SmallFields([], 0, depth)
  {
  }

  /** One member more, under a key of its own. */
  lemma OneMoreField(fields: seq<Field>, f: Field, nodes: nat, more: nat, depth: nat)
    requires SmallFields(fields, nodes, depth) && Small(TreeOf(f.value), more, depth)
    requires forall g :: g in fields ==> g.key != f.key
    ensures SmallFields(fields + [f], nodes + 1 + more, depth)
  {
    hide TreeOf, Small, SmallMembers;
    var members, m := MembersOf(fields), Trees.Member(f.key, TreeOf(f.value));
    assert (fields + [f])[..|fields|] == fields;
    assert MembersOf(fields + [f]) == members + [m];
    Trees.KeysOneMore(members, m);
    hide MembersOf, Trees.Keys;
    OneMoreMember(members, m, nodes, more, depth);
  }

  lemma TextIsSmall(text: string, depth: nat)
    ensures Small(TreeOf(Str(text)), 1, depth)
  {
  }

  lemma ObjectIsSmall(fields: seq<Field>, nodes: nat, depth: nat)
    requires SmallFields(fields, nodes, depth)
    ensures Small(TreeOf(Obj(fields)), 1 + nodes, 1 + depth)
  {
    hide MembersOf, Trees.NodesAmong, Trees.DepthAmong, Trees.KeysDiffer, Trees.Keys;
  }

  lemma DescribedIsSmall(description: Option<string>, depth: nat)
    ensures SmallFields(Described(description), 2, depth)
  {
    hide MembersOf, Small;
    NoFields(depth);
    if description.Some? {
      TextIsSmall(description.value, depth);
      OneMoreField([], TextField("description", description.value), 0, 1, depth);
      assert [] + Described(description) == Described(description);
    }
  }

  lemma OneMoreText(fields: seq<Field>, key: string, text: string, nodes: nat, depth: nat)
    requires SmallFields(fields, nodes, depth) && forall g :: g in fields ==> g.key != key
    ensures SmallFields(fields + [TextField(key, text)], nodes + 2, depth)
  {
    TextIsSmall(text, depth);
    hide SmallFields, TreeOf;
    OneMoreField(fields, TextField(key, text), nodes, 1, depth);
  }

  lemma KeysAreDifferent()
    ensures "description" != "id" && "description" != "outcome" && "description" != "when" && "description" != "name"
    ensures "id" != "outcome" && "id" != "when" && "outcome" != "when"
    ensures "apiVersion" != "kind" && "apiVersion" != "metadata" && "apiVersion" != "spec"
    ensures "kind" != "metadata" && "kind" != "spec" && "metadata" != "spec" && "defaultOutcome" != "rules"
  {
    assert "description"[0] == 'd' && "id"[0] == 'i' && "outcome"[0] == 'o' && "when"[0] == 'w' && "name"[0] == 'n';
    assert "apiVersion"[0] == 'a' && "kind"[0] == 'k' && "metadata"[0] == 'm' && "spec"[0] == 's' && "rules"[0] == 'r';
    assert "defaultOutcome"[0] == 'd';
  }

  lemma RuleIsSmall(r: Rule)
    ensures Small(TreeOf(RuleDoc(r)), 9, 1)
  {
    hide SmallFields, TreeOf;
    KeysAreDifferent();
    DescribedIsSmall(r.description, 0);
    var described := Described(r.description);
    OneMoreText(described, "id", r.id, 2, 0);
    var withID := described + [TextField("id", r.id)];
    OneMoreText(withID, "outcome", OutcomeText(r.outcome), 4, 0);
    var withOutcome := withID + [TextField("outcome", OutcomeText(r.outcome))];
    OneMoreText(withOutcome, "when", r.when, 6, 0);
    var all := withOutcome + [TextField("when", r.when)];
    assert all == described + [TextField("id", r.id), TextField("outcome", OutcomeText(r.outcome)), TextField("when", r.when)];
    ObjectIsSmall(all, 8, 0);
  }

  lemma SpecIsSmall(p: Policy)
    requires |p.rules| <= MAX_RULES
    ensures Small(TreeOf(Obj(SpecFields(p))), 5 + 9 * MAX_RULES, 3)
  {
    hide SmallFields, TreeOf, RuleDoc, Small, SmallItems;
    KeysAreDifferent();
    var docs := RuleDocs(p.rules);
    forall d | d in docs ensures Small(TreeOf(d), 9, 1) {
      var i :| 0 <= i < |docs| && docs[i] == d;
      RuleIsSmall(p.rules[i]);
    }
    ItemsAreSmall(docs, 9, 1);
    ArrayIsSmall(docs, 9 * |docs|, 9 * MAX_RULES);
    NoFields(2);
    var outcome, rules := TextField("defaultOutcome", OutcomeText(p.defaultOutcome)), Field("rules", Arr(docs));
    OneMoreText([], "defaultOutcome", OutcomeText(p.defaultOutcome), 0, 2);
    assert [] + [outcome] == [outcome];
    OneMoreField([outcome], rules, 2, 1 + 9 * MAX_RULES, 2);
    assert [outcome] + [rules] == SpecFields(p);
    ObjectIsSmall(SpecFields(p), 4 + 9 * MAX_RULES, 2);
  }

  lemma ArrayIsSmall(items: seq<Doc>, nodes: nat, bound: nat)
    requires SmallItems(TreesOf(items), nodes, 1) && nodes <= bound
    ensures Small(TreeOf(Arr(items)), 1 + bound, 2)
  {
    hide TreesOf, Trees.NodesIn, Trees.DepthIn;
  }

  lemma MetadataIsSmall(p: Policy)
    ensures Small(TreeOf(Obj(MetadataFields(p))), 5, 3)
  {
    hide SmallFields, TreeOf;
    KeysAreDifferent();
    DescribedIsSmall(p.description, 2);
    OneMoreText(Described(p.description), "name", p.name, 2, 2);
    ObjectIsSmall(MetadataFields(p), 4, 2);
  }

  /** However large its texts, the canonical document of a policy is far inside the walkers' limits. */
  lemma PolicyIsBounded(p: Policy)
    requires |p.rules| <= MAX_RULES
    ensures Trees.Bounded(TreeOf(PolicyDoc(p)))
  {
    hide SmallFields, TreeOf, SpecFields, MetadataFields, Trees.Nodes, Trees.Depth, Trees.NoRepeatedKey;
    KeysAreDifferent();
    var header := [TextField("apiVersion", p.apiVersion), TextField("kind", p.kind)];
    NoFields(3);
    OneMoreText([], "apiVersion", p.apiVersion, 0, 3);
    assert [] + [header[0]] == [header[0]];
    OneMoreText([header[0]], "kind", p.kind, 2, 3);
    assert [header[0]] + [header[1]] == header;
    MetadataIsSmall(p);
    var metadata, spec := Field("metadata", Obj(MetadataFields(p))), Field("spec", Obj(SpecFields(p)));
    OneMoreField(header, metadata, 4, 5, 3);
    SpecIsSmall(p);
    OneMoreField(header + [metadata], spec, 10, 5 + 9 * MAX_RULES, 3);
    assert header + [metadata] + [spec] == RootFields(p);
    ObjectIsSmall(RootFields(p), 16 + 9 * MAX_RULES, 3);
  }

  // The whole strict parser on canonical text

  /** policy.Parse on JSON: the source limit, UTF-8, the escape scanner, the walker, the reader and the validator. */
  ghost function Parse(t: string): Option<Policy> {
    if |t| > MAX_SOURCE_BYTES || !ValidString(t) || !Scan(t, 0, false) then None
    else
      var d := ReadDoc(t);
      if d.None? || d.value.rest != "" || !Trees.Bounded(TreeOf(d.value.value)) then None
      else
        var p := DecodePolicy(d.value.value);
        if p.Some? && ValidPolicy(p.value) then p else None
  }

  /** A valid policy survives canonicalising and parsing exactly when its canonical text is within the source limit. */
  lemma SnapshotSucceedsIffSmall(p: Policy)
    requires ValidPolicy(p)
    ensures Parse(CanonicalText(p)) == if |CanonicalText(p)| <= MAX_SOURCE_BYTES then Some(p) else None
  {
    CanonicalTextPasses(p);
    PolicyRuleCount(p);
    PolicyIsBounded(p);
    PolicyDocWellFormed(p);
    ReadPrinted(PolicyDoc(p), "");
    assert CanonicalText(p) + "" == CanonicalText(p);
    DecodesPolicy(p);
    hide Scan, ValidString, ReadDoc, DecodePolicy, ValidPolicy, Trees.Bounded, TreeOf, Print;
  }

  lemma PolicyRuleCount(p: Policy)
    requires ValidPolicy(p)
    ensures |p.rules| <= MAX_RULES
  {
  }

  function Letters(n: nat): (s: string)
    ensures |s| == n && forall k :: 0 <= k < n ==> s[k] == 'a'
  {
    seq(n, _ => 'a')
  }

  function LongRule(i: nat): Rule {
    Rule(Letters(i + 1), None, Letters(MAX_CONDITION_LENGTH), Allow)
  }

  lemma {:induction false} ItemsLength(items: seq<Doc>, n: nat)
    requires forall i :: 0 <= i < |items| ==> |Print(items[i])| >= n
    ensures |PrintItems(items)| >= n * |items|
  {
    hide Print;
    if items != [] {
      ItemsLength(items[1..], n);
      assert |items[1..]| == |items| - 1;
      assert n * |items| == n + n * (|items| - 1);
      assert |PrintItems(items)| >= |Print(items[0])| + (if |items| == 1 then 0 else |PrintItems(items[1..])|);
    }
  }

  lemma {:induction false} FieldsLength(fields: seq<Field>, i: nat)
    requires i < |fields|
    ensures |PrintFields(fields)| >= |PrintField(fields[i])|
  {
    if i > 0 {
      FieldsLength(fields[1..], i - 1);
    }
  }

  lemma LongRuleLength(i: nat)
    ensures |Print(RuleDoc(LongRule(i)))| > MAX_CONDITION_LENGTH
  {
    hide Escaped;
    var r := LongRule(i);
    PlainEscapes(r.when, 0);
    var fields := RuleDoc(r).fields;
    assert fields[2] == TextField("when", r.when);
    FieldsLength(fields, 2);
  }

  lemma LongRuleOk(i: nat)
    requires i < 64
    ensures RuleOk(LongRule(i))
  {
    var when := Letters(MAX_CONDITION_LENGTH);
    AsciiTail(when, 0);
    assert DecodeRune(when, 0).value == 'a' as int;
  }

  /** Validation alone does not bound the canonical text: some valid policy is too large to be parsed back. */
  lemma ValidDoesNotImplyParsable() returns (p: Policy)
    ensures ValidPolicy(p) && Parse(CanonicalText(p)) == None
  {
    hide Escaped;
    var rules := seq(64, i requires 0 <= i < 64 => LongRule(i));
    p := Policy(API_VERSION, KIND, "p", None, Allow, rules);
    forall i | 0 <= i < 64 ensures RuleOk(rules[i]) && |Print(RuleDocs(rules)[i])| >= MAX_CONDITION_LENGTH + 1 {
      LongRuleOk(i);
      LongRuleLength(i);
    }
    forall i, j | 0 <= i < j < 64 ensures rules[i].id != rules[j].id {
      assert |rules[i].id| == i + 1 && |rules[j].id| == j + 1;
    }
    ItemsLength(RuleDocs(rules), MAX_CONDITION_LENGTH + 1);
    FieldsLength(SpecFields(p), 1);
    FieldsLength(RootFields(p), 3);
  }
}
