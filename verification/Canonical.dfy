/**
 The canonical form of a policy (policy/canonical.go): a closed JSON model of
 objects, arrays and strings, its printer, a reader of that model, and the digest.
 */
module Canonical {
  import opened Wrappers
  import opened Text
  import opened Quoting

  datatype Doc = Str(text: string) | Arr(items: seq<Doc>) | Obj(fields: seq<Field>)
  datatype Field = Field(key: string, value: Doc)

  // Printing

  function Print(d: Doc): string
    decreases d, 0
  {
    match d
    case Str(s) => Quote(s)
    case Arr(items) => "[" + PrintItems(items) + "]"
    case Obj(fields) => "{" + PrintFields(fields) + "}"
  }

  function PrintItems(items: seq<Doc>): string
    decreases items, 1
  {
    if items == [] then ""
    else Print(items[0]) + (if |items| == 1 then "" else "," + PrintItems(items[1..]))
  }

  function PrintFields(fields: seq<Field>): string
    decreases fields, 1
  {
    if fields == [] then "" else PrintField(fields[0]) + (if |fields| == 1 then "" else "," + PrintFields(fields[1..]))
  }

  function PrintField(f: Field): string
    decreases f, 1
  {
    Quote(f.key) + ":" + Print(f.value)
  }

  predicate WellFormed(d: Doc) {
    match d
    case Str(s) => ValidString(s)
    case Arr(items) => forall i :: 0 <= i < |items| ==> WellFormed(items[i])
    case Obj(fields) => forall i :: 0 <= i < |fields| ==> ValidString(fields[i].key) && WellFormed(fields[i].value)
  }

  // Reading. Each reader returns what is left of the text.

  datatype Read<+T> = Read(value: T, rest: string)

  function ReadDoc(t: string): (r: Option<Read<Doc>>)
    ensures r.Some? ==> |r.value.rest| < |t|
    decreases |t|, 0
  {
    if t == "" then None
    else if t[0] == '\"' then
      var s := ReadLiteral(t[1..]);
      if s.None? then None else Some(Read(Str(s.value.text), s.value.rest))
    else if t[0] == '[' then
      if |t| >= 2 && t[1] == ']' then Some(Read(Arr([]), t[2..]))
      else
        var items := ReadItems(t[1..]);
        if items.None? then None else Some(Read(Arr(items.value.value), items.value.rest))
    else if t[0] == '{' then
      if |t| >= 2 && t[1] == '}' then Some(Read(Obj([]), t[2..]))
      else
        var fields := ReadFields(t[1..]);
        if fields.None? then None else Some(Read(Obj(fields.value.value), fields.value.rest))
    else None
  }

  /** One or more items and the closing bracket. */
  function ReadItems(t: string): (r: Option<Read<seq<Doc>>>)
    ensures r.Some? ==> |r.value.rest| < |t|
    decreases |t|, 1
  {
    var d := ReadDoc(t);
    if d.None? || d.value.rest == "" then None
    else
      var rest := d.value.rest;
      if rest[0] == ']' then Some(Read([d.value.value], rest[1..]))
      else if rest[0] != ',' then None
      else
        var more := ReadItems(rest[1..]);
        if more.None? then None else Some(Read([d.value.value] + more.value.value, more.value.rest))
  }

  /** One or more members and the closing brace. */
  function ReadFields(t: string): (r: Option<Read<seq<Field>>>)
    ensures r.Some? ==> |r.value.rest| < |t|
    decreases |t|, 1
  {
    if t == "" || t[0] != '\"' then None
    else
      var key := ReadLiteral(t[1..]);
      if key.None? || key.value.rest == "" || key.value.rest[0] != ':' then None
      else
        var d := ReadDoc(key.value.rest[1..]);
        if d.None? || d.value.rest == "" then None
        else
          var field := Field(key.value.text, d.value.value);
          var rest := d.value.rest;
          if rest[0] == '}' then Some(Read([field], rest[1..]))
          else if rest[0] != ',' then None
          else
            var more := ReadFields(rest[1..]);
            if more.None? then None else Some(Read([field] + more.value.value, more.value.rest))
  }

  // Reading inverts printing.

  lemma FirstByte(d: Doc)
    ensures Print(d) != "" && Print(d)[0] != ']' && Print(d)[0] != '}'
  {
  }

  lemma {:induction false} ReadPrinted(d: Doc, rest: string)
    requires WellFormed(d)
    ensures ReadDoc(Print(d) + rest) == Some(Read(d, rest))
    decreases d, 0
  {
    hide ReadLiteral, Escaped;
    match d
    case Str(s) =>
      QuoteRoundTrip(s, rest);
      assert (Quote(s) + rest)[0] == '\"';
    case Arr(items) =>
      if items != [] {
        ReadPrintedItems(items, rest);
      }
      ReadPrintedArr(items, rest);
    case Obj(fields) =>
      if fields != [] {
        ReadPrintedFields(fields, rest);
      }
      ReadPrintedObj(fields, rest);
  }

  lemma ReadPrintedArr(items: seq<Doc>, rest: string)
    requires items != [] ==> ReadItems(PrintItems(items) + "]" + rest) == Some(Read(items, rest))
    ensures ReadDoc(Print(Arr(items)) + rest) == Some(Read(Arr(items), rest))
  {
    hide ReadItems, ReadLiteral, Escaped;
    var t := Print(Arr(items)) + rest;
    Associate("[", PrintItems(items), "]", rest);
    assert t[0] == '[' && t[1..] == PrintItems(items) + "]" + rest;
    if items == [] {
      assert PrintItems(items) == "";
      assert t == "[" + "]" + rest && t[2..] == rest;
    } else {
      FirstByte(items[0]);
      assert t[1] == PrintItems(items)[0] == Print(items[0])[0];
    }
  }

  lemma ReadPrintedObj(fields: seq<Field>, rest: string)
    requires fields != [] ==> ReadFields(PrintFields(fields) + "}" + rest) == Some(Read(fields, rest))
    ensures ReadDoc(Print(Obj(fields)) + rest) == Some(Read(Obj(fields), rest))
  {
    hide ReadFields, ReadLiteral, Escaped;
    var t := Print(Obj(fields)) + rest;
    Associate("{", PrintFields(fields), "}", rest);
    assert t[0] == '{' && t[1..] == PrintFields(fields) + "}" + rest;
    if fields == [] {
      assert PrintFields(fields) == "";
      assert t == "{" + "}" + rest && t[2..] == rest;
    } else {
      assert t[1] == PrintFields(fields)[0] == PrintField(fields[0])[0] == '\"';
    }
  }

  /** The text after a printed element of a list: the closing mark, or a comma and the others. */
  lemma AfterElement(head: string, tail: string, close: string, rest: string)
    ensures head + "" + close + rest == head + (close + rest)
    ensures head + ("," + tail) + close + rest == head + ("," + (tail + close + rest))
  {
    assert head + "" == head;
    Associate(head, close, rest, "");
    Associate(head, "," + tail, close, rest);
    Associate(",", tail, close, rest);
  }

  lemma {:induction false} ReadPrintedItems(items: seq<Doc>, rest: string)
    requires items != [] && forall i :: 0 <= i < |items| ==> WellFormed(items[i])
    ensures ReadItems(PrintItems(items) + "]" + rest) == Some(Read(items, rest))
    decreases items, 1
  {
    hide ReadDoc, Print;
    var head := Print(items[0]);
    var tail := if |items| == 1 then "" else PrintItems(items[1..]);
    AfterElement(head, tail, "]", rest);
    if |items| == 1 {
      ReadPrinted(items[0], "]" + rest);
      ReadLastItem(head + ("]" + rest), items[0], rest);
      assert items == [items[0]];
    } else {
      var next := tail + "]" + rest;
      ReadPrinted(items[0], "," + next);
      ReadPrintedItems(items[1..], rest);
      ReadNextItem(head + ("," + next), items[0], items[1..], next, rest);
      assert items == [items[0]] + items[1..];
    }
  }

  lemma ReadLastItem(t: string, d: Doc, rest: string)
    requires ReadDoc(t) == Some(Read(d, "]" + rest))
    ensures ReadItems(t) == Some(Read([d], rest))
  {
    assert ("]" + rest)[1..] == rest;
  }

  lemma ReadNextItem(t: string, d: Doc, more: seq<Doc>, next: string, rest: string)
    requires ReadDoc(t) == Some(Read(d, "," + next))
    requires ReadItems(next) == Some(Read(more, rest))
    ensures ReadItems(t) == Some(Read([d] + more, rest))
  {
    assert ("," + next)[1..] == next;
  }

  lemma {:induction false} ReadPrintedFields(fields: seq<Field>, rest: string)
    requires fields != []
    requires forall i :: 0 <= i < |fields| ==> ValidString(fields[i].key) && WellFormed(fields[i].value)
    ensures ReadFields(PrintFields(fields) + "}" + rest) == Some(Read(fields, rest))
    decreases fields, 1
  {
    hide ReadDoc, Print, PrintField, ReadLiteral;
    var f := fields[0];
    var tail := if |fields| == 1 then "" else PrintFields(fields[1..]);
    AfterElement(PrintField(f), tail, "}", rest);
    if |fields| == 1 {
      ReadPrinted(f.value, "}" + rest);
      ReadKey(f, "}" + rest);
      assert ("}" + rest)[1..] == rest;
      assert fields == [f];
    } else {
      var next := tail + "}" + rest;
      ReadPrinted(f.value, "," + next);
      ReadKey(f, "," + next);
      assert ("," + next)[1..] == next;
      ReadPrintedFields(fields[1..], rest);
      assert fields == [f] + fields[1..];
    }
  }

  /** Reading a printed member reaches the text after its value. */
  lemma ReadKey(f: Field, after: string)
    requires ValidString(f.key)
    requires ReadDoc(Print(f.value) + after) == Some(Read(f.value, after)) && after != ""
    ensures ReadFields(PrintField(f) + after)
         == if after[0] == '}' then Some(Read([f], after[1..]))
            else if after[0] != ',' then None
            else var more := ReadFields(after[1..]);
                 if more.None? then None else Some(Read([f] + more.value.value, more.value.rest))
  {
    hide ReadDoc, Print, ReadLiteral, Escaped;
    var value := Print(f.value) + after;
    Associate(Quote(f.key), ":", Print(f.value), after);
    Associate(":", Print(f.value), after, "");
    QuoteRoundTrip(f.key, ":" + value);
    assert (":" + value)[1..] == value;
    assert PrintField(f) + after == Quote(f.key) + (":" + value);
  }
}
