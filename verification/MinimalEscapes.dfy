/**
 String escapes as RFC 8785 asks for them, section 3.2.2.2, over the text of a literal alone: the encoder's literal is
 the only one of that kind that reads back as the value.
 */
module MinimalEscapes {
  import opened Wrappers
  import opened Text
  import opened Quoting

  /** Control characters with a two-character escape. */
  predicate HasShort(v: nat) {
    v in {0x08, 0x09, 0x0A, 0x0C, 0x0D}
  }

  predicate ShortLetter(c: char) {
    c in {'\"', '\\', 'b', 't', 'n', 'f', 'r'}
  }

  /** Four lower-case digits of a control character that has no shorter escape. */
  predicate IsControlEscape(t: string) {
    && |t| >= 6 && t[..4] == ['\\', 'u', '0', '0']
    && exists v: nat :: v < 0x20 && !HasShort(v) && t[4] == HexDigit(v / 16) && t[5] == HexDigit(v % 16)
  }

  /**
   The content of a literal, up to its closing quote: a quotation mark, a backslash or a control character is written
   with its two-character escape if it has one and with four digits if not, and every other byte as itself.
   */
  predicate Minimal(t: string) {
    t == "" ||
    if t[0] != '\\' then t[0] as int >= 0x20 && t[0] != '\"' && Minimal(t[1..])
    else if |t| >= 2 && ShortLetter(t[1]) then Minimal(t[2..])
    else IsControlEscape(t) && Minimal(t[6..])
  }

  // Every rune is escaped minimally

  lemma {:induction false} PlainIsMinimal(head: string, tail: string)
    requires forall k :: 0 <= k < |head| ==> head[k] as int >= 0x20 && head[k] != '\"' && head[k] != '\\'
    requires Minimal(tail)
    ensures Minimal(head + tail)
  {
    if head == "" {
      assert head + tail == tail;
    } else {
      PlainIsMinimal(head[1..], tail);
      assert (head + tail)[1..] == head[1..] + tail;
    }
  }

  lemma ShortIsMinimal(c: char, tail: string)
    requires ShortLetter(c) && Minimal(tail)
    ensures Minimal(['\\', c] + tail)
  {
    assert (['\\', c] + tail)[2..] == tail;
  }

  lemma ControlIsMinimal(v: nat, tail: string)
    requires v < 0x20 && !HasShort(v) && Minimal(tail)
    ensures Minimal(['\\', 'u', '0', '0', HexDigit(v / 16), HexDigit(v % 16)] + tail)
  {
    hide HexDigit;
    var t := ['\\', 'u', '0', '0', HexDigit(v / 16), HexDigit(v % 16)] + tail;
    assert t[4] == HexDigit(v / 16) && t[5] == HexDigit(v % 16);
    assert t[..4] == ['\\', 'u', '0', '0'] && t[6..] == tail;
    assert !ShortLetter(t[1]);
  }

  lemma RuneIsMinimal(r: int, tail: string)
    requires IsScalar(r) && Minimal(tail)
    ensures Minimal(EscapeRune(r) + tail)
  {
    hide Minimal;
    if r == 0x22 || r == 0x5C || (0 <= r && HasShort(r)) {
      ShortIsMinimal(EscapeRune(r)[1], tail);
      assert EscapeRune(r) == ['\\', EscapeRune(r)[1]];
    } else if r <= 0x1F {
      ControlIsMinimal(r, tail);
    } else {
      PlainIsMinimal(EncodeRune(r), tail);
    }
  }

  lemma {:induction false} EscapedIsMinimal(s: string, i: nat)
    requires i <= |s|
    ensures Minimal(Escaped(s, i))
    decreases |s| - i
  {
    hide EncodeRune, DecodeRune, EscapeRune;
    if i < |s| {
      DecodeThenEncode(s, i);
      EscapedIsMinimal(s, i + DecodeRune(s, i).size);
      RuneIsMinimal(DecodeRune(s, i).value, Escaped(s, i + DecodeRune(s, i).size));
    }
  }

  // A minimal literal is determined by what it reads as

  /** The one way to write a byte. */
  function Written(c: char): string {
    if c == '\"' || c == '\\' then ['\\', c]
    else if c == 0x08 as char then "\\b"
    else if c == 0x09 as char then "\\t"
    else if c == 0x0A as char then "\\n"
    else if c == 0x0C as char then "\\f"
    else if c == 0x0D as char then "\\r"
    else if c as int < 0x20 then ['\\', 'u', '0', '0', HexDigit(c as int / 16), HexDigit(c as int % 16)]
    else [c]
  }

  function WrittenAll(s: string): string {
    if s == "" then "" else Written(s[0]) + WrittenAll(s[1..])
  }

  lemma {:induction false} MinimalReads(t: string, rest: string)
    requires Minimal(t)
    ensures var r := ReadLiteral(t + "\"" + rest);
      r.Some? && r.value.rest == rest && t == WrittenAll(r.value.text)
    decreases |t|, 1
  {
    hide ReadLiteral, Written, WrittenAll, EncodeRune, ShortEscape, HexDigit;
    var u := t + "\"" + rest;
    if t == "" {
      NothingReads(rest);
      assert u == "\"" + rest;
    } else if t[0] != '\\' {
      ReadsOn(t, 1, rest);
      ReadPlain([t[0]], t[1..] + "\"" + rest);
      PlainIsWritten(t[0]);
      assert t[..1] == [t[0]];
      ReadsNext(t[0], t[1..], rest, u);
    } else if |t| >= 2 && ShortLetter(t[1]) {
      ReadsOn(t, 2, rest);
      ShortIsWritten(t[1]);
      ReadShort(t[1], t[2..] + "\"" + rest);
      assert t[..2] == ['\\', t[1]];
      ReadsNext(ShortEscape(t[1]).value, t[2..], rest, u);
    } else {
      ReadsOn(t, 6, rest);
      var v: nat :| v < 0x20 && !HasShort(v) && t[4] == HexDigit(v / 16) && t[5] == HexDigit(v % 16);
      ControlIsWritten(v);
      ReadHex(v, t[6..] + "\"" + rest);
      assert t[..6] == t[..4] + [t[4], t[5]] == ['\\', 'u', '0', '0', HexDigit(v / 16), HexDigit(v % 16)];
      ReadsNext(v as char, t[6..], rest, u);
    }
  }

  lemma NothingReads(rest: string)
    ensures ReadLiteral("\"" + rest) == Some(Literal("", rest)) && WrittenAll("") == ""
  {
    assert ("\"" + rest)[1..] == rest;
  }

  /** The first `n` bytes of a minimal literal taken off. */
  lemma {:induction false} ReadsOn(t: string, n: nat, rest: string)
    requires 1 <= n <= |t| && Minimal(t[n..])
    ensures var r := ReadLiteral(t[n..] + "\"" + rest); r.Some? && r.value.rest == rest && t[n..] == WrittenAll(r.value.text)
    ensures t + "\"" + rest == t[..n] + (t[n..] + "\"" + rest) && t == t[..n] + t[n..]
    decreases |t|, 0
  {
    MinimalReads(t[n..], rest);
  }

  lemma PlainIsWritten(c: char)
    requires c as int >= 0x20 && c != '\"' && c != '\\'
    ensures Written(c) == [c]
  {
  }

  lemma ShortIsWritten(c: char)
    requires ShortLetter(c)
    ensures c != 'u' && ShortEscape(c).Some? && Written(ShortEscape(c).value) == ['\\', c]
  {
  }

  lemma ControlIsWritten(v: nat)
    requires v < 0x20 && !HasShort(v)
    ensures EncodeRune(v) == [v as char]
    ensures Written(v as char) == ['\\', 'u', '0', '0', HexDigit(v / 16), HexDigit(v % 16)]
  {
    hide HexDigit;
  }

  /** One byte read from what it was written as, and the rest. */
  lemma ReadsNext(byte: char, tail: string, rest: string, u: string)
    requires ReadLiteral(u) == Prepend([byte], ReadLiteral(tail + "\"" + rest))
    requires var r := ReadLiteral(tail + "\"" + rest); r.Some? && r.value.rest == rest && tail == WrittenAll(r.value.text)
    ensures var r := ReadLiteral(u); r.Some? && r.value.rest == rest && WrittenAll(r.value.text) == Written(byte) + tail
  {
    hide ReadLiteral, Written;
    var text := ReadLiteral(tail + "\"" + rest).value.text;
    assert ([byte] + text)[1..] == text;
  }

  /**
   The encoder's literal is minimally escaped, and for well-formed text it is the only literal so escaped that reads
   back as that text.
   */
  lemma EscapingIsCanonical(s: string, t: string, rest: string)
    ensures Minimal(Escaped(s, 0))
    ensures ValidString(s) && Minimal(t) ==>
              (ReadLiteral(t + "\"" + rest) == Some(Literal(s, rest)) <==> t == Escaped(s, 0))
  {
    hide ReadLiteral, Minimal, Sanitized, WrittenAll;
    EscapedIsMinimal(s, 0);
    if ValidString(s) && Minimal(t) {
      ReadQuoted(s, 0, rest);
      SanitizedValid(s, 0);
      assert s[0..] == s;
      MinimalReads(t, rest);
      MinimalReads(Escaped(s, 0), rest);
    }
  }
}
