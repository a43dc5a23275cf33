/**
 JSON strings as the canonical encoder writes them (appendString in
 policy/canonical.go), and a reader of JSON string literals to hold them against.
 */
module Quoting {
  import opened Wrappers
  import opened Text

  /** Lower-case hexadecimal digits. */
  function HexDigit(v: nat): char
    requires v < 16
  {
    if v < 10 then ('0' as int + v) as char else ('a' as int + v - 10) as char
  }

  /** utf8.EncodeRune on a Unicode scalar value. */
  function EncodeRune(r: int): (s: string)
    requires 0 <= r < 0x110000 && !(0xD800 <= r < 0xE000)
    ensures 1 <= |s| <= 4
  {
    if r < 0x80 then [r as char]
    else if r < 0x800 then [(0xC0 + r / 64) as char, (0x80 + r % 64) as char]
    else if r < 0x10000 then
      [(0xE0 + r / 64 / 64) as char, (0x80 + r / 64 % 64) as char, (0x80 + r % 64) as char]
    else
      [(0xF0 + r / 64 / 64 / 64) as char, (0x80 + r / 64 / 64 % 64) as char,
       (0x80 + r / 64 % 64) as char, (0x80 + r % 64) as char]
  }

  predicate IsScalar(r: int) {
    0 <= r < 0x110000 && !(0xD800 <= r < 0xE000)
  }

  lemma Digits(high: int, low: int)
    requires 0 <= low < 64
    ensures (high * 64 + low) / 64 == high && (high * 64 + low) % 64 == low
  {
  }

  /** Decoding yields a scalar value, and encoding it again gives the bytes it came from when they were well formed. */
  lemma DecodeThenEncode(s: string, i: nat)
    requires i < |s|
    ensures IsScalar(DecodeRune(s, i).value)
    ensures RuneAt(s, i) ==> DecodeRune(s, i).size == LeadSize(s[i] as int)
    ensures RuneAt(s, i) ==> EncodeRune(DecodeRune(s, i).value) == s[i..i + DecodeRune(s, i).size]
  {
    hide EncodeRune;
    if RuneAt(s, i) {
      var n := LeadSize(s[i] as int);
      var part := s[i..i + n];
      var lead := s[i] as int;
      if n == 1 {
        EncodeOne(lead);
        assert part == [s[i]];
      } else if n == 2 {
        EncodeTwo(lead - 0xC0, s[i + 1] as int - 0x80);
        assert part == [s[i], s[i + 1]];
      } else if n == 3 {
        EncodeThree(lead - 0xE0, s[i + 1] as int - 0x80, s[i + 2] as int - 0x80);
        assert part == [s[i], s[i + 1], s[i + 2]];
      } else {
        EncodeFour(lead - 0xF0, s[i + 1] as int - 0x80, s[i + 2] as int - 0x80, s[i + 3] as int - 0x80);
        assert part == [s[i], s[i + 1], s[i + 2], s[i + 3]];
      }
    }
  }

  lemma EncodeOne(a: int)
    requires 0 <= a < 0x80
    ensures EncodeRune(a) == [a as char]
  {
  }

  lemma EncodeTwo(a: int, b: int)
    requires 2 <= a < 32 && 0 <= b < 64
    ensures IsScalar(a * 64 + b)
    ensures EncodeRune(a * 64 + b) == [(0xC0 + a) as char, (0x80 + b) as char]
  {
    Digits(a, b);
  }

  lemma EncodeThree(a: int, b: int, c: int)
    requires 0 <= a < 16 && 0 <= b < 64 && 0 <= c < 64 && (a == 0 ==> b >= 32) && (a == 13 ==> b < 32)
    ensures IsScalar((a * 64 + b) * 64 + c)
    ensures EncodeRune((a * 64 + b) * 64 + c) == [(0xE0 + a) as char, (0x80 + b) as char, (0x80 + c) as char]
  {
    ThreeDigits(a, b, c);
  }

  lemma EncodeFour(a: int, b: int, c: int, d: int)
    requires 0 <= a <= 4 && 0 <= b < 64 && 0 <= c < 64 && 0 <= d < 64 && (a == 0 ==> b >= 16) && (a == 4 ==> b < 16)
    ensures IsScalar(((a * 64 + b) * 64 + c) * 64 + d)
    ensures EncodeRune(((a * 64 + b) * 64 + c) * 64 + d)
         == [(0xF0 + a) as char, (0x80 + b) as char, (0x80 + c) as char, (0x80 + d) as char]
  {
    ThreeDigits(a * 64 + b, c, d);
    Digits(a, b);
  }

  lemma ThreeDigits(a: int, b: int, c: int)
    requires 0 <= b < 64 && 0 <= c < 64
    ensures ((a * 64 + b) * 64 + c) / 64 == a * 64 + b && ((a * 64 + b) * 64 + c) % 64 == c
    ensures (a * 64 + b) / 64 == a && (a * 64 + b) % 64 == b
  {
    Digits(a * 64 + b, c);
    Digits(a, b);
  }

  /** What the encoder appends for one rune. */
  function EscapeRune(r: int): string
    requires IsScalar(r)
  {
    if r == 0x22 || r == 0x5C then ['\\', r as char]
    else if r == 0x08 then "\\b"
    else if r == 0x09 then "\\t"
    else if r == 0x0A then "\\n"
    else if r == 0x0C then "\\f"
    else if r == 0x0D then "\\r"
    else if r <= 0x1F then ['\\', 'u', '0', '0', HexDigit(r / 16), HexDigit(r % 16)]
    else EncodeRune(r)
  }

  function Escaped(s: string, i: nat): string
    requires i <= |s|
    decreases |s| - i
  {
    if i == |s| then ""
    else
      DecodeThenEncode(s, i);
      EscapeRune(DecodeRune(s, i).value) + Escaped(s, i + DecodeRune(s, i).size)
  }

  function Quote(s: string): string {
    "\"" + Escaped(s, 0) + "\""
  }

  lemma Associate(a: string, b: string, c: string, d: string)
    ensures a + b + c + d == a + (b + c + d)
    ensures a + b + c == a + (b + c)
  {
  }

  /** One iteration of the range loop: the switch on the rune. */
  method AppendRune(dst: string, r: int) returns (out: string)
    requires IsScalar(r)
    ensures out == dst + EscapeRune(r)
  {
    if r == 0x22 || r == 0x5C {
      out := dst + ['\\', r as char];
    } else if r == 0x08 {
      out := dst + "\\b";
    } else if r == 0x09 {
      out := dst + "\\t";
    } else if r == 0x0A {
      out := dst + "\\n";
    } else if r == 0x0C {
      out := dst + "\\f";
    } else if r == 0x0D {
      out := dst + "\\r";
    } else if r <= 0x1F {
      out := dst + ['\\', 'u', '0', '0', HexDigit(r / 16), HexDigit(r % 16)];
    } else {
      out := dst + EncodeRune(r);
    }
  }

  /** appendString. */
  method AppendString(dst: string, value: string) returns (out: string)
    ensures out == dst + Quote(value)
  {
    hide EncodeRune, DecodeRune, RuneAt, EscapeRune;
    out := dst + "\"";
    var i := 0;
    while i < |value|
      invariant 0 <= i <= |value|
      invariant out + Escaped(value, i) == dst + "\"" + Escaped(value, 0)
    {
      DecodeThenEncode(value, i);
      var r := DecodeRune(value, i);
      Associate(out, EscapeRune(r.value), Escaped(value, i + r.size), "");
      out := AppendRune(out, r.value);
      i := i + r.size;
    }
    assert out == dst + "\"" + Escaped(value, 0);
    Associate(dst, "\"", Escaped(value, 0), "\"");
    out := out + "\"";
  }

  // A reader of JSON string literals, section 7 of RFC 8259, on the text after the opening quote.

  datatype Literal = Literal(text: string, rest: string)

  function HexValue(c: char): (v: Option<nat>)
    ensures v.Some? ==> v.value < 16
  {
    if IsDigit(c) then Some(c as int - '0' as int)
    else if 'a' <= c <= 'f' then Some(c as int - 'a' as int + 10)
    else if 'A' <= c <= 'F' then Some(c as int - 'A' as int + 10)
    else None
  }

  /** The code unit of four hexadecimal digits at the start of `t`. */
  function HexUnit(t: string): (u: Option<nat>)
    ensures u.Some? ==> |t| >= 4 && u.value < 0x10000
  {
    if |t| < 4 || HexValue(t[0]).None? || HexValue(t[1]).None? || HexValue(t[2]).None? || HexValue(t[3]).None? then None
    else Some(HexValue(t[0]).value * 4096 + HexValue(t[1]).value * 256 + HexValue(t[2]).value * 16 + HexValue(t[3]).value)
  }

  /** The byte a two-character escape stands for. */
  function ShortEscape(c: char): Option<char> {
    if c == '\"' || c == '\\' || c == '/' then Some(c)
    else if c == 'b' then Some(0x08 as char)
    else if c == 't' then Some(0x09 as char)
    else if c == 'n' then Some(0x0A as char)
    else if c == 'f' then Some(0x0C as char)
    else if c == 'r' then Some(0x0D as char)
    else None
  }

  const SHORT_LETTERS := "\"\\/bfnrt"
  const SHORT_BYTES := [0x22, 0x5C, 0x2F, 0x08, 0x0C, 0x0A, 0x0D, 0x09]

  /** The eight two-character escapes, and no others. */
  lemma ShortEscapesExactly(c: char, byte: char)
    ensures ShortEscape(c) == Some(byte) <==>
            exists i :: 0 <= i < |SHORT_LETTERS| && SHORT_LETTERS[i] == c && SHORT_BYTES[i] == byte as int
  {
    if ShortEscape(c) == Some(byte) {
      var i := if c == '\"' then 0 else if c == '\\' then 1 else if c == '/' then 2 else if c == 'b' then 3
               else if c == 'f' then 4 else if c == 'n' then 5 else if c == 'r' then 6 else 7;
      assert SHORT_LETTERS[i] == c && SHORT_BYTES[i] == byte as int;
    }
  }

  function Prepend(head: string, tail: Option<Literal>): Option<Literal> {
    if tail.None? then None else Some(Literal(head + tail.value.text, tail.value.rest))
  }

  function ReadLiteral(t: string): (r: Option<Literal>)
    ensures r.Some? ==> |r.value.rest| < |t|
    decreases |t|
  {
    if t == "" || t[0] as int < 0x20 then None
    else if t[0] == '\"' then Some(Literal("", t[1..]))
    else if t[0] != '\\' then Prepend([t[0]], ReadLiteral(t[1..]))
    else if |t| < 2 then None
    else if t[1] != 'u' then
      if ShortEscape(t[1]).None? then None else Prepend([ShortEscape(t[1]).value], ReadLiteral(t[2..]))
    else
      var unit := HexUnit(t[2..]);
      if unit.None? then None
      else if IsScalar(unit.value) then Prepend(EncodeRune(unit.value), ReadLiteral(t[6..]))
      else if unit.value >= 0xDC00 || |t| < 12 || t[6] != '\\' || t[7] != 'u' then None
      else
        var low := HexUnit(t[8..]);
        if low.None? || !(0xDC00 <= low.value < 0xE000) then None
        else
          Prepend(EncodeRune(0x10000 + (unit.value - 0xD800) * 1024 + (low.value - 0xDC00)), ReadLiteral(t[12..]))
  }

  /** Bytes from 0x80 up are read one at a time, unchanged. */
  lemma {:induction false} ReadPlain(head: string, t: string)
    requires forall k :: 0 <= k < |head| ==> head[k] as int >= 0x20 && head[k] != '\"' && head[k] != '\\'
    ensures ReadLiteral(head + t) == Prepend(head, ReadLiteral(t))
  {
    hide HexUnit, EncodeRune, ShortEscape;
    if head == "" {
      assert head + t == t;
      if ReadLiteral(t).Some? {
        assert "" + ReadLiteral(t).value.text == ReadLiteral(t).value.text;
      }
    } else {
      assert (head + t)[1..] == head[1..] + t;
      ReadPlain(head[1..], t);
      if ReadLiteral(t).Some? {
        assert [head[0]] + (head[1..] + ReadLiteral(t).value.text) == head + ReadLiteral(t).value.text;
      }
    }
  }

  lemma ReadEscape(r: int, t: string)
    requires IsScalar(r)
    ensures ReadLiteral(EscapeRune(r) + t) == Prepend(EncodeRune(r), ReadLiteral(t))
  {
    var e := EscapeRune(r);
    if r == 0x22 || r == 0x5C || (r <= 0x0D && r >= 0x08 && r != 0x0B) {
      assert |e| == 2 && e[0] == '\\' && ShortEscape(e[1]) == Some(r as char) && e[1] != 'u';
      ReadShort(e[1], t);
      assert e + t == ['\\', e[1]] + t;
    } else if r <= 0x1F {
      ReadHex(r, t);
    } else {
      ReadPlain(e, t);
    }
  }

  lemma ReadShort(c: char, t: string)
    requires c != 'u' && ShortEscape(c).Some?
    ensures ReadLiteral(['\\', c] + t) == Prepend([ShortEscape(c).value], ReadLiteral(t))
  {
    assert (['\\', c] + t)[2..] == t;
  }

  lemma ReadHex(r: nat, t: string)
    requires r <= 0x1F
    ensures var e := ['\\', 'u', '0', '0', HexDigit(r / 16), HexDigit(r % 16)];
      ReadLiteral(e + t) == Prepend(EncodeRune(r), ReadLiteral(t))
  {
    var u := ['\\', 'u', '0', '0', HexDigit(r / 16), HexDigit(r % 16)] + t;
    HexDigitValue(r / 16);
    HexDigitValue(r % 16);
    assert u[6..] == t;
    var d := u[2..];
    assert d[0] == '0' && d[1] == '0' && d[2] == HexDigit(r / 16) && d[3] == HexDigit(r % 16);
    assert HexUnit(d) == Some(r);
    hide HexUnit, HexDigit, ShortEscape;
  }

  const LOWER_DIGITS := "0123456789abcdef"
  const UPPER_DIGITS := "0123456789ABCDEF"

  /** Hexadecimal digits are written in lower case and read in either. */
  lemma HexExactly(c: char, v: nat)
    requires v < 16
    ensures HexDigit(v) == LOWER_DIGITS[v]
    ensures HexValue(c) == Some(v) <==> c == LOWER_DIGITS[v] || c == UPPER_DIGITS[v]
  {
  }

  lemma HexDigitValue(v: nat)
    requires v < 16
    ensures HexValue(HexDigit(v)) == Some(v)
  {
  }

  /** The UTF-16 form of a scalar value (section 2.1 of RFC 2781): one unit, or a high surrogate and a low one. */
  function Utf16(r: int): (units: seq<nat>)
    requires IsScalar(r)
    ensures forall i :: 0 <= i < |units| ==> units[i] < 0x10000
  {
    if r < 0x10000 then [r] else [0xD800 + (r - 0x10000) / 1024, 0xDC00 + (r - 0x10000) % 1024]
  }

  /** A code unit as an escape. */
  function UnitEscape(u: nat): (s: string)
    requires u < 0x10000
    ensures |s| == 6
  {
    ['\\', 'u', HexDigit(u / 4096), HexDigit(u / 256 % 16), HexDigit(u / 16 % 16), HexDigit(u % 16)]
  }

  lemma UnitDigits(u: nat)
    requires u < 0x10000
    ensures u == u / 4096 * 4096 + u / 256 % 16 * 256 + u / 16 % 16 * 16 + u % 16
    ensures u / 4096 < 16
  {
    assert u / 256 / 16 == u / 4096 && u / 16 / 16 == u / 256;
  }

  lemma ReadUnit(u: nat, t: string)
    requires u < 0x10000
    ensures var s := UnitEscape(u) + t; s[0] == '\\' && s[1] == 'u' && s[6..] == t && HexUnit(s[2..]) == Some(u)
  {
    UnitDigits(u);
    HexDigitValue(u / 4096);
    HexDigitValue(u / 256 % 16);
    HexDigitValue(u / 16 % 16);
    HexDigitValue(u % 16);
    hide HexDigit, HexValue;
    var d := (UnitEscape(u) + t)[2..];
    assert d[0] == HexDigit(u / 4096) && d[1] == HexDigit(u / 256 % 16) && d[2] == HexDigit(u / 16 % 16) && d[3] == HexDigit(u % 16);
  }

  /** The UTF-8 form of a sequence of scalar values. */
  function Utf8All(scalars: seq<int>): string
    requires forall i :: 0 <= i < |scalars| ==> IsScalar(scalars[i])
  {
    if scalars == [] then ""
    else
      assert IsScalar(scalars[0]);
      EncodeRune(scalars[0]) + Utf8All(scalars[1..])
  }

  lemma {:induction false} CountShift(head: string, t: string, i: nat)
    requires i <= |t|
    ensures RuneCountFrom(head + t, |head| + i) == RuneCountFrom(t, i)
    decreases |t| - i
  {
    if i < |t| {
      var u := head + t;
      forall k | i <= k < |t| ensures u[|head| + k] == t[k] {}
      assert DecodeRune(u, |head| + i) == DecodeRune(t, i);
      hide DecodeRune;
      CountShift(head, t, i + DecodeRune(t, i).size);
    }
  }

  /** The UTF-8 form of scalar values is well-formed, and has one rune for each of them. */
  lemma {:induction false} RunesAreCounted(scalars: seq<int>)
    requires forall i :: 0 <= i < |scalars| ==> IsScalar(scalars[i])
    ensures ValidString(Utf8All(scalars)) && RuneCount(Utf8All(scalars)) == |scalars|
  {
    hide EncodeRune, DecodeRune, RuneAt, LeadSize;
    if scalars != [] {
      var head, t := EncodeRune(scalars[0]), Utf8All(scalars[1..]);
      RunesAreCounted(scalars[1..]);
      EncodedRuneIsWellFormed(scalars[0], t);
      DecodeThenEncode(head + t, 0);
      ValidShift(head, t, 0);
      CountShift(head, t, 0);
    }
  }

  /** Escapes of a scalar's UTF-16 units, one or a surrogate pair, are read as its UTF-8 bytes. */
  lemma ReadUtf16(r: int, t: string)
    requires IsScalar(r)
    ensures var units := Utf16(r);
      var escapes := UnitEscape(units[0]) + if |units| == 1 then "" else UnitEscape(units[1]);
      ReadLiteral(escapes + t) == Prepend(EncodeRune(r), ReadLiteral(t))
  {
    hide HexUnit, UnitEscape, EncodeRune, ShortEscape;
    if r < 0x10000 {
      ReadUnit(r, t);
      assert UnitEscape(r) + "" == UnitEscape(r);
    } else {
      var high, low := Utf16(r)[0], Utf16(r)[1];
      var rest := UnitEscape(low) + t;
      var s := UnitEscape(high) + rest;
      ReadUnit(high, rest);
      ReadUnit(low, t);
      assert UnitEscape(high) + UnitEscape(low) + t == s;
      assert s[6..] == rest && s[8..] == rest[2..] && s[12..] == t;
      assert 0x10000 + (high - 0xD800) * 1024 + (low - 0xDC00) == r;
    }
  }

  /** The value with every ill-formed byte replaced by U+FFFD: what ranging over the runes sees. */
  function Sanitized(s: string, i: nat): string
    requires i <= |s|
    decreases |s| - i
  {
    if i == |s| then ""
    else
      DecodeThenEncode(s, i);
      EncodeRune(DecodeRune(s, i).value) + Sanitized(s, i + DecodeRune(s, i).size)
  }

  lemma {:induction false} ReadQuoted(s: string, i: nat, rest: string)
    requires i <= |s|
    ensures ReadLiteral(Escaped(s, i) + "\"" + rest) == Some(Literal(Sanitized(s, i), rest))
    decreases |s| - i
  {
    hide EncodeRune, DecodeRune, RuneAt, EscapeRune;
    if i == |s| {
      assert Escaped(s, i) + "\"" + rest == "\"" + rest;
    } else {
      DecodeThenEncode(s, i);
      var r := DecodeRune(s, i);
      var tail := Escaped(s, i + r.size) + "\"" + rest;
      ReadQuoted(s, i + r.size, rest);
      ReadEscape(r.value, tail);
      Associate(EscapeRune(r.value), Escaped(s, i + r.size), "\"", rest);
    }
  }

  /** Well-formed text is its own sanitised form. */
  lemma {:induction false} SanitizedValid(s: string, i: nat)
    requires i <= |s| && ValidFrom(s, i)
    ensures Sanitized(s, i) == s[i..]
    decreases |s| - i
  {
    hide EncodeRune, DecodeRune, RuneAt, LeadSize;
    if i < |s| {
      DecodeThenEncode(s, i);
      var n := DecodeRune(s, i).size;
      SanitizedValid(s, i + n);
      assert s[i..] == s[i..i + n] + s[i + n..];
    }
  }

  lemma EncodedRuneIsWellFormed(r: int, t: string)
    requires IsScalar(r)
    ensures var e := EncodeRune(r); RuneAt(e + t, 0) && LeadSize((e + t)[0] as int) == |e|
  {
    var e := EncodeRune(r);
    var u := e + t;
    assert forall k :: 0 <= k < |e| ==> u[k] == e[k];
    if r >= 0x10000 {
      var a := r / 64 / 64 / 64;
      assert r / 64 / 64 == a * 64 + r / 64 / 64 % 64;
    } else if r >= 0x800 {
      assert r / 64 == r / 64 / 64 * 64 + r / 64 % 64;
    }
  }

  lemma {:induction false} ValidShift(head: string, t: string, i: nat)
    requires i <= |t|
    ensures ValidFrom(head + t, |head| + i) == ValidFrom(t, i)
    decreases |t| - i
  {
    if i < |t| {
      var u := head + t;
      forall k | i <= k < |t| ensures u[|head| + k] == t[k] {}
      assert RuneAt(u, |head| + i) == RuneAt(t, i);
      if RuneAt(t, i) {
        ValidShift(head, t, i + LeadSize(t[i] as int));
      }
    }
  }

  /** Whatever went in, what the runes spell is well-formed. */
  lemma {:induction false} SanitizedIsValid(s: string, i: nat)
    requires i <= |s|
    ensures ValidString(Sanitized(s, i))
    decreases |s| - i
  {
    hide EncodeRune, DecodeRune, RuneAt;
    if i < |s| {
      DecodeThenEncode(s, i);
      var r := DecodeRune(s, i);
      var t := Sanitized(s, i + r.size);
      SanitizedIsValid(s, i + r.size);
      EncodedRuneIsWellFormed(r.value, t);
      ValidShift(EncodeRune(r.value), t, 0);
    }
  }

  /**
   A quoted string reads back as itself exactly when it is well-formed UTF-8, which is
   why the encoder validates first: ill-formed values of different bytes can share a form.
   */
  lemma QuoteRoundTrip(s: string, rest: string)
    ensures ReadLiteral((Quote(s) + rest)[1..]).Some?
    ensures ReadLiteral((Quote(s) + rest)[1..]).value.rest == rest
    ensures ReadLiteral((Quote(s) + rest)[1..]).value.text == s <==> ValidString(s)
  {
    assert (Quote(s) + rest)[1..] == Escaped(s, 0) + "\"" + rest;
    ReadQuoted(s, 0, rest);
    SanitizedIsValid(s, 0);
    if ValidString(s) {
      SanitizedValid(s, 0);
      assert s[0..] == s;
    }
  }

  lemma IllFormedBytesCollide()
    ensures Quote([0x80 as char]) == Quote([0x81 as char])
  {
    var a, b := [0x80 as char], [0x81 as char];
    assert DecodeRune(a, 0) == Rune(RUNE_ERROR, 1) == DecodeRune(b, 0);
    assert Escaped(a, 1) == "" == Escaped(b, 1);
  }
}
