/**
 The surrogate scanner (validateJSONUnicodeEscapes in internal/strictsource/source.go, and the
 same loop again in internal/jsonvalue/object.go) against a lexer that decodes every string.
 */
module EscapeScanner {
  import opened Wrappers
  import opened Quoting

  /** jsonHexCodeUnit. */
  function HexAt(s: string, start: nat): (u: Option<nat>)
    ensures u.Some? ==> start + 4 <= |s|
  {
    if start + 4 > |s| then None else HexUnit(s[start..start + 4])
  }

  predicate IsHigh(u: nat) {
    0xD800 <= u <= 0xDBFF
  }

  predicate IsLow(u: nat) {
    0xDC00 <= u <= 0xDFFF
  }

  // The reference: lex the text into strings, decode each into UTF-16 code units, look for lone surrogates.

  datatype Lexed = Lexed(units: seq<nat>, next: nat)

  function Unit(u: nat, rest: Option<Lexed>): Option<Lexed> {
    if rest.None? then None else Some(Lexed([u] + rest.value.units, rest.value.next))
  }

  /**
   The code units of the string whose contents start at `i`, and where the text goes on after it.
   Bytes outside escapes belong to well-formed UTF-8 and spell no surrogate, so they stand for themselves.
   */
  function LexString(s: string, i: nat): (r: Option<Lexed>)
    requires i <= |s|
    ensures r.Some? ==> i < r.value.next <= |s|
    decreases |s| - i
  {
    if i == |s| then None
    else if s[i] == '\"' then Some(Lexed([], i + 1))
    else if s[i] != '\\' then Unit(s[i] as int, LexString(s, i + 1))
    else if i + 1 == |s| then None
    else if s[i + 1] != 'u' then
      if ShortEscape(s[i + 1]).None? then None else Unit(ShortEscape(s[i + 1]).value as int, LexString(s, i + 2))
    else if HexAt(s, i + 2).None? then None
    else Unit(HexAt(s, i + 2).value, LexString(s, i + 6))
  }

  /** No surrogate without its partner (section 8.2 of RFC 8259). */
  predicate Paired(units: seq<nat>) {
    units == [] ||
    (if IsHigh(units[0]) then |units| >= 2 && IsLow(units[1]) && Paired(units[2..])
     else !IsLow(units[0]) && Paired(units[1..]))
  }

  /** Whether every string from `i` on is well paired; None when the text cannot be lexed. */
  function Verdict(s: string, i: nat): Option<bool>
    requires i <= |s|
    decreases |s| - i
  {
    if i == |s| then Some(true)
    else if s[i] == '\\' then None
    else if s[i] != '\"' then Verdict(s, i + 1)
    else
      var lexed := LexString(s, i + 1);
      if lexed.None? then None
      else
        var rest := Verdict(s, lexed.value.next);
        if rest.None? then None else Some(Paired(lexed.value.units) && rest.value)
  }

  // The scanner

  /** What the loop answers from index `i` with the given flag. */
  function Scan(s: string, i: nat, inString: bool): bool
    decreases |s| - i
  {
    if i >= |s| then true
    else if s[i] == '\"' then Scan(s, i + 1, !inString)
    else if s[i] != '\\' || !inString || i + 1 >= |s| then Scan(s, i + 1, inString)
    else if s[i + 1] != 'u' then Scan(s, i + 2, inString)
    else
      var code := HexAt(s, i + 2);
      if code.None? then Scan(s, i + 1, inString)
      else if IsLow(code.value) then false
      else if IsHigh(code.value) then
        && i + 12 <= |s| && s[i + 6] == '\\' && s[i + 7] == 'u'
        && HexAt(s, i + 8).Some? && IsLow(HexAt(s, i + 8).value)
        && Scan(s, i + 12, inString)
      else Scan(s, i + 6, inString)
  }

  /** The loop: an index that jumps over escapes and a flag that flips at quotes. */
  method ValidateEscapes(source: string) returns (ok: bool)
    ensures ok == Scan(source, 0, false)
  {
    var inString := false;
    var i := 0;
    while i < |source|
      invariant 0 <= i
      invariant Scan(source, i, inString) == Scan(source, 0, false)
    {
      if source[i] == '\"' {
        inString := !inString;
      } else if source[i] == '\\' {
        if inString && i + 1 < |source| {
          if source[i + 1] != 'u' {
            i := i + 1;
          } else {
            var code := HexAt(source, i + 2);
            if code.Some? {
              if IsLow(code.value) {
                return false;
              }
              if IsHigh(code.value) {
                if i + 12 > |source| || source[i + 6] != '\\' || source[i + 7] != 'u' {
                  return false;
                }
                var low := HexAt(source, i + 8);
                if low.None? || !IsLow(low.value) {
                  return false;
                }
                i := i + 11;
              } else {
                i := i + 5;
              }
            }
          }
        }
      }
      i := i + 1;
    }
    return true;
  }

  // Agreement

  /** A lexed string starts with a low surrogate exactly when the text has that escape there. */
  lemma StartsLow(s: string, i: nat)
    requires i <= |s| && LexString(s, i).Some?
    ensures var units := LexString(s, i).value.units;
      (units != [] && IsLow(units[0])) <==>
        i + 6 <= |s| && s[i] == '\\' && s[i + 1] == 'u' && HexAt(s, i + 2).Some? && IsLow(HexAt(s, i + 2).value)
  {
    hide HexUnit;
  }

  lemma ScannedHigh(s: string, i: nat)
    requires i + 6 <= |s| && s[i] == '\\' && s[i + 1] == 'u'
    requires HexAt(s, i + 2).Some? && IsHigh(HexAt(s, i + 2).value)
    requires LexString(s, i + 6).Some?
    ensures LexString(s, i).Some? && LexString(s, i).value.next == LexString(s, i + 6).value.next
    ensures var units := LexString(s, i + 6).value.units;
      && (Scan(s, i, true) ==> units != [] && IsLow(units[0]))
      && (units != [] && IsLow(units[0]) ==>
            && Scan(s, i, true) == Scan(s, i + 12, true)
            && i + 12 <= |s| && LexString(s, i + 12).Some?
            && LexString(s, i + 12).value.units == units[1..]
            && LexString(s, i + 12).value.next == LexString(s, i + 6).value.next
            && Paired(LexString(s, i).value.units) == Paired(units[1..]))
      && (!(units != [] && IsLow(units[0])) ==> !Paired(LexString(s, i).value.units))
  {
    hide HexUnit;
    StartsLow(s, i + 6);
    var units := LexString(s, i + 6).value.units;
    assert LexString(s, i).value.units == [HexAt(s, i + 2).value] + units;
    if units != [] {
      assert ([HexAt(s, i + 2).value] + units)[2..] == units[1..];
    }
  }

  /** Within a string the scanner goes on after it exactly when its units are well paired. */
  lemma {:induction false} ScanString(s: string, i: nat)
    requires i <= |s| && LexString(s, i).Some?
    ensures Scan(s, i, true) == (Paired(LexString(s, i).value.units) && Scan(s, LexString(s, i).value.next, false))
    decreases |s| - i
  {
    hide HexUnit, ShortEscape;
    if s[i] == '\"' {
    } else if s[i] != '\\' {
      ScanString(s, i + 1);
      PairedTail(s[i] as int, LexString(s, i + 1).value.units);
    } else if s[i + 1] != 'u' {
      ScanString(s, i + 2);
      PairedTail(ShortEscape(s[i + 1]).value as int, LexString(s, i + 2).value.units);
    } else if IsHigh(HexAt(s, i + 2).value) {
      ScannedHigh(s, i);
      var units := LexString(s, i + 6).value.units;
      if units != [] && IsLow(units[0]) {
        ScanString(s, i + 12);
      }
    } else {
      ScanString(s, i + 6);
      PairedTail(HexAt(s, i + 2).value, LexString(s, i + 6).value.units);
    }
  }

  lemma PairedTail(u: nat, units: seq<nat>)
    requires !IsHigh(u)
    ensures Paired([u] + units) <==> !IsLow(u) && Paired(units)
  {
    assert ([u] + units)[1..] == units;
  }

  /** The UTF-16 form of a sequence of scalar values. */
  ghost function Utf16All(scalars: seq<int>): seq<nat>
    requires forall i :: 0 <= i < |scalars| ==> IsScalar(scalars[i])
  {
    if scalars == [] then [] else Utf16(scalars[0]) + Utf16All(scalars[1..])
  }

  ghost predicate Spells(units: seq<nat>, scalars: seq<int>) {
    (forall i :: 0 <= i < |scalars| ==> IsScalar(scalars[i])) && units == Utf16All(scalars)
  }

  lemma {:induction false} PairedSpells(units: seq<nat>) returns (scalars: seq<int>)
    requires Paired(units) && forall i :: 0 <= i < |units| ==> units[i] < 0x10000
    ensures Spells(units, scalars)
  {
    if units == [] {
      scalars := [];
    } else if IsHigh(units[0]) {
      var others := PairedSpells(units[2..]);
      var r := 0x10000 + (units[0] - 0xD800) * 1024 + (units[1] - 0xDC00);
      scalars := [r] + others;
      assert scalars[1..] == others;
      assert Utf16(r) == [units[0], units[1]];
      assert units == [units[0], units[1]] + units[2..];
    } else {
      var others := PairedSpells(units[1..]);
      scalars := [units[0]] + others;
      assert scalars[1..] == others;
      assert units == [units[0]] + units[1..];
    }
  }

  lemma {:induction false} SpelledIsPaired(scalars: seq<int>)
    requires forall i :: 0 <= i < |scalars| ==> IsScalar(scalars[i])
    ensures Paired(Utf16All(scalars))
  {
    if scalars != [] {
      SpelledIsPaired(scalars[1..]);
      var rest := Utf16All(scalars[1..]);
      var units := Utf16(scalars[0]) + rest;
      assert units[|Utf16(scalars[0])|..] == rest;
    }
  }

  /** Well paired are exactly the code units that some sequence of Unicode scalar values has as its UTF-16 form. */
  lemma PairedExactly(units: seq<nat>)
    requires forall i :: 0 <= i < |units| ==> units[i] < 0x10000
    ensures Paired(units) <==> exists scalars :: Spells(units, scalars)
  {
    hide Paired, Spells;
    if Paired(units) {
      var scalars := PairedSpells(units);
    }
    if scalars :| Spells(units, scalars) {
      SpelledAre(units, scalars);
    }
  }

  lemma SpelledAre(units: seq<nat>, scalars: seq<int>)
    requires Spells(units, scalars)
    ensures Paired(units)
  {
    SpelledIsPaired(scalars);
  }

  /** On every text that lexes into JSON strings, the scanner accepts exactly when no string holds a lone surrogate. */
  lemma {:induction false} ScannerIsExact(s: string, i: nat)
    requires i <= |s| && Verdict(s, i).Some?
    ensures Scan(s, i, false) == Verdict(s, i).value
    decreases |s| - i
  {
    hide LexString, Paired;
    if i < |s| {
      if s[i] == '\"' {
        ScanString(s, i + 1);
        ScannerIsExact(s, LexString(s, i + 1).value.next);
      } else {
        ScannerIsExact(s, i + 1);
      }
    }
  }
}
