/** Line breaks allowed in YAML sources (validateYAMLLineBreaks in internal/strictsource/source.go). */
module LineBreaks {
  import opened Text

  predicate IsForeignBreak(r: int) {
    r == 0x85 || r == 0x2028 || r == 0x2029
  }

  predicate LoneReturn(s: string, i: nat)
    requires i < |s|
  {
    s[i] == '\r' && (i + 1 >= |s| || s[i + 1] != '\n')
  }

  /** What the rune-by-rune scan answers from byte `i`. */
  predicate ScansFrom(s: string, i: nat)
    requires i <= |s|
    decreases |s| - i
  {
    if i == |s| then true
    else
      var rune := DecodeRune(s, i);
      if rune.value == '\r' as int then i + 1 < |s| && s[i + 1] == '\n' && ScansFrom(s, i + 2)
      else !IsForeignBreak(rune.value) && ScansFrom(s, i + rune.size)
  }

  method ValidateLineBreaks(source: string) returns (ok: bool)
    ensures ok <==> ScansFrom(source, 0)
  {
    var offset := 0;
    while offset < |source|
      invariant offset <= |source| && (ScansFrom(source, offset) <==> ScansFrom(source, 0))
    {
      var rune := DecodeRune(source, offset);
      if rune.value == '\r' as int {
        if offset + 1 >= |source| || source[offset + 1] != '\n' {
          return false;
        }
        offset := offset + 2;
        continue;
      }
      if IsForeignBreak(rune.value) {
        return false;
      }
      offset := offset + rune.size;
    }
    return true;
  }

  /** A line break YAML 1.2.2 does not have, seen in the bytes at `i`. */
  predicate BadBytes(s: string, i: nat)
    requires i < |s|
  {
    || LoneReturn(s, i)
    || (i + 1 < |s| && s[i] as int == 0xC2 && s[i + 1] as int == 0x85)
    || (i + 2 < |s| && s[i] as int == 0xE2 && s[i + 1] as int == 0x80 && 0xA8 <= s[i + 2] as int <= 0xA9)
  }

  lemma BadRune(s: string, i: nat)
    requires i < |s| && RuneAt(s, i)
    ensures BadBytes(s, i) <==>
            var r := DecodeRune(s, i).value; IsForeignBreak(r) || (r == '\r' as int && (i + 1 >= |s| || s[i + 1] != '\n'))
    ensures DecodeRune(s, i).size == LeadSize(s[i] as int)
    ensures DecodeRune(s, i).value == '\r' as int <==> s[i] == '\r'
    ensures forall j :: i < j < i + LeadSize(s[i] as int) ==> !BadBytes(s, j)
  {
  }

  /** On well-formed text the scan accepts exactly when no byte position shows a foreign line break. */
  lemma {:induction false} ScanIsExact(s: string, i: nat)
    requires i <= |s| && ValidFrom(s, i)
    ensures ScansFrom(s, i) <==> forall j :: i <= j < |s| ==> !BadBytes(s, j)
    decreases |s| - i
  {
    if i < |s| {
      BadRune(s, i);
      var n := LeadSize(s[i] as int);
      hide BadBytes, DecodeRune, IsForeignBreak;
      ScanIsExact(s, i + n);
      if s[i] == '\r' && i + 1 < |s| && s[i + 1] == '\n' {
        BadRune(s, i + 1);
        ScanIsExact(s, i + 2);
      }
    }
  }
}
