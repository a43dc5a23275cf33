/**
 Go strings. A Go string is a sequence of bytes; here it is a `string` whose
 characters stand for bytes. A character above 0xFF is no byte at all and never
 belongs to well-formed text.
 */
module Text {

  datatype Rune = Rune(value: int, size: nat)

  const RUNE_ERROR := 0xFFFD

  predicate IsContinuation(b: int) {
    0x80 <= b <= 0xBF
  }

  /** The range the second byte must have after the lead byte `lead`, as a pair of bounds. */
  function SecondByteRange(lead: int): (int, int) {
    if lead == 0xE0 then (0xA0, 0xBF)
    else if lead == 0xED then (0x80, 0x9F)
    else if lead == 0xF0 then (0x90, 0xBF)
    else if lead == 0xF4 then (0x80, 0x8F)
    else (0x80, 0xBF)
  }

  /** The number of bytes a lead byte announces, or zero when it can start no rune. */
  function LeadSize(lead: int): (n: nat)
    ensures n <= 4
  {
    if 0 <= lead <= 0x7F then 1
    else if 0xC2 <= lead <= 0xDF then 2
    else if 0xE0 <= lead <= 0xEF then 3
    else if 0xF0 <= lead <= 0xF4 then 4
    else 0
  }

  /** Whether a well-formed rune starts at byte `i`. */
  predicate RuneAt(s: string, i: nat)
    requires i < |s|
  {
    var lead := s[i] as int;
    var n := LeadSize(lead);
    && 1 <= n
    && i + n <= |s|
    && (n >= 2 ==> var (lo, hi) := SecondByteRange(lead); lo <= s[i + 1] as int <= hi)
    && (n >= 3 ==> IsContinuation(s[i + 2] as int))
    && (n >= 4 ==> IsContinuation(s[i + 3] as int))
  }

  /** utf8.DecodeRuneInString(s[i:]): an ill-formed byte is one replacement character. */
  function DecodeRune(s: string, i: nat): (r: Rune)
    requires i < |s|
    ensures 1 <= r.size <= 4 && i + r.size <= |s|
  {
    if !RuneAt(s, i) then Rune(RUNE_ERROR, 1)
    else
      var lead := s[i] as int;
      match LeadSize(lead)
      case 1 => Rune(lead, 1)
      case 2 => Rune((lead - 0xC0) * 64 + (s[i + 1] as int - 0x80), 2)
      case 3 => Rune(((lead - 0xE0) * 64 + (s[i + 1] as int - 0x80)) * 64 + (s[i + 2] as int - 0x80), 3)
      case _ => Rune((((lead - 0xF0) * 64 + (s[i + 1] as int - 0x80)) * 64
                      + (s[i + 2] as int - 0x80)) * 64 + (s[i + 3] as int - 0x80), 4)
  }

  /** utf8.ValidString(s[i:]). */
  predicate ValidFrom(s: string, i: nat)
    requires i <= |s|
    decreases |s| - i
  {
    i == |s| || (RuneAt(s, i) && ValidFrom(s, i + LeadSize(s[i] as int)))
  }

  predicate ValidString(s: string) {
    ValidFrom(s, 0)
  }

  /** utf8.RuneCountInString(s[i:]). */
  function RuneCountFrom(s: string, i: nat): (n: nat)
    requires i <= |s|
    ensures n <= |s| - i
    decreases |s| - i
  {
    if i == |s| then 0 else 1 + RuneCountFrom(s, i + DecodeRune(s, i).size)
  }

  function RuneCount(s: string): (n: nat)
    ensures n <= |s|
  {
    RuneCountFrom(s, 0)
  }

  /** unicode.IsSpace, the set strings.TrimSpace removes. */
  predicate IsUnicodeSpace(r: int) {
    0x09 <= r <= 0x0D || r == 0x20 || r == 0x85 || r == 0xA0 || r == 0x1680
    || 0x2000 <= r <= 0x200A || r == 0x2028 || r == 0x2029 || r == 0x202F || r == 0x205F || r == 0x3000
  }

  /** ECMA-262 white space: U+FEFF belongs to it, U+0085 does not. */
  predicate IsEcmaSpace(r: int) {
    0x09 <= r <= 0x0D || r == 0x20 || r == 0xA0 || r == 0x1680
    || 0x2000 <= r <= 0x200A || r == 0x2028 || r == 0x2029 || r == 0x202F || r == 0x205F || r == 0x3000
    || r == 0xFEFF
  }

  /** Whether s[i:] holds a rune outside the given kind of white space. */
  predicate HasInk(s: string, i: nat, ecma: bool)
    requires i <= |s|
    decreases |s| - i
  {
    i < |s| &&
    (var r := DecodeRune(s, i);
     !(if ecma then IsEcmaSpace(r.value) else IsUnicodeSpace(r.value)) || HasInk(s, i + r.size, ecma))
  }

  /** validateNonBlank and validateBoundedNonBlank. */
  predicate NonBlankText(s: string, maxRunes: nat) {
    ValidString(s) && HasInk(s, 0, false) && RuneCount(s) <= maxRunes
  }

  /** textvalue.ValidECMAText. */
  predicate EcmaText(s: string, maxRunes: nat) {
    ValidString(s) && RuneCount(s) <= maxRunes && HasInk(s, 0, true)
  }

  // The identifier patterns are all one lower-case letter and a bounded tail.

  predicate IsLower(c: char) {
    'a' <= c <= 'z'
  }

  predicate IsDigit(c: char) {
    '0' <= c <= '9'
  }

  predicate IsNameTail(c: char) {
    IsLower(c) || IsDigit(c) || c == '-'
  }

  predicate IsIdentifierTail(c: char) {
    IsNameTail(c) || c == '.' || c == '_'
  }

  /** ^[a-z][a-z0-9._-]{0,maxTail}$ */
  predicate IsIdentifier(s: string, maxTail: nat) {
    1 <= |s| <= maxTail + 1 && IsLower(s[0]) && forall k :: 1 <= k < |s| ==> IsIdentifierTail(s[k])
  }

  /** ^[a-z][a-z0-9-]{0,62}$ */
  predicate IsName(s: string) {
    1 <= |s| <= 63 && IsLower(s[0]) && forall k :: 1 <= k < |s| ==> IsNameTail(s[k])
  }

  predicate IsAlnum(c: char) {
    IsLower(c) || IsDigit(c)
  }

  /** At most 128 bytes of such labels. */
  predicate IsNamespaced(s: string) {
    |s| <= 128 && IsReverseDNS(s)
  }

  /** Two or more dot-separated labels of letters, digits and inner hyphens. */
  predicate IsReverseDNS(s: string) {
    && 0 < |s| && '.' in s && IsAlnum(s[0]) && IsAlnum(s[|s| - 1])
    && forall i :: 0 <= i < |s| ==>
                     && (IsAlnum(s[i]) || s[i] == '-' || s[i] == '.')
                     && (s[i] == '.' ==> 0 < i < |s| - 1 && IsAlnum(s[i - 1]) && IsAlnum(s[i + 1]))
  }

  predicate IsHexDigit(c: char) {
    IsDigit(c) || 'a' <= c <= 'f'
  }

  const DIGEST_PREFIX := "sha256:"

  /** ^sha256:[0-9a-f]{64}$ */
  predicate IsDigest(s: string) {
    |s| == 71 && s[..7] == DIGEST_PREFIX && forall k :: 7 <= k < 71 ==> IsHexDigit(s[k])
  }

  ghost predicate IsAscii(s: string) {
    forall k :: 0 <= k < |s| ==> s[k] as int < 0x80
  }

  lemma {:induction false} AsciiTail(s: string, i: nat)
    requires IsAscii(s) && i <= |s|
    ensures ValidFrom(s, i) && RuneCountFrom(s, i) == |s| - i
    decreases |s| - i
  {
    if i < |s| {
      AsciiTail(s, i + 1);
    }
  }

  /** An identifier is bounded, non-blank text in every sense the validators use. */
  lemma IdentifierIsText(s: string, maxTail: nat)
    requires IsIdentifier(s, maxTail)
    ensures NonBlankText(s, maxTail + 1) && EcmaText(s, maxTail + 1)
  {
    AsciiTail(s, 0);
  }

  /** Whether every rune of s[i:] is white space of one kind or the other. */
  predicate OnlySpaces(s: string, i: nat)
    requires i <= |s|
    decreases |s| - i
  {
    i == |s| ||
    (var r := DecodeRune(s, i);
     (IsUnicodeSpace(r.value) || IsEcmaSpace(r.value)) && OnlySpaces(s, i + r.size))
  }

  /** Whether the rune `value` is in s[i:]. */
  predicate Shows(s: string, i: nat, value: int)
    requires i <= |s|
    decreases |s| - i
  {
    i < |s| && (var r := DecodeRune(s, i); r.value == value || Shows(s, i + r.size, value))
  }

  /** U+FEFF is ink for the one test only, and U+0085 for the other only. */
  lemma {:induction false} InkExactly(s: string, i: nat)
    requires i <= |s|
    ensures HasInk(s, i, false) <==> !OnlySpaces(s, i) || Shows(s, i, 0xFEFF)
    ensures HasInk(s, i, true) <==> !OnlySpaces(s, i) || Shows(s, i, 0x85)
    decreases |s| - i
  {
    if i < |s| {
      InkExactly(s, i + DecodeRune(s, i).size);
    }
  }

  /**
   The two text checks agree exactly when the text fails both for its bytes or its length, or has a rune that is no
   white space at all, or shows both of the disputed runes or neither.
   */
  lemma BlankTestsAgree(s: string, maxRunes: nat)
    ensures (NonBlankText(s, maxRunes) <==> EcmaText(s, maxRunes)) <==>
            !ValidString(s) || RuneCount(s) > maxRunes || !OnlySpaces(s, 0) || (Shows(s, 0, 0xFEFF) <==> Shows(s, 0, 0x85))
  {
    InkExactly(s, 0);
  }

  /** So neither check implies the other. */
  lemma BlankNotionsDiffer()
    ensures NonBlankText([0xEF as char, 0xBB as char, 0xBF as char], 128)
    ensures !EcmaText([0xEF as char, 0xBB as char, 0xBF as char], 128)
    ensures EcmaText([0xC2 as char, 0x85 as char], 128)
    ensures !NonBlankText([0xC2 as char, 0x85 as char], 128)
  {
    var feff := [0xEF as char, 0xBB as char, 0xBF as char];
    assert DecodeRune(feff, 0) == Rune(0xFEFF, 3);
    assert ValidFrom(feff, 3) && !HasInk(feff, 3, true);
    var nel := [0xC2 as char, 0x85 as char];
    assert DecodeRune(nel, 0) == Rune(0x85, 2);
    assert ValidFrom(nel, 2) && !HasInk(nel, 2, false);
  }
}
