/** Bounding of diagnostic messages (boundedMessage in evaluator/profile/validate.go). */
module Diagnostics {
  import opened Text

  const MAX_DIAGNOSTIC := 512
  const ELLIPSIS := "..."

  /** utf8.RuneStart. */
  predicate RuneStart(c: char) {
    !IsContinuation(c as int)
  }

  /** The last place at or before `end` where a rune may start, or zero. */
  function CutAt(message: string, end: nat): (cut: nat)
    requires end < |message|
    ensures cut <= end && (cut > 0 ==> RuneStart(message[cut]))
    ensures forall i :: cut < i <= end ==> IsContinuation(message[i] as int)
  {
    if end == 0 || RuneStart(message[end]) then end else CutAt(message, end - 1)
  }

  function Bounded(message: string): (r: string)
    ensures |r| <= MAX_DIAGNOSTIC
  {
    if |message| <= MAX_DIAGNOSTIC then message else message[..CutAt(message, MAX_DIAGNOSTIC - 3)] + ELLIPSIS
  }

  method BoundedMessage(message: string) returns (r: string)
    ensures r == Bounded(message)
  {
    if |message| <= MAX_DIAGNOSTIC {
      return message;
    }
    var end := MAX_DIAGNOSTIC - 3;
    while end > 0 && !RuneStart(message[end])
      invariant 0 <= end <= MAX_DIAGNOSTIC - 3
      invariant CutAt(message, end) == CutAt(message, MAX_DIAGNOSTIC - 3)
    {
      end := end - 1;
    }
    return message[..end] + ELLIPSIS;
  }

  lemma SameRune(s: string, t: string, i: nat)
    requires i < |s| && RuneAt(s, i) && i + LeadSize(s[i] as int) <= |t|
    requires t[i..i + LeadSize(s[i] as int)] == s[i..i + LeadSize(s[i] as int)]
    ensures RuneAt(t, i) && t[i] == s[i]
  {
    var n := LeadSize(s[i] as int);
    assert forall j :: i <= j < i + n ==> t[j] == t[i..i + n][j - i] && s[j] == s[i..i + n][j - i];
  }

  /** No byte inside a rune can start one. */
  lemma NoStartInside(s: string, i: nat, cut: nat)
    requires i < |s| && RuneAt(s, i) && i < cut < |s| && RuneStart(s[cut])
    ensures i + LeadSize(s[i] as int) <= cut
  {
  }

  /** Well-formed text cut where a rune may start is well formed on the left of the cut, whatever follows it is. */
  lemma {:induction false} ValidUpTo(s: string, i: nat, cut: nat, tail: string)
    requires i <= cut < |s| && ValidFrom(s, i) && (cut == i || RuneStart(s[cut]))
    requires ValidString(tail)
    ensures ValidFrom(s[..cut] + tail, i)
    decreases cut - i
  {
    var t := s[..cut] + tail;
    if i == cut {
      ValidAfter(s[..cut], tail, 0);
    } else {
      var n := LeadSize(s[i] as int);
      NoStartInside(s, i, cut);
      assert t[i..i + n] == s[i..i + n];
      SameRune(s, t, i);
      ValidUpTo(s, i + n, cut, tail);
    }
  }

  lemma {:induction false} ValidAfter(head: string, tail: string, i: nat)
    requires i <= |tail| && ValidFrom(tail, i)
    ensures ValidFrom(head + tail, |head| + i)
    decreases |tail| - i
  {
    if i < |tail| {
      var n := LeadSize(tail[i] as int);
      assert forall j :: |head| + i <= j < |head| + i + n ==> (head + tail)[j] == tail[j - |head|];
      ValidAfter(head, tail, i + n);
    }
  }

  /** In well-formed text at most three continuation bytes stand in a row. */
  lemma {:induction false} StartsAreNear(s: string, i: nat, end: nat)
    requires i <= end < |s| && ValidFrom(s, i) && RuneStart(s[i])
    ensures CutAt(s, end) + 3 >= end && CutAt(s, end) >= i
    decreases end - i
  {
    var n := LeadSize(s[i] as int);
    if i + n <= end {
      NextStart(s, i + n);
      StartsAreNear(s, i + n, end);
    }
  }

  lemma NextStart(s: string, i: nat)
    requires i < |s| && ValidFrom(s, i)
    ensures RuneStart(s[i])
  {
  }

  /**
   A truncated message is a prefix of the original and an ellipsis within the limit; bounding twice changes nothing more;
   well-formed text stays well formed and gives up at most the rune that crosses the limit.
   */
  lemma TruncationIsSafe(message: string)
    ensures Bounded(Bounded(message)) == Bounded(message)
    ensures |message| <= MAX_DIAGNOSTIC ==> Bounded(message) == message
    ensures |message| > MAX_DIAGNOSTIC ==>
              exists cut: nat :: cut <= MAX_DIAGNOSTIC - 3 && Bounded(message) == message[..cut] + ELLIPSIS
                                 && (ValidString(message) ==> cut >= MAX_DIAGNOSTIC - 6)
    ensures ValidString(message) ==> ValidString(Bounded(message))
  {
    if |message| > MAX_DIAGNOSTIC {
      var cut := CutAt(message, MAX_DIAGNOSTIC - 3);
      if ValidString(message) {
        AsciiTail(ELLIPSIS, 0);
        NextStart(message, 0);
        StartsAreNear(message, 0, MAX_DIAGNOSTIC - 3);
        ValidUpTo(message, 0, cut, ELLIPSIS);
      }
      assert Bounded(message) == message[..cut] + ELLIPSIS;
    }
  }

  /** A message too long is cut to the bare ellipsis exactly when no rune can start where the cut looks for one. */
  lemma LostExactly(message: string)
    requires |message| > MAX_DIAGNOSTIC
    ensures Bounded(message) == ELLIPSIS <==>
            forall i :: 1 <= i <= MAX_DIAGNOSTIC - 3 ==> IsContinuation(message[i] as int)
  {
    var cut := CutAt(message, MAX_DIAGNOSTIC - 3);
    assert |Bounded(message)| == cut + |ELLIPSIS|;
    assert cut == 0 ==> Bounded(message) == ELLIPSIS;
  }

  /** So text of continuation bytes only loses everything. */
  lemma ContinuationRunIsLost(message: string)
    requires |message| > MAX_DIAGNOSTIC && forall i :: 0 <= i < |message| ==> IsContinuation(message[i] as int)
    ensures Bounded(message) == ELLIPSIS
  {
    LostExactly(message);
  }
}
