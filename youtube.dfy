/** `getYouTubeID` of services/dataService.ts: its regular expression written
    out as a matcher.  The expression skips any text, then needs one of six
    markers (`youtu` and any character and `/`; `v/`; `u/`, a word character
    and `/`; `embed/`; `watch?v=`; `&v=`), then captures the run that follows.

    The leading skip is greedy and cannot cross a line terminator, so the match
    settles on the RIGHTMOST position, before the first line terminator, at
    which one of the six markers occurs.  The markers begin with six different
    characters, so at most one of them matches at a position.  The capture is
    the longest run after the marker free of `#`, `&` and `?`; the trailing
    skip always succeeds, so nothing after the capture can undo the match.
    The capture is the video id only when it is exactly 11 characters long. */
module YouTube {
  import opened Text
  import opened Optional

  const IdLength: nat := 11

  /** The characters that end the capture. */
  predicate IsCaptureStop(c: char) {
    c == '#' || c == '&' || c == '?'
  }

  /** The length of the marker that matches at position `p`, or 0 if none does. */
  function MarkerLength(s: string, p: nat): (n: nat)
    requires p <= |s|
    ensures n > 0 ==> p + n <= |s|
  {
    var t := s[p..];
    if |t| >= 9 && t[..5] == "youtu" && !IsLineTerminator(t[5]) && t[6..9] == "be/" then 9
    else if StartsWith(t, "v/") then 2
    else if |t| >= 4 && t[..2] == "u/" && IsWordChar(t[2]) && t[3] == '/' then 4
    else if StartsWith(t, "embed/") then 6
    else if StartsWith(t, "watch?v=") then 8
    else if StartsWith(t, "&v=") then 3
    else 0
  }

  /** No line terminator occurs before position `p`: the leading skip can span `s[..p]`. */
  predicate NoLineTerminatorBefore(s: string, p: nat)
    requires p <= |s|
  {
    forall i :: 0 <= i < p ==> !IsLineTerminator(s[i])
  }

  /** The position of the first line terminator, or `|s|`. */
  function FirstLineTerminator(s: string): (k: nat)
    ensures k <= |s|
    ensures NoLineTerminatorBefore(s, k)
    ensures k < |s| ==> IsLineTerminator(s[k])
  {
    if s == [] || IsLineTerminator(s[0]) then 0
    else
      var k := FirstLineTerminator(s[1..]);
      assert forall i :: 1 <= i < k + 1 ==> s[i] == s[1..][i - 1];
      k + 1
  }

  /** The rightmost marker position at or below `p`. */
  function LastMarker(s: string, p: nat): (m: Option<nat>)
    requires p <= |s|
    ensures m.Some? ==> m.value <= p && MarkerLength(s, m.value) > 0
    ensures m.Some? ==> forall q :: m.value < q <= p ==> MarkerLength(s, q) == 0
    ensures m.None? ==> forall q :: 0 <= q <= p ==> MarkerLength(s, q) == 0
    decreases p
  {
    if MarkerLength(s, p) > 0 then Some(p)
    else if p == 0 then None
    else LastMarker(s, p - 1)
  }

  /** The capture: the longest prefix of `t` without a stop character. */
  function Capture(t: string): (c: string)
    ensures |c| <= |t| && c == t[..|c|]
    ensures forall i :: 0 <= i < |c| ==> !IsCaptureStop(c[i])
    ensures |c| < |t| ==> IsCaptureStop(t[|c|])
  {
    if t == [] || IsCaptureStop(t[0]) then []
    else
      var c := Capture(t[1..]);
      assert t[..|c| + 1] == [t[0]] + c;
      [t[0]] + c
  }

  /** `p` is where the regular expression's marker group matches: a marker
      starts at `p`, the prefix before `p` has no line terminator, and no
      later such position carries a marker. */
  predicate IsMatchPosition(s: string, p: nat)
    requires p <= |s|
  {
    && NoLineTerminatorBefore(s, p)
    && MarkerLength(s, p) > 0
    && forall q :: p < q <= |s| && NoLineTerminatorBefore(s, q) ==> MarkerLength(s, q) == 0
  }

  /** The capture group of the match at `p`. */
  function CaptureAt(s: string, p: nat): string
    requires p <= |s| && MarkerLength(s, p) > 0
  {
    Capture(s[p + MarkerLength(s, p)..])
  }

  /** `getYouTubeID(url)`: the 11-character video id, or None (`null`). */
  function YouTubeID(url: string): (id: Option<string>)
    ensures id.Some? ==> |id.value| == IdLength
    ensures id.Some? ==> forall i :: 0 <= i < |id.value| ==> !IsCaptureStop(id.value[i])
    ensures id.Some? ==> exists p :: 0 <= p <= |url| && IsMatchPosition(url, p) && id.value == CaptureAt(url, p)
    ensures id.None? ==> forall p :: 0 <= p <= |url| && IsMatchPosition(url, p) ==> |CaptureAt(url, p)| != IdLength
  {
    var k := FirstLineTerminator(url);
    match LastMarker(url, k)
    case None =>
      NoMatchPosition(url, k);
      None
    case Some(p) =>
      MatchPositionIsLast(url, k, p);
      var c := CaptureAt(url, p);
      if |c| == IdLength then Some(c) else None
  }

  /** Any position the leading skip can reach lies at or before the first line terminator. */
  lemma ReachableBeforeFirstTerminator(s: string, q: nat)
    requires q <= |s| && NoLineTerminatorBefore(s, q)
    ensures q <= FirstLineTerminator(s)
  {
  }

  lemma NoMatchPosition(s: string, k: nat)
    requires k == FirstLineTerminator(s)
    requires LastMarker(s, k).None?
    ensures forall p :: 0 <= p <= |s| ==> !IsMatchPosition(s, p)
  {
    forall p | 0 <= p <= |s| && NoLineTerminatorBefore(s, p)
      ensures MarkerLength(s, p) == 0
    {
      ReachableBeforeFirstTerminator(s, p);
    }
  }

  /** The rightmost marker before the first line terminator is the match
      position, and it is the only one. */
  lemma MatchPositionIsLast(s: string, k: nat, p: nat)
    requires k == FirstLineTerminator(s)
    requires LastMarker(s, k) == Some(p)
    ensures IsMatchPosition(s, p)
    ensures forall p' :: 0 <= p' <= |s| && IsMatchPosition(s, p') ==> p' == p
  {
    assert NoLineTerminatorBefore(s, p);
    forall q | p < q <= |s| && NoLineTerminatorBefore(s, q)
      ensures MarkerLength(s, q) == 0
    {
      ReachableBeforeFirstTerminator(s, q);
    }
    forall p' | 0 <= p' <= |s| && IsMatchPosition(s, p')
      ensures p' == p
    {
      ReachableBeforeFirstTerminator(s, p');
    }
  }
}
