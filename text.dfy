/** The JavaScript string primitives the ingestion pipeline relies on:
    `split` on one character, `trim`, `toLowerCase`, `replace(/\s+/g, r)`,
    `includes`, `||` on strings and decimal rendering of a line index.
    Strings are sequences of Unicode scalar values. */
module Text {

  /** JavaScript's WhiteSpace and LineTerminator code points: exactly the
      characters `String.prototype.trim` strips and the class `\s` matches. */
  predicate IsWhitespace(c: char) {
    c == '\t' || c == '\n' || c == '\U{B}' || c == '\U{C}' || c == '\r' || c == ' '
    || c == '\U{A0}' || c == '\U{1680}' || ('\U{2000}' <= c <= '\U{200A}')
    || c == '\U{2028}' || c == '\U{2029}' || c == '\U{202F}' || c == '\U{205F}'
    || c == '\U{3000}' || c == '\U{FEFF}'
  }

  /** The characters that the regular-expression `.` does not match. */
  predicate IsLineTerminator(c: char) {
    c == '\n' || c == '\r' || c == '\U{2028}' || c == '\U{2029}'
  }

  /** The regular-expression class `\w`. */
  predicate IsWordChar(c: char) {
    ('a' <= c <= 'z') || ('A' <= c <= 'Z') || ('0' <= c <= '9') || c == '_'
  }

  predicate NoWhitespace(s: string) {
    forall i :: 0 <= i < |s| ==> !IsWhitespace(s[i])
  }

  predicate AllWhitespace(s: string) {
    forall i :: 0 <= i < |s| ==> IsWhitespace(s[i])
  }

  /** JavaScript `x || y` where both sides are strings: the empty string is falsy. */
  function OrElse(x: string, y: string): string {
    if x != "" then x else y
  }

  // ---------------------------------------------------------------------------
  // split

  /** `s.split(sep)`: the pieces between separators, always at least one. */
  function Split(s: string, sep: char): (parts: seq<string>)
    ensures |parts| >= 1
    ensures forall i :: 0 <= i < |parts| ==> sep !in parts[i]
  {
    if s == [] then [""]
    else
      var rest := Split(s[1..], sep);
      if s[0] == sep then [""] + rest
      else [[s[0]] + rest[0]] + rest[1..]
  }

  /** `parts.join(sep)`, the inverse of `Split`. */
  function Join(parts: seq<string>, sep: char): string
    requires |parts| >= 1
  {
    if |parts| == 1 then parts[0] else parts[0] + [sep] + Join(parts[1..], sep)
  }

  /** Splitting loses nothing: joining the pieces back gives the input. */
  lemma {:induction false} SplitJoin(s: string, sep: char)
    ensures Join(Split(s, sep), sep) == s
  {
    if s != [] {
      var rest := Split(s[1..], sep);
      SplitJoin(s[1..], sep);
      if s[0] == sep {
        assert Split(s, sep)[1..] == rest;
      } else if |rest| == 1 {
        assert Join(Split(s, sep), sep) == [s[0]] + rest[0];
      } else {
        var parts := Split(s, sep);
        assert parts[1..] == rest[1..];
        assert Join(rest, sep) == rest[0] + [sep] + Join(rest[1..], sep);
        assert Join(parts, sep) == ([s[0]] + rest[0]) + [sep] + Join(rest[1..], sep);
      }
    }
  }

  /** There is one piece exactly when the separator does not occur. */
  lemma {:induction false} SplitSingle(s: string, sep: char)
    ensures |Split(s, sep)| == 1 <==> sep !in s
  {
    if s != [] {
      SplitSingle(s[1..], sep);
      assert s == [s[0]] + s[1..];
    }
  }

  // ---------------------------------------------------------------------------
  // trim

  /** The length of the leading whitespace run of `s`. */
  function LeadingWhitespace(s: string): (k: nat)
    ensures k <= |s|
    ensures k < |s| ==> !IsWhitespace(s[k])
  {
    if s != [] && IsWhitespace(s[0]) then 1 + LeadingWhitespace(s[1..]) else 0
  }

  /** The length of the trailing whitespace run of `s`. */
  function TrailingWhitespace(s: string): (k: nat)
    ensures k <= |s|
    ensures k < |s| ==> !IsWhitespace(s[|s| - 1 - k])
  {
    if s != [] && IsWhitespace(s[|s| - 1]) then 1 + TrailingWhitespace(s[..|s| - 1]) else 0
  }

  /** The leading whitespace run is whitespace. */
  lemma {:induction false} LeadingWhitespaceIsWhitespace(s: string)
    ensures forall i :: 0 <= i < LeadingWhitespace(s) ==> IsWhitespace(s[i])
  {
    if s != [] && IsWhitespace(s[0]) {
      LeadingWhitespaceIsWhitespace(s[1..]);
    }
  }

  /** The trailing whitespace run is whitespace. */
  lemma {:induction false} TrailingWhitespaceIsWhitespace(s: string)
    ensures forall i :: |s| - TrailingWhitespace(s) <= i < |s| ==> IsWhitespace(s[i])
  {
    if s != [] && IsWhitespace(s[|s| - 1]) {
      var s' := s[..|s| - 1];
      TrailingWhitespaceIsWhitespace(s');
      forall i | |s| - TrailingWhitespace(s) <= i < |s| - 1 ensures IsWhitespace(s[i]) {
        assert s[i] == s'[i];
      }
    }
  }

  /** `s.trim()`: leading and trailing whitespace removed. */
  function Trim(s: string): string {
    var t := s[LeadingWhitespace(s)..];
    t[..|t| - TrailingWhitespace(t)]
  }

  /** A trimmed string starts and ends with a non-whitespace character. */
  lemma TrimEnds(s: string)
    ensures Trim(s) == [] || (!IsWhitespace(Trim(s)[0]) && !IsWhitespace(Trim(s)[|Trim(s)| - 1]))
  {
  }

  /** The trim is the infix of `s` between a leading and a trailing whitespace run. */
  lemma TrimIsInfix(s: string)
    ensures exists i, j :: 0 <= i <= j <= |s| && Trim(s) == s[i..j]
                           && AllWhitespace(s[..i]) && AllWhitespace(s[j..])
  {
    var i := LeadingWhitespace(s);
    var t := s[i..];
    var j := i + |t| - TrailingWhitespace(t);
    LeadingWhitespaceIsWhitespace(s);
    TrailingWhitespaceIsWhitespace(t);
    forall k | j <= k < |s| ensures IsWhitespace(s[k]) {
      assert s[k] == t[k - i];
    }
    assert Trim(s) == s[i..j];
  }

  /** A string with no whitespace at either end is its own trim. */
  lemma TrimOfTrimmed(s: string)
    requires s == [] || (!IsWhitespace(s[0]) && !IsWhitespace(s[|s| - 1]))
    ensures Trim(s) == s
  {
  }

  /** Trimming twice is trimming once. */
  lemma TrimIdempotent(s: string)
    ensures Trim(Trim(s)) == Trim(s)
  {
    TrimOfTrimmed(Trim(s));
  }

  /** The trim is empty exactly when the string is all whitespace. */
  lemma TrimEmpty(s: string)
    ensures Trim(s) == [] <==> AllWhitespace(s)
  {
    TrimIsInfix(s);
    if Trim(s) == [] {
      var i, j :| 0 <= i <= j <= |s| && [] == s[i..j] && AllWhitespace(s[..i]) && AllWhitespace(s[j..]);
      assert s == s[..i] + s[j..];
    }
  }

  /** Putting a prefix with no whitespace at its ends in front of a trimmed
      string gives a trimmed string. */
  lemma TrimOfPrefixed(p: string, s: string)
    requires p != [] && !IsWhitespace(p[0]) && !IsWhitespace(p[|p| - 1])
    requires s == [] || (!IsWhitespace(s[0]) && !IsWhitespace(s[|s| - 1]))
    ensures Trim(p + s) == p + s
  {
    var t := p + s;
    assert t[0] == p[0];
    assert t[|t| - 1] == if s == [] then p[|p| - 1] else s[|s| - 1];
    TrimOfTrimmed(t);
  }

  // ---------------------------------------------------------------------------
  // lower case

  /** ASCII case mapping: `A`..`Z` become `a`..`z`, every other character is kept. */
  function LowerChar(c: char): (d: char)
    ensures !('A' <= d <= 'Z')
    ensures IsWhitespace(d) <==> IsWhitespace(c)
  {
    if 'A' <= c <= 'Z' then (c as int + 32) as char else c
  }

  /** `s.toLowerCase()`, restricted to the ASCII letters. */
  function ToLower(s: string): (r: string)
    ensures |r| == |s|
    ensures forall i :: 0 <= i < |s| ==> r[i] == LowerChar(s[i])
  {
    seq(|s|, i requires 0 <= i < |s| => LowerChar(s[i]))
  }

  predicate NoUpper(s: string) {
    forall i :: 0 <= i < |s| ==> !('A' <= s[i] <= 'Z')
  }

  // ---------------------------------------------------------------------------
  // replacing every whitespace run

  /** The input with its leading whitespace run removed. */
  function DropWhitespace(s: string): (r: string)
    ensures |r| <= |s|
    ensures s != [] && IsWhitespace(s[0]) ==> |r| < |s|
  {
    s[LeadingWhitespace(s)..]
  }

  /** `s.replace(/\s+/g, rep)`: every maximal whitespace run becomes `rep`. */
  function ReplaceWhitespaceRuns(s: string, rep: string): (r: string)
    ensures NoWhitespace(rep) ==> NoWhitespace(r)
    ensures NoUpper(s) && NoUpper(rep) ==> NoUpper(r)
    decreases |s|
  {
    if s == [] then []
    else if IsWhitespace(s[0]) then rep + ReplaceWhitespaceRuns(DropWhitespace(s), rep)
    else [s[0]] + ReplaceWhitespaceRuns(s[1..], rep)
  }

  /** A string without whitespace is left as it is. */
  lemma {:induction false} ReplaceNoWhitespace(s: string, rep: string)
    requires NoWhitespace(s)
    ensures ReplaceWhitespaceRuns(s, rep) == s
  {
    if s != [] {
      ReplaceNoWhitespace(s[1..], rep);
    }
  }

  /** A leading whitespace run of `a` continues into `b`. */
  lemma {:induction false} LeadingWhitespaceAppend(a: string, b: string)
    requires AllWhitespace(a)
    ensures LeadingWhitespace(a + b) == |a| + LeadingWhitespace(b)
  {
    if a != [] {
      assert (a + b)[1..] == a[1..] + b;
      LeadingWhitespaceAppend(a[1..], b);
    } else {
      assert a + b == b;
    }
  }

  /** A leading whitespace run that stops inside `a` is not changed by `b`. */
  lemma {:induction false} LeadingWhitespaceStops(a: string, b: string)
    requires LeadingWhitespace(a) < |a|
    ensures LeadingWhitespace(a + b) == LeadingWhitespace(a)
  {
    if IsWhitespace(a[0]) {
      assert (a + b)[1..] == a[1..] + b;
      LeadingWhitespaceStops(a[1..], b);
    }
  }

  /** A non-empty whitespace run on its own becomes exactly one `rep`. */
  lemma ReplaceWhitespaceRun(w: string, rep: string)
    requires w != [] && AllWhitespace(w)
    ensures ReplaceWhitespaceRuns(w, rep) == rep
  {
    LeadingWhitespaceAppend(w, []);
    assert w + [] == w;
  }

  /** Replacing distributes over a concatenation that does not join two
      whitespace runs into one. */
  lemma {:induction false} ReplaceAppend(a: string, b: string, rep: string)
    requires a == [] || b == [] || !IsWhitespace(a[|a| - 1]) || !IsWhitespace(b[0])
    ensures ReplaceWhitespaceRuns(a + b, rep) == ReplaceWhitespaceRuns(a, rep) + ReplaceWhitespaceRuns(b, rep)
    decreases |a|
  {
    if a == [] {
      assert a + b == b;
    } else if !IsWhitespace(a[0]) {
      assert (a + b)[1..] == a[1..] + b;
      ReplaceAppend(a[1..], b, rep);
    } else if LeadingWhitespace(a) < |a| {
      ReplaceAppendAfterRun(a, b, rep);
    } else {
      ReplaceAppendWholeRun(a, b, rep);
    }
  }

  /** The step of `ReplaceAppend` for an `a` that starts with a whitespace run
      ending inside it. */
  lemma {:induction false} ReplaceAppendAfterRun(a: string, b: string, rep: string)
    requires a != [] && IsWhitespace(a[0]) && LeadingWhitespace(a) < |a|
    requires b == [] || !IsWhitespace(a[|a| - 1]) || !IsWhitespace(b[0])
    ensures ReplaceWhitespaceRuns(a + b, rep) == ReplaceWhitespaceRuns(a, rep) + ReplaceWhitespaceRuns(b, rep)
    decreases |a|, 0
  {
    var k := LeadingWhitespace(a);
    LeadingWhitespaceStops(a, b);
    assert DropWhitespace(a + b) == a[k..] + b;
    ReplaceAppend(a[k..], b, rep);
  }

  /** The step of `ReplaceAppend` for an `a` that is one whitespace run. */
  lemma ReplaceAppendWholeRun(a: string, b: string, rep: string)
    requires a != [] && LeadingWhitespace(a) == |a|
    requires b == [] || !IsWhitespace(a[|a| - 1]) || !IsWhitespace(b[0])
    ensures ReplaceWhitespaceRuns(a + b, rep) == ReplaceWhitespaceRuns(a, rep) + ReplaceWhitespaceRuns(b, rep)
  {
    LeadingWhitespaceIsWhitespace(a);
    LeadingWhitespaceAppend(a, b);
    assert DropWhitespace(a + b) == b;
    ReplaceWhitespaceRun(a, rep);
  }

  /** Each maximal whitespace run becomes exactly one `rep`: a run `w` between
      text that does not end and text that does not start with whitespace is
      replaced once, and the text around it is replaced on its own. */
  lemma ReplaceMaximalRun(a: string, w: string, b: string, rep: string)
    requires w != [] && AllWhitespace(w)
    requires a == [] || !IsWhitespace(a[|a| - 1])
    requires b == [] || !IsWhitespace(b[0])
    ensures ReplaceWhitespaceRuns(a + w + b, rep) ==
            ReplaceWhitespaceRuns(a, rep) + rep + ReplaceWhitespaceRuns(b, rep)
  {
    assert a + w + b == a + (w + b);
    ReplaceAppend(a, w + b, rep);
    ReplaceAppend(w, b, rep);
    ReplaceWhitespaceRun(w, rep);
  }

  /** The non-whitespace characters of `s`, in order. */
  function NonWhitespace(s: string): string {
    if s == [] then []
    else if IsWhitespace(s[0]) then NonWhitespace(s[1..])
    else [s[0]] + NonWhitespace(s[1..])
  }

  lemma {:induction false} NonWhitespaceOfBlank(s: string)
    requires AllWhitespace(s)
    ensures NonWhitespace(s) == []
  {
    if s != [] {
      NonWhitespaceOfBlank(s[1..]);
    }
  }

  lemma {:induction false} NonWhitespaceAppend(a: string, b: string)
    ensures NonWhitespace(a + b) == NonWhitespace(a) + NonWhitespace(b)
  {
    if a != [] {
      assert (a + b)[1..] == a[1..] + b;
      NonWhitespaceAppend(a[1..], b);
    } else {
      assert a + b == b;
    }
  }

  /** Replacing runs by nothing deletes exactly the whitespace characters. */
  lemma {:induction false} RemoveWhitespaceIsFilter(s: string)
    ensures ReplaceWhitespaceRuns(s, "") == NonWhitespace(s)
    decreases |s|
  {
    if s != [] {
      if IsWhitespace(s[0]) {
        var d := DropWhitespace(s);
        var k := LeadingWhitespace(s);
        RemoveWhitespaceIsFilter(d);
        assert s == s[..k] + d;
        LeadingWhitespaceIsWhitespace(s);
        NonWhitespaceAppend(s[..k], d);
        NonWhitespaceOfBlank(s[..k]);
      } else {
        RemoveWhitespaceIsFilter(s[1..]);
      }
    }
  }

  // ---------------------------------------------------------------------------
  // substring and prefix tests

  predicate StartsWith(s: string, prefix: string) {
    |prefix| <= |s| && s[..|prefix|] == prefix
  }

  /** `sub` occurs in `s` starting at position `i`. */
  predicate OccursAt(s: string, sub: string, i: nat) {
    i + |sub| <= |s| && s[i..i + |sub|] == sub
  }

  /** `s.includes(sub)`, by scanning the start positions from the left. */
  predicate Contains(s: string, sub: string)
    decreases |s|
  {
    StartsWith(s, sub) || (s != [] && Contains(s[1..], sub))
  }

  /** `Contains` holds exactly when `sub` occurs at some position of `s`. */
  lemma {:induction false} ContainsIff(s: string, sub: string)
    ensures Contains(s, sub) <==> exists i: nat :: OccursAt(s, sub, i)
    decreases |s|
  {
    if s != [] {
      ContainsIff(s[1..], sub);
      if exists i: nat :: OccursAt(s, sub, i) {
        var i: nat :| OccursAt(s, sub, i);
        if i > 0 {
          assert s[1..][i - 1..i - 1 + |sub|] == sub;
          assert OccursAt(s[1..], sub, i - 1);
        }
      }
      if Contains(s[1..], sub) {
        var i: nat :| OccursAt(s[1..], sub, i);
        assert s[i + 1..i + 1 + |sub|] == sub;
        assert OccursAt(s, sub, i + 1);
      }
      if StartsWith(s, sub) {
        assert OccursAt(s, sub, 0);
      }
    } else {
      if exists i: nat :: OccursAt(s, sub, i) {
        var i: nat :| OccursAt(s, sub, i);
        assert i == 0 && sub == [];
        assert StartsWith(s, sub);
      }
      if Contains(s, sub) {
        assert OccursAt(s, sub, 0);
      }
    }
  }

  // ---------------------------------------------------------------------------
  // decimal rendering of a line index

  function DigitChar(d: nat): (c: char)
    requires d < 10
    ensures '0' <= c <= '9'
  {
    ('0' as int + d) as char
  }

  /** The decimal numeral of `n`, without leading zeros. */
  function NatToString(n: nat): (s: string)
    ensures |s| >= 1
    ensures forall i :: 0 <= i < |s| ==> '0' <= s[i] <= '9'
    ensures |s| == 1 <==> n < 10
  {
    if n < 10 then [DigitChar(n)] else NatToString(n / 10) + [DigitChar(n % 10)]
  }

  /** Distinct numbers have distinct numerals. */
  lemma {:induction false} NatToStringInjective(m: nat, n: nat)
    requires NatToString(m) == NatToString(n)
    ensures m == n
  {
    if m >= 10 && n >= 10 {
      var sm, sn := NatToString(m), NatToString(n);
      assert sm[|sm| - 1] == sn[|sn| - 1];
      assert sm[..|sm| - 1] == NatToString(m / 10);
      assert sn[..|sn| - 1] == NatToString(n / 10);
      NatToStringInjective(m / 10, n / 10);
    }
  }
}
