/** The JavaScript string primitives the rewriters are built from, stated over
    `string` (a sequence of UTF-16 code units in the original, of chars here). */
module JsStrings {

  /** GFM whitespace without the line feed: space, tab, vertical tab, form
      feed and carriage return (the class `[ \t\v\f\r]`). */
  predicate IsGfmSpace(c: char) {
    c == ' ' || c == '\t' || c == '\U{000B}' || c == '\U{000C}' || c == '\r'
  }

  /** GFM whitespace including the line feed (the class `[ \t\n\v\f\r]`). */
  predicate IsGfmSpaceOrNewline(c: char) {
    IsGfmSpace(c) || c == '\n'
  }

  /** `pat` occurs in `s` starting at index `k`. */
  predicate OccursAt(s: string, pat: string, k: int) {
    0 <= k && k + |pat| <= |s| && s[k..k + |pat|] == pat
  }

  /** `s.indexOf(pat)`: the first index at which `pat` occurs, or -1. */
  function IndexOf(s: string, pat: string): (r: int)
    ensures r >= -1
    ensures r >= 0 ==> OccursAt(s, pat, r)
    ensures forall k :: 0 <= k && (r < 0 || k < r) ==> !OccursAt(s, pat, k)
    decreases |s|
  {
    if |pat| > |s| then -1
    else if s[..|pat|] == pat then 0
    else
      var k := IndexOf(s[1..], pat);
      ShiftOccurrence(s, pat);
      if k < 0 then -1 else k + 1
  }

  /** An occurrence past the first character of `s` is an occurrence in `s[1..]`. */
  lemma ShiftOccurrence(s: string, pat: string)
    requires |s| > 0
    ensures forall k :: 1 <= k ==> (OccursAt(s, pat, k) <==> OccursAt(s[1..], pat, k - 1))
  {
    forall k | 1 <= k
      ensures OccursAt(s, pat, k) <==> OccursAt(s[1..], pat, k - 1)
    {
      if k + |pat| <= |s| {
        assert s[1..][k - 1..k - 1 + |pat|] == s[k..k + |pat|];
      }
    }
  }

  /** `s.indexOf(c)` for a single character: -1 exactly when `c` does not
      occur, otherwise the position of its first occurrence. */
  function IndexOfChar(s: string, c: char): (r: int)
    ensures -1 <= r < |s|
    ensures r == -1 <==> c !in s
    ensures r >= 0 ==> s[r] == c && c !in s[..r]
  {
    var r := IndexOf(s, [c]);
    assert forall k :: 0 <= k < |s| ==> (OccursAt(s, [c], k) <==> s[k] == c) by {
      forall k | 0 <= k < |s| ensures OccursAt(s, [c], k) <==> s[k] == c {
        assert s[k..k + 1] == [s[k]];
      }
    }
    r
  }

  /** `s` contains `pat` somewhere. */
  predicate Contains(s: string, pat: string) {
    IndexOf(s, pat) >= 0
  }

  /** A prefix of `a` stays a prefix once `a` is put between a head and a tail
      (`startsWith` after the head). */
  lemma PrefixInContext(head: string, p: string, a: string, tail: string)
    requires p <= a
    ensures head + p <= head + a + tail
  {
    assert (head + a + tail)[..|head| + |p|] == head + p;
  }

  /** `s.endsWith(suffix)`. (`s.startsWith(p)` is Dafny's prefix test `p <= s`.) */
  predicate EndsWith(s: string, suffix: string) {
    |suffix| <= |s| && s[|s| - |suffix|..] == suffix
  }

  /** `s.endsWith(suffix)` holds exactly when `s` is some prefix followed by `suffix`. */
  lemma EndsWithConcat(s: string, suffix: string)
    ensures EndsWith(s, suffix) <==> |suffix| <= |s| && s == s[..|s| - |suffix|] + suffix
  {
    if |suffix| <= |s| && s == s[..|s| - |suffix|] + suffix {
      assert s[|s| - |suffix|..] == suffix;
    }
  }

  /** A JavaScript string index after `substring`'s clamping to `[0, |s|]`. */
  function Clamp(s: string, i: int): (r: nat)
    ensures r <= |s|
    ensures 0 <= i <= |s| ==> r == i
    ensures i < 0 ==> r == 0
    ensures |s| < i ==> r == |s|
  {
    if i < 0 then 0 else if i > |s| then |s| else i
  }

  /** `s.substring(a, b)`: each bound is clamped to `[0, |s|]` on its own,
      and the result is the slice from the smaller clamped bound to the larger. */
  function Substring(s: string, a: int, b: int): (r: string)
    ensures 0 <= a <= b <= |s| ==> r == s[a..b]
    ensures 0 <= b <= a <= |s| ==> r == s[b..a]
    ensures a <= 0 && b <= 0 ==> r == []
    ensures |s| <= a && |s| <= b ==> r == []
    ensures a < 0 && 0 <= b <= |s| ==> r == s[..b]
    ensures b < 0 && 0 <= a <= |s| ==> r == s[..a]
    ensures |s| < b && 0 <= a <= |s| ==> r == s[a..]
    ensures |s| < a && 0 <= b <= |s| ==> r == s[b..]
    ensures a < 0 && |s| < b ==> r == s
    ensures b < 0 && |s| < a ==> r == s
    ensures var lo, hi := Clamp(s, a), Clamp(s, b);
      r == s[if lo <= hi then lo else hi..if lo <= hi then hi else lo]
    ensures |r| <= |s|
  {
    var lo, hi := Clamp(s, a), Clamp(s, b);
    if lo <= hi then s[lo..hi] else s[hi..lo]
  }

  /** `parts.join(sep)`. */
  function Join(parts: seq<string>, sep: char): string
    decreases |parts|
  {
    if |parts| == 0 then ""
    else if |parts| == 1 then parts[0]
    else parts[0] + [sep] + Join(parts[1..], sep)
  }

  /** A join of no parts is empty; otherwise it opens with the first part and
      closes with the last. */
  lemma {:induction false} JoinEnds(parts: seq<string>, sep: char)
    ensures |parts| == 0 ==> Join(parts, sep) == []
    ensures |parts| > 0 ==> parts[0] <= Join(parts, sep) && EndsWith(Join(parts, sep), parts[|parts| - 1])
    decreases |parts|
  {
    if |parts| > 1 {
      var head, last := parts[0] + [sep], parts[|parts| - 1];
      var tail := Join(parts[1..], sep);
      JoinEnds(parts[1..], sep);
      assert Join(parts, sep) == head + tail;
      assert (head + tail)[..|parts[0]|] == parts[0];
      assert (head + tail)[|head + tail| - |last|..] == tail[|tail| - |last|..];
    }
  }

  /** Joining a head in front of at least one part puts one separator between. */
  lemma JoinCons(head: string, parts: seq<string>, sep: char)
    requires |parts| >= 1
    ensures Join([head] + parts, sep) == head + [sep] + Join(parts, sep)
  {
    assert ([head] + parts)[1..] == parts;
  }

  /** `s.split(sep)` for a one-character separator: the pieces between
      consecutive separators, always at least one. */
  function Split(s: string, sep: char): (r: seq<string>)
    ensures |r| >= 1
    ensures forall i :: 0 <= i < |r| ==> sep !in r[i]
    decreases |s|
  {
    var i := IndexOfChar(s, sep);
    if i < 0 then [s] else [s[..i]] + Split(s[i + 1..], sep)
  }

  /** Joining the pieces of a split with the same separator gives the string back. */
  lemma {:induction false} JoinSplit(s: string, sep: char)
    ensures Join(Split(s, sep), sep) == s
    decreases |s|
  {
    var i := IndexOfChar(s, sep);
    if i >= 0 {
      var rest := s[i + 1..];
      var parts := Split(rest, sep);
      JoinSplit(rest, sep);
      JoinCons(s[..i], parts, sep);
      CutAt(s, i);
      calc {
        Join(Split(s, sep), sep);
        Join([s[..i]] + parts, sep);
        s[..i] + [sep] + Join(parts, sep);
        s[..i] + [s[i]] + rest;
      }
    } else {
      assert Split(s, sep) == [s];
    }
  }

  /** A string is its part before position `i`, the character there and the rest. */
  lemma CutAt(s: string, i: int)
    requires 0 <= i < |s|
    ensures s == s[..i] + [s[i]] + s[i + 1..]
  {
    assert s[..i + 1] == s[..i] + [s[i]];
    assert s == s[..i + 1] + s[i + 1..];
  }

  /** Splitting a join recovers the parts, provided there is at least one part
      and none contains the separator: the parts are separated by exactly one
      separator each. */
  lemma {:induction false} SplitJoin(parts: seq<string>, sep: char)
    requires |parts| >= 1
    requires forall i :: 0 <= i < |parts| ==> sep !in parts[i]
    ensures Split(Join(parts, sep), sep) == parts
    decreases |parts|
  {
    if |parts| == 1 {
      assert sep !in parts[0];
    } else {
      var head, tail := parts[0], Join(parts[1..], sep);
      var s := head + [sep] + tail;
      assert Join(parts, sep) == s;
      FirstSeparator(head, sep, tail);
      assert s[..|head|] == head && s[|head| + 1..] == tail;
      SplitJoin(parts[1..], sep);
    }
  }

  /** The first separator of `head + [sep] + tail` is the one after `head`
      when `head` holds none. */
  lemma FirstSeparator(head: string, sep: char, tail: string)
    requires sep !in head
    ensures IndexOfChar(head + [sep] + tail, sep) == |head|
  {
    var s := head + [sep] + tail;
    assert s[|head|] == sep;
  }

  /** `s` without its maximal trailing run of GFM whitespace (not the line
      feed); `s[|r|..]` is what `/[ \t\v\f\r]+$/` matches, if anything. */
  function TrimEndGfm(s: string): (r: string)
    ensures r <= s
    ensures forall i :: |r| <= i < |s| ==> IsGfmSpace(s[i])
    ensures r == [] || !IsGfmSpace(r[|r| - 1])
    decreases |s|
  {
    if |s| > 0 && IsGfmSpace(s[|s| - 1]) then TrimEndGfm(s[..|s| - 1]) else s
  }

  /** The maximal leading run of GFM whitespace including line feeds; what the
      anchored pattern `^[ \t\n\v\f\r]*` matches. */
  function LeadingSpaces(s: string): (w: string)
    ensures w <= s
    ensures forall i :: 0 <= i < |w| ==> IsGfmSpaceOrNewline(w[i])
    ensures |w| == |s| || !IsGfmSpaceOrNewline(s[|w|])
    decreases |s|
  {
    if |s| > 0 && IsGfmSpaceOrNewline(s[0]) then [s[0]] + LeadingSpaces(s[1..]) else []
  }
}
