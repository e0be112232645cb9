/**
 * The Python `str` operations app.py relies on, over Dafny strings (sequences of Unicode
 * scalar values): `isspace`, `strip`, `split(sep)`, `sep.join(parts)`, the substring test
 * `t in s` and `str(n)` for a natural number.
 */
module Strings {

  /** The code-point ranges for which Python's `str.isspace()` holds: Unicode White_Space plus U+001C..U+001F. */
  const WhitespaceRanges: seq<(char, char)> := [
    ('\t', '\r'), ('\U{001C}', ' '), ('\U{0085}', '\U{0085}'), ('\U{00A0}', '\U{00A0}'),
    ('\U{1680}', '\U{1680}'), ('\U{2000}', '\U{200A}'), ('\U{2028}', '\U{2029}'),
    ('\U{202F}', '\U{202F}'), ('\U{205F}', '\U{205F}'), ('\U{3000}', '\U{3000}')
  ]

  predicate InRanges(c: char, ranges: seq<(char, char)>) {
    |ranges| > 0 && ((ranges[0].0 <= c <= ranges[0].1) || InRanges(c, ranges[1..]))
  }

  /** Python's `str.isspace()` for one character. */
  predicate IsSpace(c: char) {
    InRanges(c, WhitespaceRanges)
  }

  /** A character lies in one of `ranges` exactly when some listed range holds it. */
  lemma {:induction false} InRangesIff(c: char, ranges: seq<(char, char)>)
    ensures InRanges(c, ranges) <==> exists r :: r in ranges && r.0 <= c <= r.1
  {
    if ranges != [] {
      InRangesIff(c, ranges[1..]);
      assert forall r :: r in ranges <==> r == ranges[0] || r in ranges[1..];
    }
  }

  predicate AllSpace(s: string) {
    forall k :: 0 <= k < |s| ==> IsSpace(s[k])
  }

  /** A string that `strip()` leaves alone: empty, or neither end is whitespace. */
  predicate IsStripped(s: string) {
    s == [] || (!IsSpace(s[0]) && !IsSpace(s[|s| - 1]))
  }

  /** The index of the first non-whitespace character of `s` at or after `i` (`|s|` if none). */
  function SkipSpace(s: string, i: nat): (lo: nat)
    requires i <= |s|
    ensures i <= lo <= |s|
    ensures lo < |s| ==> !IsSpace(s[lo])
    decreases |s| - i
  {
    if i < |s| && IsSpace(s[i]) then SkipSpace(s, i + 1) else i
  }

  /** Everything `SkipSpace` passes over is whitespace. */
  lemma {:induction false} SkipSpaceSkipsSpace(s: string, i: nat)
    requires i <= |s|
    ensures forall k :: i <= k < SkipSpace(s, i) ==> IsSpace(s[k])
    decreases |s| - i
  {
    if i < |s| && IsSpace(s[i]) { SkipSpaceSkipsSpace(s, i + 1); }
  }

  /** The end of `s[lo..hi]` once its trailing whitespace is dropped. */
  function BackSpace(s: string, lo: nat, hi: nat): (end: nat)
    requires lo <= hi <= |s|
    ensures lo <= end <= hi
    ensures end > lo ==> !IsSpace(s[end - 1])
    decreases hi - lo
  {
    if lo < hi && IsSpace(s[hi - 1]) then BackSpace(s, lo, hi - 1) else hi
  }

  /** Everything `BackSpace` drops is whitespace. */
  lemma {:induction false} BackSpaceDropsSpace(s: string, lo: nat, hi: nat)
    requires lo <= hi <= |s|
    ensures forall k :: BackSpace(s, lo, hi) <= k < hi ==> IsSpace(s[k])
    decreases hi - lo
  {
    if lo < hi && IsSpace(s[hi - 1]) { BackSpaceDropsSpace(s, lo, hi - 1); }
  }

  /** Python's `str.strip()`: the slice of `s` between its leading and its trailing whitespace. */
  function Strip(s: string): (r: string)
    ensures IsStripped(r)
  {
    var lo := SkipSpace(s, 0);
    s[lo..BackSpace(s, lo, |s|)]
  }

  /** `strip()` gives the empty string exactly when `s` is all whitespace (Python's `if chunk.strip()`). */
  lemma StripEmptyIff(s: string)
    ensures Strip(s) == [] <==> AllSpace(s)
  {
    var lo := SkipSpace(s, 0);
    SkipSpaceSkipsSpace(s, 0);
    BackSpaceDropsSpace(s, lo, |s|);
  }

  /** What `strip()` keeps is the slice of `s` at `lo`, with only whitespace on either side of it. */
  lemma StripOffset(s: string) returns (lo: nat)
    ensures lo + |Strip(s)| <= |s| && Strip(s) == s[lo..lo + |Strip(s)|]
    ensures AllSpace(s[..lo]) && AllSpace(s[lo + |Strip(s)|..])
  {
    lo := SkipSpace(s, 0);
    var hi := BackSpace(s, lo, |s|);
    SkipSpaceSkipsSpace(s, 0);
    BackSpaceDropsSpace(s, lo, |s|);
    assert Strip(s) == s[lo..hi];
    assert AllSpace(s[..lo]) by {
      forall k | 0 <= k < lo ensures IsSpace(s[..lo][k]) { assert s[..lo][k] == s[k]; }
    }
    assert AllSpace(s[hi..]) by {
      forall k | 0 <= k < |s| - hi ensures IsSpace(s[hi..][k]) { assert s[hi..][k] == s[hi + k]; }
    }
  }

  /** A text occurs only in a text at least as long. */
  lemma ContainsShorter(s: string, t: string)
    requires Contains(s, t)
    ensures |t| <= |s|
  {
    var i := Occurrence(s, t);
  }

  /** A text made only of whitespace characters is all whitespace. */
  lemma SpacesAllSpace(s: string)
    requires forall c :: c in s ==> IsSpace(c)
    ensures AllSpace(s)
  {
    forall k | 0 <= k < |s| ensures IsSpace(s[k]) { assert s[k] in s; }
  }

  /** `SkipSpace` stops at the first non-whitespace character after a run of whitespace. */
  lemma {:induction false} SkipSpaceTo(s: string, i: nat, j: nat)
    requires i <= j <= |s| && (forall k :: i <= k < j ==> IsSpace(s[k])) && (j < |s| ==> !IsSpace(s[j]))
    ensures SkipSpace(s, i) == j
    decreases j - i
  {
    if i < j { SkipSpaceTo(s, i + 1, j); }
  }

  /** `BackSpace` stops after the last non-whitespace character before a run of whitespace. */
  lemma {:induction false} BackSpaceTo(s: string, lo: nat, j: nat, hi: nat)
    requires lo <= j <= hi <= |s| && (forall k :: j <= k < hi ==> IsSpace(s[k])) && (j > lo ==> !IsSpace(s[j - 1]))
    ensures BackSpace(s, lo, hi) == j
    decreases hi - j
  {
    if j < hi { BackSpaceTo(s, lo, j, hi - 1); }
  }

  /** Stripping whitespace padding from a stripped text gives the text back. */
  lemma StripPadded(pre: string, body: string, post: string)
    requires AllSpace(pre) && AllSpace(post) && body != [] && IsStripped(body)
    ensures Strip(pre + body + post) == body
  {
    var s := pre + body + post;
    forall k | 0 <= k < |pre| ensures IsSpace(s[k]) { assert s[k] == pre[k]; }
    assert s[|pre|] == body[0];
    SkipSpaceTo(s, 0, |pre|);
    forall k | |pre| + |body| <= k < |s| ensures IsSpace(s[k]) { assert s[k] == post[k - |pre| - |body|]; }
    assert s[|pre| + |body| - 1] == body[|body| - 1];
    BackSpaceTo(s, |pre|, |pre| + |body|, |s|);
    assert s[|pre|..|pre| + |body|] == body;
  }

  /** `strip()` is idempotent: a stripped string is its own strip. */
  lemma StripStripped(s: string)
    requires IsStripped(s)
    ensures Strip(s) == s
  {
  }

  /** Python's `s.startswith(p)`. */
  predicate StartsWith(s: string, p: string) {
    |p| <= |s| && s[..|p|] == p
  }

  /** A prefix of a prefix is a prefix. */
  lemma PrefixStartsWith(s: string, p: string, t: string)
    requires StartsWith(s, p)
    ensures StartsWith(p, t) ==> StartsWith(s, t)
  {
    if StartsWith(p, t) {
      assert s[..|t|] == p[..|t|];
    }
  }

  /** Python's substring test `t in s`, scanning `s` from the left. */
  predicate Contains(s: string, t: string)
    decreases |s|
  {
    StartsWith(s, t) || (|s| > 0 && Contains(s[1..], t))
  }

  /** `t` occurs in `s` starting at position `i`. */
  predicate OccursAt(s: string, t: string, i: nat) {
    i + |t| <= |s| && s[i..i + |t|] == t
  }

  /** `t in s` holds exactly when `t` occurs in `s` at some position. */
  lemma {:induction false} ContainsAt(s: string, t: string)
    ensures Contains(s, t) <==> exists i: nat :: OccursAt(s, t, i)
    decreases |s|
  {
    if |s| > 0 {
      ContainsAt(s[1..], t);
      if Contains(s[1..], t) {
        var i: nat :| OccursAt(s[1..], t, i);
        assert OccursAt(s, t, i + 1);
      }
      if i: nat :| 0 < i && OccursAt(s, t, i) {
        assert OccursAt(s[1..], t, i - 1);
      }
      if OccursAt(s, t, 0) {
        assert StartsWith(s, t);
      }
    } else if OccursAt(s, t, 0) {
      assert StartsWith(s, t);
    }
  }

  /** A string occurs in anything that has it at an explicit position. */
  lemma ContainsWitness(s: string, t: string, i: nat)
    requires OccursAt(s, t, i)
    ensures Contains(s, t)
  {
    ContainsAt(s, t);
  }

  /** A position at which `t` occurs in `s`, when it does. */
  lemma Occurrence(s: string, t: string) returns (i: nat)
    requires Contains(s, t)
    ensures OccursAt(s, t, i)
  {
    ContainsAt(s, t);
    i :| OccursAt(s, t, i);
  }

  /** A pair of characters occurs in `a + b` inside `a`, inside `b`, or across the joint. */
  lemma PairInConcat(a: string, b: string, t: string)
    requires |t| == 2 && Contains(a + b, t)
    ensures Contains(a, t) || Contains(b, t) || (a != [] && b != [] && a[|a| - 1] == t[0] && b[0] == t[1])
  {
    var i := Occurrence(a + b, t);
    if i + 2 <= |a| {
      ContainsWitness(a, t, i) by { assert a[i..i + 2] == (a + b)[i..i + 2]; }
    } else if i >= |a| {
      ContainsWitness(b, t, i - |a|) by { assert b[i - |a|..i - |a| + 2] == (a + b)[i..i + 2]; }
    } else {
      assert (a + b)[i..i + 2] == [a[|a| - 1], b[0]];
    }
  }

  /** `t in a + t + b`. */
  lemma ContainsInfix(a: string, t: string, b: string)
    ensures Contains(a + t + b, t)
  {
    ContainsWitness(a + t + b, t, |a|);
  }

  /** Containment is transitive: `t in u` and `u in s` give `t in s`. */
  lemma ContainsTransitive(s: string, u: string, t: string)
    requires Contains(s, u) && Contains(u, t)
    ensures Contains(s, t)
  {
    var i := Occurrence(s, u);
    var j := Occurrence(u, t);
    assert u[j..j + |t|] == t;
    forall k | 0 <= k < |t| ensures s[i + j + k] == t[k] {
      assert t[k] == u[j + k] == s[i..i + |u|][j + k];
    }
    assert s[i + j..i + j + |t|] == t;
    ContainsWitness(s, t, i + j);
  }

  /** A non-empty string occurring in `s` starts with a character of `s`. */
  lemma {:induction false} ContainsFirstChar(s: string, t: string)
    requires Contains(s, t) && t != []
    ensures t[0] in s
    decreases |s|
  {
    if !StartsWith(s, t) {
      ContainsFirstChar(s[1..], t);
      assert t[0] in s[1..];
    } else {
      assert s[0] == t[0];
    }
  }

  /**
   * Python's `s.split(sep)` for a non-empty separator: the separator is matched from the
   * left, each match consumed whole, and there is always at least one part.
   */
  function Split(s: string, sep: string): (parts: seq<string>)
    requires sep != []
    ensures |parts| >= 1
    decreases |s|
  {
    if s == [] then [[]]
    else if StartsWith(s, sep) then [[]] + Split(s[|sep|..], sep)
    else
      var rest := Split(s[1..], sep);
      [[s[0]] + rest[0]] + rest[1..]
  }

  /** Python's `sep.join(parts)`. */
  function Join(parts: seq<string>, sep: string): (s: string)
    ensures parts != [] ==> StartsWith(s, parts[0])
  {
    if parts == [] then []
    else if |parts| == 1 then parts[0]
    else parts[0] + sep + Join(parts[1..], sep)
  }

  /** Joining the parts of a split with the same separator gives the string back exactly. */
  lemma {:induction false} JoinSplit(s: string, sep: string)
    requires sep != []
    ensures Join(Split(s, sep), sep) == s
    decreases |s|
  {
    if s == [] {
    } else if StartsWith(s, sep) {
      var tail := Split(s[|sep|..], sep);
      JoinSplit(s[|sep|..], sep);
      assert ([[]] + tail)[1..] == tail;
      assert s == sep + s[|sep|..];
    } else {
      var rest := Split(s[1..], sep);
      JoinSplit(s[1..], sep);
      var parts := [[s[0]] + rest[0]] + rest[1..];
      assert parts[1..] == rest[1..];
      if |rest| == 1 {
        assert s == [s[0]] + s[1..];
      } else {
        assert Join(rest, sep) == rest[0] + sep + Join(rest[1..], sep);
        assert s == [s[0]] + s[1..];
      }
    }
  }

  /** No part produced by `split(sep)` contains `sep`. */
  lemma {:induction false} SplitPartsAvoidSeparator(s: string, sep: string)
    requires sep != []
    ensures forall j :: 0 <= j < |Split(s, sep)| ==> !Contains(Split(s, sep)[j], sep)
    decreases |s|
  {
    var parts := Split(s, sep);
    if s == [] {
      assert !StartsWith([], sep);
    } else if StartsWith(s, sep) {
      var tail := Split(s[|sep|..], sep);
      SplitPartsAvoidSeparator(s[|sep|..], sep);
      assert !StartsWith([], sep);
      forall j | 0 <= j < |parts| ensures !Contains(parts[j], sep) {
        if j > 0 { assert parts[j] == tail[j - 1]; }
      }
    } else {
      var rest := Split(s[1..], sep);
      SplitPartsAvoidSeparator(s[1..], sep);
      JoinSplit(s[1..], sep);
      var first := [s[0]] + rest[0];
      // `first` is a prefix of `s`, which does not start with `sep`.
      assert StartsWith(s[1..], rest[0]) by { assert Join(rest, sep) == s[1..]; }
      assert StartsWith(s, first) by {
        forall k | 0 <= k < |first| ensures first[k] == s[k] {
          if k > 0 { assert s[k] == s[1..][k - 1] == rest[0][k - 1]; }
        }
      }
      PrefixStartsWith(s, first, sep);
      assert !Contains(first, sep) by {
        assert first[1..] == rest[0];
        assert !Contains(rest[0], sep);
      }
      forall j | 0 <= j < |parts| ensures !Contains(parts[j], sep) {
        if j > 0 { assert parts[j] == rest[j]; }
      }
    }
  }

  /** Containment survives extending the string on the right. */
  lemma {:induction false} ContainsExtend(s: string, t: string, u: string)
    requires Contains(s, t)
    ensures Contains(s + u, t)
    decreases |s|
  {
    if StartsWith(s, t) {
      assert (s + u)[..|t|] == s[..|t|];
    } else {
      ContainsExtend(s[1..], t, u);
      assert (s + u)[1..] == s[1..] + u;
    }
  }

  /** A string without `sep` splits into itself alone. */
  lemma {:induction false} SplitWithoutSeparator(x: string, sep: string)
    requires sep != [] && !Contains(x, sep)
    ensures Split(x, sep) == [x]
    decreases |x|
  {
    if x != [] {
      SplitWithoutSeparator(x[1..], sep);
      assert [x[0]] + x[1..] == x;
    }
  }

  /**
   * When no match of `sep` can start inside `x` (no match within `x` followed by all but the
   * last character of `sep`), splitting `x + sep + t` cuts exactly after `x`.
   */
  lemma {:induction false} SplitAfterPart(x: string, sep: string, t: string)
    requires sep != [] && !Contains(x + sep[..|sep| - 1], sep)
    ensures Split(x + sep + t, sep) == [x] + Split(t, sep)
    decreases |x|
  {
    var s := x + sep + t;
    if x == [] {
      assert s == sep + t && StartsWith(s, sep);
      assert s[|sep|..] == t;
    } else {
      var p := sep[..|sep| - 1];
      assert (x + p)[..|sep|] == s[..|sep|];
      assert !StartsWith(s, sep);
      assert (x + p)[1..] == x[1..] + p;
      SplitAfterPart(x[1..], sep, t);
      assert s[1..] == x[1..] + sep + t;
      assert [x[0]] + x[1..] == x;
    }
  }

  /**
   * `split` undoes `join` when no match of the separator can start inside any part: then
   * every occurrence of `sep` in the joined string is one of the joints.
   */
  lemma {:induction false} SplitJoin(parts: seq<string>, sep: string)
    requires sep != [] && parts != []
    requires forall j :: 0 <= j < |parts| ==> !Contains(parts[j] + sep[..|sep| - 1], sep)
    ensures Split(Join(parts, sep), sep) == parts
    decreases |parts|
  {
    if |parts| == 1 {
      if Contains(parts[0], sep) { ContainsExtend(parts[0], sep, sep[..|sep| - 1]); }
      SplitWithoutSeparator(parts[0], sep);
    } else {
      SplitJoin(parts[1..], sep);
      SplitAfterPart(parts[0], sep, Join(parts[1..], sep));
      assert [parts[0]] + parts[1..] == parts;
    }
  }

  /** Every part occurs in the joined string. */
  lemma {:induction false} JoinContainsParts(parts: seq<string>, sep: string)
    ensures forall j :: 0 <= j < |parts| ==> Contains(Join(parts, sep), parts[j])
    decreases |parts|
  {
    if |parts| > 1 {
      JoinContainsParts(parts[1..], sep);
      forall j | 0 <= j < |parts| ensures Contains(Join(parts, sep), parts[j]) {
        if j == 0 {
          ContainsInfix([], parts[0], sep + Join(parts[1..], sep));
          assert [] + parts[0] + (sep + Join(parts[1..], sep)) == Join(parts, sep);
        } else {
          assert parts[j] == parts[1..][j - 1];
          ContainsInfix(parts[0] + sep, Join(parts[1..], sep), []);
          assert parts[0] + sep + Join(parts[1..], sep) + [] == Join(parts, sep);
          ContainsTransitive(Join(parts, sep), Join(parts[1..], sep), parts[j]);
        }
      }
    } else if |parts| == 1 {
      ContainsWitness(parts[0], parts[0], 0);
    }
  }

  /**
   * No match of `sep` can start in `x` if `x` lacks the separator's first character; the
   * case Python's `split` meets with text that has no line break at all.
   */
  lemma {:induction false} NoMatchWithoutFirstChar(x: string, sep: string)
    requires sep != [] && sep[0] !in x
    ensures !Contains(x + sep[..|sep| - 1], sep)
    decreases |x|
  {
    var p := sep[..|sep| - 1];
    if Contains(x + p, sep) {
      var i := Occurrence(x + p, sep);
    }
  }

  /** The decimal digit for `d < 10`. */
  function DigitChar(d: nat): (c: char)
    requires d < 10
    ensures '0' <= c <= '9' && (c as int) - ('0' as int) == d
  {
    (d + '0' as int) as char
  }

  predicate IsDigits(s: string) {
    forall k :: 0 <= k < |s| ==> '0' <= s[k] <= '9'
  }

  /** Python's `str(n)` for a natural number: decimal, without leading zeros. */
  function NatToString(n: nat): (s: string)
    ensures |s| >= 1 && IsDigits(s)
    ensures s[0] == '0' <==> n == 0
  {
    if n < 10 then [DigitChar(n)] else NatToString(n / 10) + [DigitChar(n % 10)]
  }

  /** The value of a string of decimal digits (Python's `int(s)` on such a string). */
  function ParseDecimal(s: string): nat
    requires IsDigits(s)
  {
    if s == [] then 0 else 10 * ParseDecimal(s[..|s| - 1]) + ((s[|s| - 1] as int) - ('0' as int))
  }

  /** `int(str(n)) == n`. */
  lemma {:induction false} ParseNatToString(n: nat)
    ensures ParseDecimal(NatToString(n)) == n
  {
    if n >= 10 {
      var s := NatToString(n);
      assert s[..|s| - 1] == NatToString(n / 10);
      ParseNatToString(n / 10);
    }
  }

  /** Distinct numbers have distinct decimal strings. */
  lemma NatToStringInjective(m: nat, n: nat)
    requires NatToString(m) == NatToString(n)
    ensures m == n
  {
    ParseNatToString(m);
    ParseNatToString(n);
  }
}
