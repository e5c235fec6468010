/**
 * The few Python string operations the modelled code relies on: `str.isdigit`,
 * `int(...)` of a digit string, `str(n)`, `str.split(sep, 1)`, `' '.join`,
 * `str.find`, `str.strip`, substring tests and slicing with Python's index rules.
 */
module Text {
  import opened Wrappers

  predicate IsDigit(c: char) { '0' <= c <= '9' }

  /** `str.isdigit()` on ASCII text: true only for a non-empty run of digits. */
  predicate IsDigits(s: string) {
    |s| > 0 && forall i :: 0 <= i < |s| ==> IsDigit(s[i])
  }

  function DigitValue(c: char): (d: nat)
    requires IsDigit(c)
    ensures d < 10
  {
    (c as int - '0' as int) as nat
  }

  function DigitChar(d: nat): (c: char)
    requires d < 10
    ensures IsDigit(c) && DigitValue(c) == d
  {
    ('0' as int + d) as char
  }

  /** `int(s)` for a string made of decimal digits (leading zeros allowed). */
  function DigitsValue(s: string): nat
    requires forall i :: 0 <= i < |s| ==> IsDigit(s[i])
  {
    if |s| == 0 then 0 else DigitsValue(s[..|s| - 1]) * 10 + DigitValue(s[|s| - 1])
  }

  /** `str(n)` for a natural number: its decimal digits, most significant first. */
  function NatToString(n: nat): (s: string)
    ensures IsDigits(s)
    ensures n < 10 <==> |s| == 1
    ensures s[0] == '0' <==> n == 0
    ensures |s| > 1 ==> s[0] != '0'
  {
    if n < 10 then [DigitChar(n)] else NatToString(n / 10) + [DigitChar(n % 10)]
  }

  /** Reading back the decimal text of a number gives the number. */
  lemma {:induction false} NatToStringRoundTrip(n: nat)
    ensures DigitsValue(NatToString(n)) == n
  {
    if n >= 10 {
      var s := NatToString(n);
      assert s[..|s| - 1] == NatToString(n / 10);
      NatToStringRoundTrip(n / 10);
    }
  }

  /** The position of the first `c` in `s`, if any. */
  function FirstIndexOf(s: string, c: char): (r: Option<nat>)
    ensures r.None? <==> c !in s
    ensures r.Some? ==> r.value < |s| && s[r.value] == c && c !in s[..r.value]
  {
    if |s| == 0 then None
    else if s[0] == c then Some(0)
    else
      match FirstIndexOf(s[1..], c)
      case None => None
      case Some(i) => assert s[1..][..i] == s[1..i + 1]; Some(i + 1)
  }

  /** `s.split(sep, 1)`: the text before the first `sep` and the rest, or `[s]`. */
  function SplitOnce(s: string, sep: char): (parts: seq<string>)
    ensures 1 <= |parts| <= 2
    ensures |parts| == 1 <==> sep !in s
    ensures |parts| == 1 ==> parts[0] == s
    ensures |parts| == 2 ==> parts[0] + [sep] + parts[1] == s && sep !in parts[0]
  {
    match FirstIndexOf(s, sep)
    case None => [s]
    case Some(i) =>
      assert s[..i] + [sep] + s[i + 1..] == s;
      [s[..i], s[i + 1..]]
  }

  /** Splitting at a separator the first part does not contain gives back both parts. */
  lemma SplitOnceAt(a: string, sep: char, b: string)
    requires sep !in a
    ensures SplitOnce(a + [sep] + b, sep) == [a, b]
  {
    var s := a + [sep] + b;
    assert s[|a|] == sep;
    assert s[..|a|] == a;
    assert s[|a| + 1..] == b;
  }

  /** A string of digits does not contain a non-digit separator. */
  lemma DigitsExclude(s: string, sep: char)
    requires IsDigits(s) && !IsDigit(sep)
    ensures sep !in s
  {
  }

  /** `s.split(sep)`: the pieces between the separators, in order; `n` separators make `n + 1` pieces. */
  function SplitAll(s: string, sep: char): (parts: seq<string>)
    ensures |parts| == multiset(s)[sep] + 1
    ensures forall i :: 0 <= i < |parts| ==> sep !in parts[i]
    decreases |s|
  {
    var p := SplitOnce(s, sep);
    if |p| == 1 then
      assert multiset(s)[sep] == 0;
      [s]
    else
      assert s == p[0] + [sep] + p[1];
      assert multiset(p[0])[sep] == 0;
      [p[0]] + SplitAll(p[1], sep)
  }

  /** A leading separator adds an empty first piece: what `split` returns depends on whether the text was stripped. */
  lemma SplitAllLeading(s: string, sep: char)
    ensures SplitAll([sep] + s, sep) == [""] + SplitAll(s, sep)
  {
    SplitOnceAt("", sep, s);
    assert "" + [sep] + s == [sep] + s;
  }

  /** `sep.join(parts)` for a non-empty list of parts. */
  function JoinOn(parts: seq<string>, sep: char): string
    requires |parts| > 0
  {
    if |parts| == 1 then parts[0] else parts[0] + [sep] + JoinOn(parts[1..], sep)
  }

  /** Joining the pieces of `s.split(sep)` with `sep` gives back `s`. */
  lemma {:induction false} SplitAllJoin(s: string, sep: char)
    ensures JoinOn(SplitAll(s, sep), sep) == s
    decreases |s|
  {
    var p := SplitOnce(s, sep);
    if |p| == 2 {
      SplitAllJoin(p[1], sep);
      assert SplitAll(s, sep)[1..] == SplitAll(p[1], sep);
    }
  }

  /** Splitting a join of separator-free parts gives back the parts. */
  lemma {:induction false} JoinOnSplitAll(parts: seq<string>, sep: char)
    requires |parts| > 0
    requires forall i :: 0 <= i < |parts| ==> sep !in parts[i]
    ensures SplitAll(JoinOn(parts, sep), sep) == parts
    decreases |parts|
  {
    if |parts| > 1 {
      JoinOnSplitAll(parts[1..], sep);
      SplitOnceAt(parts[0], sep, JoinOn(parts[1..], sep));
    }
  }

  /** `' '.join(words)`. */
  function Join(words: seq<string>): string {
    if |words| == 0 then ""
    else if |words| == 1 then words[0]
    else Join(words[..|words| - 1]) + " " + words[|words| - 1]
  }

  /** `sub` occurs in `s` starting at position `i`. */
  predicate MatchAt(s: string, sub: string, i: int) {
    0 <= i && i + |sub| <= |s| && s[i..i + |sub|] == sub
  }

  /** `s.find(sub, start)` for a non-negative start: the least match position at or after `start`, or -1. */
  function Find(s: string, sub: string, start: nat): (r: int)
    ensures r == -1 || (start <= r && MatchAt(s, sub, r))
    ensures r == -1 ==> forall i :: start <= i ==> !MatchAt(s, sub, i)
    ensures r >= 0 ==> forall i :: start <= i < r ==> !MatchAt(s, sub, i)
    decreases |s| - start
  {
    if start + |sub| > |s| then -1
    else if s[start..start + |sub|] == sub then start
    else Find(s, sub, start + 1)
  }

  /** `sub in s` for two strings: `sub` occurs somewhere in `s`. */
  predicate Contains(s: string, sub: string) {
    Find(s, sub, 0) >= 0
  }

  /** An index of a Python slice bound, after negative indices and clamping. */
  function SliceBound(k: int, n: nat): (r: nat)
    ensures r <= n
  {
    if k < 0 then (if k + n < 0 then 0 else k + n) else if k > n then n else k
  }

  /** `s[i:j]` with Python's rules: negative bounds count from the end, out-of-range bounds are clamped. */
  function PySlice(s: string, i: int, j: int): string {
    var a, b := SliceBound(i, |s|), SliceBound(j, |s|);
    if a < b then s[a..b] else ""
  }

  /**
   * The ASCII characters `str.strip()` removes: tab, line feed, vertical
   * tab, form feed and carriage return (9 to 13), the four separators
   * 28 to 31, and the space (32).
   */
  predicate IsSpace(c: char) {
    c == '\t' || c == '\n' || c == 11 as char || c == 12 as char || c == '\r' ||
    c == 28 as char || c == 29 as char || c == 30 as char || c == 31 as char || c == ' '
  }

  /** `s.lstrip()`: the leading white space goes, and only that. */
  function StripLeft(s: string): (r: string)
    ensures |r| <= |s| && r == s[|s| - |r|..]
    ensures forall i :: 0 <= i < |s| - |r| ==> IsSpace(s[i])
    ensures |r| > 0 ==> !IsSpace(r[0])
  {
    if |s| > 0 && IsSpace(s[0]) then StripLeft(s[1..]) else s
  }

  /** `s.rstrip()`: the trailing white space goes, and only that. */
  function StripRight(s: string): (r: string)
    ensures |r| <= |s| && r == s[..|r|]
    ensures forall i :: |r| <= i < |s| ==> IsSpace(s[i])
    ensures |r| > 0 ==> !IsSpace(r[|r| - 1])
  {
    if |s| > 0 && IsSpace(s[|s| - 1]) then StripRight(s[..|s| - 1]) else s
  }

  /** `s` has no white space to strip at either end. */
  predicate IsStripped(s: string) {
    |s| == 0 || (!IsSpace(s[0]) && !IsSpace(s[|s| - 1]))
  }

  /** `r` is the slice of `s` from `a` on, and every character of `s` outside it is white space. */
  predicate TrimmedAt(s: string, r: string, a: nat) {
    a + |r| <= |s| && r == s[a..a + |r|] &&
    (forall i :: 0 <= i < a ==> IsSpace(s[i])) && (forall i :: a + |r| <= i < |s| ==> IsSpace(s[i]))
  }

  /**
   * `s.strip()`: the slice of `s` left when the white space at both ends is
   * removed; everything removed is white space, and what is kept starts and
   * ends with something else.
   */
  function Strip(s: string): (r: string)
    ensures exists a :: TrimmedAt(s, r, a)
    ensures |r| > 0 ==> !IsSpace(r[0]) && !IsSpace(r[|r| - 1])
  {
    var l := StripLeft(s);
    StripBoth(s, l);
    StripRight(l)
  }

  /** Stripping the left end and then the right trims `s` at the length the left strip removed. */
  lemma StripBoth(s: string, l: string)
    requires |l| <= |s| && l == s[|s| - |l|..]
    requires forall i :: 0 <= i < |s| - |l| ==> IsSpace(s[i])
    requires |l| > 0 ==> !IsSpace(l[0])
    ensures TrimmedAt(s, StripRight(l), |s| - |l|)
    ensures |StripRight(l)| > 0 ==> !IsSpace(StripRight(l)[0]) && !IsSpace(StripRight(l)[|StripRight(l)| - 1])
  {
    var a := |s| - |l|;
    StripRightSlice(s, l, a);
    StripRightTail(s, l, a);
    StripRightFirst(l);
  }

  /** The right strip of a suffix of `s` is a slice of `s`. */
  lemma StripRightSlice(s: string, l: string, a: nat)
    requires a <= |s| && l == s[a..]
    ensures a + |StripRight(l)| <= |s| && StripRight(l) == s[a..a + |StripRight(l)|]
  {
  }

  /** The right strip keeps the first character of what it keeps. */
  lemma StripRightFirst(l: string)
    requires |l| > 0 ==> !IsSpace(l[0])
    ensures |StripRight(l)| > 0 ==> !IsSpace(StripRight(l)[0])
  {
    if |StripRight(l)| > 0 {
      assert StripRight(l)[0] == l[0];
    }
  }

  /** What the right strip of a suffix `l` of `s` removes is white space of `s`. */
  lemma StripRightTail(s: string, l: string, a: nat)
    requires a <= |s| && l == s[a..]
    ensures forall i :: a + |StripRight(l)| <= i < |s| ==> IsSpace(s[i])
  {
    forall i | a + |StripRight(l)| <= i < |s|
      ensures IsSpace(s[i])
    {
      assert s[i] == l[i - a];
    }
  }

  /** Stripping leaves a stripped string alone, and removes one leading blank. */
  lemma StripStripped(v: string)
    requires IsStripped(v)
    ensures Strip(v) == v
    ensures Strip(" " + v) == v
  {
    var w := " " + v;
    assert w[1..] == v;
    StripEnds(v);
    assert StripLeft(w) == v;
    assert Strip(w) == StripRight(v);
    assert Strip(v) == StripRight(v);
  }

  lemma StripEnds(v: string)
    requires IsStripped(v)
    ensures StripLeft(v) == v && StripRight(v) == v
  {
  }
}
