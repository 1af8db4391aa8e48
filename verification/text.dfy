/**
 * The few Python string built-ins the session logic relies on:
 * `str.find`, `str.rfind`, `str.strip`, `str.isdigit` and `str.split(sep, maxsplit)`.
 * Strings are sequences of Unicode code points, as in Python 3.
 */
module Text {

  /** The characters for which Python's `str.isspace()` holds (the ones `strip()` removes). */
  predicate IsWhitespace(c: char) {
    || c == ' ' || ('\t' <= c <= '\r') || ('\U{001C}' <= c <= '\U{001F}')
    || c == '\U{0085}' || c == '\U{00A0}' || c == '\U{1680}' || ('\U{2000}' <= c <= '\U{200A}')
    || c == '\U{2028}' || c == '\U{2029}' || c == '\U{202F}' || c == '\U{205F}' || c == '\U{3000}'
  }

  /** Decimal digits: ASCII `0`-`9` and their full-width forms `０`-`９`. */
  predicate IsDigit(c: char) {
    ('0' <= c <= '9') || ('\U{FF10}' <= c <= '\U{FF19}')
  }

  /** `s.find(c)`: the left-most index of `c` in `s`, or -1. */
  function Find(s: string, c: char): (r: int)
    ensures -1 <= r < |s|
    ensures r == -1 ==> forall i :: 0 <= i < |s| ==> s[i] != c
    ensures r >= 0 ==> s[r] == c && forall i :: 0 <= i < r ==> s[i] != c
  {
    if s == [] then -1
    else if s[0] == c then 0
    else
      var k := Find(s[1..], c);
      assert forall i :: 1 <= i < |s| ==> s[1..][i - 1] == s[i];
      if k == -1 then -1 else k + 1
  }

  /** `s.rfind(c)`: the right-most index of `c` in `s`, or -1. */
  function RFind(s: string, c: char): (r: int)
    ensures -1 <= r < |s|
    ensures r == -1 <==> c !in s
    ensures r >= 0 ==> s[r] == c && forall i :: r < i < |s| ==> s[i] != c
  {
    if s == [] then -1
    else if s[|s| - 1] == c then |s| - 1
    else
      assert c in s <==> c in s[..|s| - 1] by {
        assert s == s[..|s| - 1] + [s[|s| - 1]];
      }
      RFind(s[..|s| - 1], c)
  }

  /** Where `s.lstrip()` starts when scanning from `k`: the first non-whitespace position at or after `k`, or `|s|`. */
  function StripStart(s: string, k: nat): (a: nat)
    requires k <= |s|
    ensures k <= a <= |s|
    ensures forall i :: k <= i < a ==> IsWhitespace(s[i])
    ensures a < |s| ==> !IsWhitespace(s[a])
    decreases |s| - k
  {
    if k < |s| && IsWhitespace(s[k]) then StripStart(s, k + 1) else k
  }

  /** Where `s[lo..k].rstrip()` ends: the position after the last non-whitespace character in `[lo, k)`, or `lo`. */
  function StripEnd(s: string, lo: nat, k: nat): (b: nat)
    requires lo <= k <= |s|
    ensures lo <= b <= k
    ensures forall i :: b <= i < k ==> IsWhitespace(s[i])
    ensures lo < b ==> !IsWhitespace(s[b - 1])
    decreases k - lo
  {
    if lo < k && IsWhitespace(s[k - 1]) then StripEnd(s, lo, k - 1) else k
  }

  /** `s.strip()`: whitespace on neither end of the result (see StripIsInnerSlice for what is cut). */
  function Strip(s: string): (r: string)
    ensures |r| <= |s|
    ensures r != [] ==> !IsWhitespace(r[0]) && !IsWhitespace(r[|r| - 1])
  {
    var a := StripStart(s, 0);
    s[a..StripEnd(s, a, |s|)]
  }

  /** What `strip()` keeps is one slice of `s`, and everything it cuts away is whitespace. */
  lemma StripIsInnerSlice(s: string)
    ensures var a := StripStart(s, 0); var r := Strip(s);
      && a + |r| <= |s| && r == s[a..a + |r|]
      && (forall k :: 0 <= k < a ==> IsWhitespace(s[k]))
      && (forall k :: a + |r| <= k < |s| ==> IsWhitespace(s[k]))
  {
  }

  /** A string with no whitespace at either end is its own `strip()`. */
  lemma StripKeepsTrimmed(s: string)
    requires s != [] && !IsWhitespace(s[0]) && !IsWhitespace(s[|s| - 1])
    ensures Strip(s) == s
  {
    assert StripStart(s, 0) == 0;
    assert StripEnd(s, 0, |s|) == |s|;
  }

  /** `strip()` adds no character: what is absent from `s` is absent from `s.strip()`. */
  lemma StripKeepsAbsent(s: string, c: char)
    requires c !in s
    ensures c !in Strip(s)
  {
    var a := StripStart(s, 0);
    var r := Strip(s);
    forall k | 0 <= k < |r| ensures r[k] != c {
      assert r[k] == s[a + k];
    }
  }

  /** `s.split(sep)[0]`: the text before the first separator, or all of `s`. */
  function FirstField(s: string, sep: char): (r: string)
    ensures sep !in r
    ensures r == s || (|r| < |s| && s[..|r| + 1] == r + [sep])
  {
    var i := Find(s, sep);
    if i < 0 then s else s[..i]
  }

  /** The separated fields joined back together: Python's `sep.join(parts)`. */
  function Join(parts: seq<string>, sep: char): string
    requires parts != []
  {
    if |parts| == 1 then parts[0] else parts[0] + [sep] + Join(parts[1..], sep)
  }

  /**
   * `s.split(sep, maxsplit)` for a one-character separator: at most `maxsplit`
   * splits, made at the left-most separators.
   */
  function SplitN(s: string, sep: char, maxsplit: nat): (parts: seq<string>)
    ensures 1 <= |parts| <= maxsplit + 1
    decreases maxsplit
  {
    var i := Find(s, sep);
    if maxsplit == 0 || i < 0 then [s] else [s[..i]] + SplitN(s[i + 1..], sep, maxsplit - 1)
  }

  lemma SplitAround(s: string, i: nat)
    requires i < |s|
    ensures s == s[..i] + [s[i]] + s[i + 1..]
  {
  }

  lemma JoinCons(x: string, rest: seq<string>, sep: char)
    requires rest != []
    ensures Join([x] + rest, sep) == x + [sep] + Join(rest, sep)
  {
    assert ([x] + rest)[1..] == rest;
  }

  /** Joining the fields back with the separator gives the original string. */
  lemma {:induction false} SplitNJoins(s: string, sep: char, maxsplit: nat)
    ensures Join(SplitN(s, sep, maxsplit), sep) == s
    decreases maxsplit
  {
    var i := Find(s, sep);
    if maxsplit != 0 && i >= 0 {
      var rest := SplitN(s[i + 1..], sep, maxsplit - 1);
      SplitNJoins(s[i + 1..], sep, maxsplit - 1);
      var parts := SplitN(s, sep, maxsplit);
      assert parts == [s[..i]] + rest;
      JoinCons(s[..i], rest, sep);
      assert Join(parts, sep) == s[..i] + [sep] + s[i + 1..];
      SplitAround(s, i);
    }
  }

  /** With at least one split allowed, the first field is the text before the first separator (`s.split(sep)[0]`). */
  lemma SplitNFirst(s: string, sep: char, maxsplit: nat)
    requires maxsplit > 0
    ensures SplitN(s, sep, maxsplit)[0] == FirstField(s, sep)
  {
  }
}
