/**
 * String helpers shared by the model: the subset of Python's `str` behaviour
 * the repository relies on (`strip`, `lower`, `in`, `startswith`, `split`,
 * `join`, `replace(old, "")` and `str(int)`), restricted to ASCII.
 */
module Text {

  /**
   * Python's `str.isspace` on the ASCII range: the space, the controls
   * `\t \n \x0b \x0c \r` (9 to 13) and the separators `\x1c` to `\x1f`.
   */
  predicate IsSpace(c: char) {
    c == ' ' || '\t' <= c <= '\r' || '\U{001C}' <= c <= '\U{001F}'
  }

  /** `s.lstrip()` */
  function StripStart(s: string): (r: string)
    ensures |r| <= |s| && r == s[|s| - |r|..]
    ensures r != [] ==> !IsSpace(r[0])
  {
    if s != [] && IsSpace(s[0]) then StripStart(s[1..]) else s
  }

  /** `s.rstrip()` */
  function StripEnd(s: string): (r: string)
    ensures |r| <= |s| && r == s[..|r|]
    ensures r != [] ==> !IsSpace(r[|r| - 1])
  {
    if s != [] && IsSpace(s[|s| - 1]) then StripEnd(s[..|s| - 1]) else s
  }

  /** `s.strip()`: the result is `s` without its leading and trailing whitespace. */
  function Strip(s: string): (r: string)
    ensures |r| <= |s|
    ensures r != [] ==> !IsSpace(r[0]) && !IsSpace(r[|r| - 1])
    ensures s != [] && IsSpace(s[|s| - 1]) ==> |r| < |s|
  {
    StripEnd(StripStart(s))
  }

  /** `lstrip` removes exactly the leading run of whitespace, here of length `k`. */
  lemma {:induction false} StripStartAt(s: string, k: nat)
    requires k <= |s|
    requires forall i :: 0 <= i < k ==> IsSpace(s[i])
    requires k < |s| ==> !IsSpace(s[k])
    ensures StripStart(s) == s[k..]
    decreases k
  {
    if k > 0 {
      StripStartAt(s[1..], k - 1);
      assert s[1..][k - 1..] == s[k..];
    }
  }

  /** `rstrip` removes exactly the trailing run of whitespace, the one after index `k`. */
  lemma {:induction false} StripEndAt(s: string, k: nat)
    requires k <= |s|
    requires forall i :: k <= i < |s| ==> IsSpace(s[i])
    requires k > 0 ==> !IsSpace(s[k - 1])
    ensures StripEnd(s) == s[..k]
    decreases |s| - k
  {
    if k < |s| {
      var t := s[..|s| - 1];
      StripEndAt(t, k);
      assert t[..k] == s[..k];
    }
  }

  /** `lstrip` of the slice `text[lo..hi]` starts at `a` when `[lo, a)` is whitespace and `text[a]` is not. */
  lemma StripStartSlice(text: string, lo: nat, hi: nat, a: nat)
    requires lo <= a <= hi <= |text|
    requires forall i :: lo <= i < a ==> IsSpace(text[i])
    requires a < hi ==> !IsSpace(text[a])
    ensures StripStart(text[lo..hi]) == text[a..hi]
  {
    var s := text[lo..hi];
    assert forall i :: 0 <= i < |s| ==> s[i] == text[lo + i];
    StripStartAt(s, a - lo);
    assert s[a - lo..] == text[a..hi];
  }

  /** `rstrip` of the slice `text[a..hi]` ends at `b` when `[b, hi)` is whitespace and `text[b - 1]` is not. */
  lemma StripEndSlice(text: string, a: nat, hi: nat, b: nat)
    requires a <= b <= hi <= |text|
    requires forall i :: b <= i < hi ==> IsSpace(text[i])
    requires b > a ==> !IsSpace(text[b - 1])
    ensures StripEnd(text[a..hi]) == text[a..b]
  {
    var t := text[a..hi];
    assert forall i :: 0 <= i < |t| ==> t[i] == text[a + i];
    StripEndAt(t, b - a);
    assert t[..b - a] == text[a..b];
  }

  /** `strip` of the slice `text[lo..hi]` keeps `text[a..b]`, when `[lo, a)` and `[b, hi)` are the whitespace around it. */
  lemma StripSlice(text: string, lo: nat, hi: nat, a: nat, b: nat)
    requires lo <= a <= b <= hi <= |text|
    requires forall i :: lo <= i < a ==> IsSpace(text[i])
    requires a < hi ==> !IsSpace(text[a])
    requires forall i :: b <= i < hi ==> IsSpace(text[i])
    requires b > a ==> !IsSpace(text[b - 1])
    ensures Strip(text[lo..hi]) == text[a..b]
  {
    StripStartSlice(text, lo, hi, a);
    StripEndSlice(text, a, hi, b);
  }

  /** `p` occurs in `s` starting at offset `k`. */
  predicate OccursAt(p: string, s: string, k: int) {
    0 <= k <= |s| - |p| && s[k..k + |p|] == p
  }

  /** An occurrence inside the slice `s[lo..hi]` is an occurrence in `s`, shifted by `lo`. */
  lemma OccursInSlice(p: string, s: string, lo: nat, hi: nat, a: int)
    requires lo <= hi <= |s| && OccursAt(p, s[lo..hi], a)
    ensures OccursAt(p, s, lo + a)
  {
    var t := s[lo..hi];
    assert |t| == hi - lo;
    assert forall i :: a <= i < a + |p| ==> t[i] == s[lo + i];
    assert t[a..a + |p|] == s[lo + a..lo + a + |p|];
  }

  /** The stripped string is a contiguous piece of the original. */
  lemma StripIsSlice(s: string)
    ensures exists a :: OccursAt(Strip(s), s, a)
  {
    var t := StripStart(s);
    var a := |s| - |t|;
    var r := StripEnd(t);
    assert r == t[..|r|] == s[a..][..|r|] == s[a..a + |r|];
    assert r == Strip(s);
    assert OccursAt(Strip(s), s, a);
  }

  /** A string that neither starts nor ends with whitespace is left unchanged by `strip`. */
  lemma StripUnchanged(s: string)
    requires s != [] ==> !IsSpace(s[0]) && !IsSpace(s[|s| - 1])
    ensures Strip(s) == s
  {
    assert StripStart(s) == s;
  }

  function LowerChar(c: char): char {
    if 'A' <= c <= 'Z' then (c as int + 32) as char else c
  }

  /** `s.lower()` */
  function Lower(s: string): (r: string)
    ensures |r| == |s| && forall i :: 0 <= i < |s| ==> r[i] == LowerChar(s[i])
  {
    seq(|s|, i requires 0 <= i < |s| => LowerChar(s[i]))
  }

  /** `s.startswith(p)` */
  predicate StartsWith(s: string, p: string) {
    |p| <= |s| && s[..|p|] == p
  }

  /** `p in s` for strings (the empty string is in every string). */
  predicate IsSubstring(p: string, s: string)
    decreases |s|
  {
    StartsWith(s, p) || (s != [] && IsSubstring(p, s[1..]))
  }

  /** `p in s` holds exactly when `p` occurs at some offset of `s`. */
  lemma {:induction false} IsSubstringAt(p: string, s: string)
    ensures IsSubstring(p, s) <==> exists k :: OccursAt(p, s, k)
    decreases |s|
  {
    if StartsWith(s, p) {
      assert OccursAt(p, s, 0);
    }
    if s != [] {
      IsSubstringAt(p, s[1..]);
      if exists k :: OccursAt(p, s, k) {
        var k :| OccursAt(p, s, k);
        if k > 0 {
          assert s[1..][k - 1..k - 1 + |p|] == p;
          assert OccursAt(p, s[1..], k - 1);
        }
      }
      if exists k :: OccursAt(p, s[1..], k) {
        var k :| OccursAt(p, s[1..], k);
        assert s[k + 1..k + 1 + |p|] == p;
        assert OccursAt(p, s, k + 1);
      }
    }
  }

  /**
   * `s.split(sep)` for a one-character separator: the pieces between the
   * occurrences of `sep`; there is always at least one piece.
   */
  function Split(s: string, sep: char): (r: seq<string>)
    ensures |r| >= 1
    ensures forall k :: 0 <= k < |r| ==> sep !in r[k]
  {
    if s == [] then [""]
    else if s[0] == sep then [""] + Split(s[1..], sep)
    else
      var rest := Split(s[1..], sep);
      [[s[0]] + rest[0]] + rest[1..]
  }

  /** `sep.join(parts)` */
  function Join(sep: string, parts: seq<string>): string {
    if |parts| == 0 then ""
    else if |parts| == 1 then parts[0]
    else parts[0] + sep + Join(sep, parts[1..])
  }

  /** Joining after appending a part adds one separator and that part at the end. */
  lemma {:induction false} JoinSnoc(sep: string, parts: seq<string>, x: string)
    ensures Join(sep, parts + [x]) == if parts == [] then x else Join(sep, parts) + sep + x
  {
    if |parts| >= 2 {
      assert (parts + [x])[1..] == parts[1..] + [x];
      JoinSnoc(sep, parts[1..], x);
    } else if |parts| == 1 {
      assert (parts + [x])[1..] == [x];
    }
  }

  /** Splitting and joining back with the same separator is the identity. */
  lemma {:induction false} JoinSplit(s: string, sep: char)
    ensures Join([sep], Split(s, sep)) == s
  {
    if s != [] {
      JoinSplit(s[1..], sep);
      var rest := Split(s[1..], sep);
      if s[0] == sep {
        assert ([""] + rest)[1..] == rest;
      } else if |rest| == 1 {
        assert s == [s[0]] + rest[0];
      } else {
        var r := [[s[0]] + rest[0]] + rest[1..];
        assert r[1..] == rest[1..];
        assert Join([sep], rest) == rest[0] + [sep] + Join([sep], rest[1..]);
      }
    }
  }

  /** A character that no part and not the separator contains is absent from the join. */
  lemma {:induction false} JoinAvoids(sep: string, parts: seq<string>, c: char)
    requires c !in sep
    requires forall k :: 0 <= k < |parts| ==> c !in parts[k]
    ensures c !in Join(sep, parts)
  {
    if |parts| >= 2 {
      JoinAvoids(sep, parts[1..], c);
    }
  }

  /** The join of a prefix of the parts is no longer than the join of them all. */
  lemma {:induction false} JoinPrefixLength(sep: string, parts: seq<string>, n: nat)
    requires n <= |parts|
    ensures |Join(sep, parts[..n])| <= |Join(sep, parts)|
  {
    if n > 0 && |parts| >= 2 {
      if n == 1 {
        assert parts[..1] == [parts[0]];
      } else {
        assert parts[..n][1..] == parts[1..][..n - 1];
        JoinPrefixLength(sep, parts[1..], n - 1);
      }
    }
  }

  /**
   * `s.replace(pat, "")`: Python scans left to right and removes the
   * non-overlapping occurrences of `pat` it meets.
   */
  function RemoveAll(s: string, pat: string): (r: string)
    requires pat != []
    ensures |r| <= |s|
    decreases |s|
  {
    if |s| < |pat| then s
    else if s[..|pat|] == pat then RemoveAll(s[|pat|..], pat)
    else [s[0]] + RemoveAll(s[1..], pat)
  }

  function DigitChar(d: nat): char
    requires d < 10
  {
    ('0' as int + d) as char
  }

  predicate IsDigitChar(c: char) {
    '0' <= c <= '9'
  }

  /** `str(n)` for a non-negative integer. */
  function NatToString(n: nat): (r: string)
    ensures |r| >= 1
    ensures forall k :: 0 <= k < |r| ==> IsDigitChar(r[k])
    ensures n >= 10 ==> |r| >= 2
    decreases n
  {
    if n < 10 then [DigitChar(n)] else NatToString(n / 10) + [DigitChar(n % 10)]
  }

  /** Distinct numbers print differently. */
  lemma {:induction false} NatToStringInjective(m: nat, n: nat)
    requires NatToString(m) == NatToString(n)
    ensures m == n
    decreases m
  {
    var s := NatToString(m);
    assert s[|s| - 1] == DigitChar(m % 10) == DigitChar(n % 10);
    if m >= 10 && n >= 10 {
      assert NatToString(m / 10) == s[..|s| - 1] == NatToString(n / 10);
      NatToStringInjective(m / 10, n / 10);
    }
  }

  /** `str(i)` for any integer. */
  function IntToString(i: int): (r: string)
    ensures |r| >= 1
  {
    if i < 0 then "-" + NatToString(-i) else NatToString(i)
  }

  /** `format(n, "02d")` for `0 <= n < 100`: exactly two digits, most significant first. */
  function Pad2(n: nat): (r: string)
    requires n < 100
    ensures |r| == 2 && r[0] == DigitChar(n / 10) && r[1] == DigitChar(n % 10)
  {
    if n < 10 then "0" + NatToString(n)
    else
      assert NatToString(n) == NatToString(n / 10) + [DigitChar(n % 10)];
      NatToString(n)
  }

  /**
   * `a` is `b` with some elements dropped and the rest kept in order; the
   * last element of `a` is matched against the latest possible element of `b`.
   */
  predicate IsSubsequence<T(==)>(a: seq<T>, b: seq<T>)
    decreases |b|
  {
    if a == [] then true
    else if b == [] then false
    else if a[|a| - 1] == b[|b| - 1] then IsSubsequence(a[..|a| - 1], b[..|b| - 1])
    else IsSubsequence(a, b[..|b| - 1])
  }
}
