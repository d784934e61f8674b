/**
 * The few pieces of Python's `str` behaviour that the pipeline relies on:
 * `isspace`/`strip`, ASCII `lower`, the substring test `sub in s` and `str(n)` for integers.
 */
module Text {

  /** `c.isspace()`: the characters Python treats as whitespace. */
  predicate IsSpace(c: char) {
    c == ' ' || ('\t' <= c <= '\r') || ('\U{1c}' <= c <= '\U{1f}')
    || c == '\U{85}' || c == '\U{a0}' || c == '\U{1680}' || ('\U{2000}' <= c <= '\U{200a}')
    || c == '\U{2028}' || c == '\U{2029}' || c == '\U{202f}' || c == '\U{205f}' || c == '\U{3000}'
  }

  predicate AllSpace(s: string) {
    forall i :: 0 <= i < |s| ==> IsSpace(s[i])
  }

  /** The first position at or after i that does not hold whitespace, or |s|. */
  function SkipSpace(s: string, i: nat): (k: nat)
    requires i <= |s|
    ensures i <= k <= |s|
    ensures forall j :: i <= j < k ==> IsSpace(s[j])
    ensures k < |s| ==> !IsSpace(s[k])
    decreases |s| - i
  {
    if i < |s| && IsSpace(s[i]) then SkipSpace(s, i + 1) else i
  }

  /** The position just past the last non-whitespace character in s[lo..hi], or lo. */
  function SkipSpaceBack(s: string, lo: nat, hi: nat): (k: nat)
    requires lo <= hi <= |s|
    ensures lo <= k <= hi
    ensures forall j :: k <= j < hi ==> IsSpace(s[j])
    ensures k > lo ==> !IsSpace(s[k - 1])
    decreases hi - lo
  {
    if lo < hi && IsSpace(s[hi - 1]) then SkipSpaceBack(s, lo, hi - 1) else hi
  }

  /** `s.strip()`: whitespace cut from both ends. */
  function Strip(s: string): string {
    s[SkipSpace(s, 0)..SkipSpaceBack(s, SkipSpace(s, 0), |s|)]
  }

  /**
   * The stripped string is the slice of `s` left after cutting whitespace
   * from both ends, and neither starts nor ends with whitespace.
   */
  lemma StripShape(s: string)
    ensures exists lo, hi ::
      0 <= lo <= hi <= |s| && Strip(s) == s[lo..hi] && AllSpace(s[..lo]) && AllSpace(s[hi..])
    ensures var r := Strip(s); r == [] || (!IsSpace(r[0]) && !IsSpace(r[|r| - 1]))
  {
    var lo := SkipSpace(s, 0);
    var hi := SkipSpaceBack(s, lo, |s|);
    var r := s[lo..hi];
    assert Strip(s) == r;
    forall j | 0 <= j < lo
      ensures IsSpace(s[..lo][j])
    {
      assert s[..lo][j] == s[j];
    }
    forall j | 0 <= j < |s| - hi
      ensures IsSpace(s[hi..][j])
    {
      assert s[hi..][j] == s[hi + j];
    }
    if r != [] {
      assert r[0] == s[lo] && r[|r| - 1] == s[hi - 1];
    }
  }

  /** ASCII case folding of one character; every other character is kept. */
  function LowerChar(c: char): char {
    if 'A' <= c <= 'Z' then (c as int - 'A' as int + 'a' as int) as char else c
  }

  function Lower(s: string): (r: string)
    ensures |r| == |s|
  {
    seq(|s|, i requires 0 <= i < |s| => LowerChar(s[i]))
  }

  /** `sub in s` for strings, scanning from the left. */
  function Contains(s: string, sub: string): bool
    decreases |s|
  {
    if |sub| > |s| then false
    else s[..|sub|] == sub || (s != [] && Contains(s[1..], sub))
  }

  predicate OccursAt(s: string, sub: string, i: int) {
    0 <= i <= |s| - |sub| && s[i..i + |sub|] == sub
  }

  /** A slice of the tail is the slice of the whole one position further on. */
  lemma TailSlice(s: string, i: nat, len: nat)
    requires 0 < |s| && i + len <= |s| - 1
    ensures s[1..][i..i + len] == s[i + 1..i + 1 + len]
  {
  }

  /** The scan agrees with the definition: some slice of `s` equals `sub`. */
  lemma {:induction false} ContainsIff(s: string, sub: string)
    ensures Contains(s, sub) <==> exists i :: OccursAt(s, sub, i)
    decreases |s|
  {
    if |sub| > |s| {
    } else if s[..|sub|] == sub {
      assert OccursAt(s, sub, 0);
    } else {
      ContainsIff(s[1..], sub);
      if Contains(s, sub) {
        var i :| OccursAt(s[1..], sub, i);
        TailSlice(s, i, |sub|);
        assert OccursAt(s, sub, i + 1);
      }
      if exists i :: OccursAt(s, sub, i) {
        var i :| OccursAt(s, sub, i);
        assert i != 0;
        TailSlice(s, i - 1, |sub|);
        assert OccursAt(s[1..], sub, i - 1);
      }
    }
  }

  function DigitChar(d: nat): (c: char)
    requires d < 10
  {
    ('0' as int + d) as char
  }

  /** `str(n)` for a non-negative integer: its decimal digits, most significant first. */
  function NatToString(n: nat): (r: string)
    ensures |r| >= 1
    ensures forall i :: 0 <= i < |r| ==> '0' <= r[i] <= '9'
    ensures (|r| == 1) == (n < 10)
    decreases n
  {
    if n < 10 then [DigitChar(n)] else NatToString(n / 10) + [DigitChar(n % 10)]
  }

  /** `str(n)` for any integer: a minus sign before the digits of a negative number. */
  function IntToString(n: int): (r: string)
    ensures |r| >= 1
    ensures (r[0] == '-') == (n < 0)
  {
    if n < 0 then "-" + NatToString(-n) else NatToString(n)
  }

  /** Different numbers print differently. */
  lemma {:induction false} NatToStringInjective(n: nat, m: nat)
    requires NatToString(n) == NatToString(m)
    ensures n == m
    decreases n
  {
    if n >= 10 && m >= 10 {
      var a, b := NatToString(n), NatToString(m);
      assert a[..|a| - 1] == NatToString(n / 10);
      assert b[..|b| - 1] == NatToString(m / 10);
      NatToStringInjective(n / 10, m / 10);
      assert DigitChar(n % 10) == a[|a| - 1] == b[|b| - 1] == DigitChar(m % 10);
    }
  }

  lemma IntToStringInjective(n: int, m: int)
    requires IntToString(n) == IntToString(m)
    ensures n == m
  {
    if n < 0 {
      assert IntToString(n)[1..] == NatToString(-n);
      assert IntToString(m)[1..] == NatToString(-m);
      NatToStringInjective(-n, -m);
    } else {
      NatToStringInjective(n, m);
    }
  }
}
