/**
 * Character and string helpers that stand in for the Python string
 * methods the pipeline relies on: `str.strip`, `str.lower`, `str.upper`,
 * `str.isalpha`, `in` on strings, and decimal conversion of integers.
 */
module Text {

  /** Python's `str.isspace`: bidirectional classes WS, B, S and category Zs. */
  predicate IsSpace(c: char) {
    c == ' ' || ('\t' <= c <= '\r') || ('\U{1c}' <= c <= '\U{1f}')
    || c == '\U{85}' || c == '\U{a0}' || c == '\U{1680}'
    || ('\U{2000}' <= c <= '\U{200a}') || c == '\U{2028}' || c == '\U{2029}'
    || c == '\U{202f}' || c == '\U{205f}' || c == '\U{3000}'
  }

  predicate AllSpace(s: string) {
    forall k :: 0 <= k < |s| ==> IsSpace(s[k])
  }

  /** A string with no whitespace at either end. */
  predicate IsTrimmed(s: string) {
    s == [] || (!IsSpace(s[0]) && !IsSpace(s[|s| - 1]))
  }

  /** Drops the leading whitespace: what remains is a suffix that starts with a non-space. */
  function TrimLeft(s: string): (r: string)
    ensures |r| <= |s| && r == s[|s| - |r|..]
    ensures AllSpace(s[..|s| - |r|])
    ensures r == [] || !IsSpace(r[0])
  {
    if s != [] && IsSpace(s[0]) then
      var t := s[1..];
      var r := TrimLeft(t);
      assert t[|t| - |r|..] == s[|s| - |r|..];
      assert s[..|s| - |r|] == [s[0]] + t[..|t| - |r|];
      r
    else s
  }

  /** Drops the trailing whitespace: what remains is a prefix that ends with a non-space. */
  function TrimRight(s: string): (r: string)
    ensures |r| <= |s| && r == s[..|r|]
    ensures AllSpace(s[|r|..])
    ensures r == [] || !IsSpace(r[|r| - 1])
  {
    if s != [] && IsSpace(s[|s| - 1]) then
      var t := s[..|s| - 1];
      var r := TrimRight(t);
      assert t[..|r|] == s[..|r|];
      assert s[|r|..] == t[|r|..] + [s[|s| - 1]];
      r
    else s
  }

  /** A string is all whitespace exactly when both parts of any split of it are. */
  lemma AllSpaceSplit(s: string, n: nat)
    requires n <= |s|
    ensures AllSpace(s) <==> AllSpace(s[..n]) && AllSpace(s[n..])
  {
    assert forall k :: 0 <= k < n ==> s[..n][k] == s[k];
    assert forall k :: n <= k < |s| ==> s[n..][k - n] == s[k];
  }

  /** `r` is `s` with only whitespace removed from its front and its back. */
  predicate IsSliceBetweenSpaces(s: string, r: string) {
    exists i, j :: 0 <= i <= j <= |s| && r == s[i..j] && AllSpace(s[..i]) && AllSpace(s[j..])
  }

  /** Python's `str.strip()` with no argument. */
  function Strip(s: string): (r: string)
    ensures IsTrimmed(r)
    ensures |r| <= |s|
    ensures r == [] <==> AllSpace(s)
    ensures IsSliceBetweenSpaces(s, r)
  {
    var l := TrimLeft(s);
    var r := TrimRight(l);
    SliceBetween(s, l, r);
    r
  }

  /**
   * Cutting whitespace off the front of `s` to get `l`, then off the back of
   * `l` to get `r`, leaves a trimmed slice of `s` between whitespace, which is
   * empty exactly when `s` is all whitespace.
   */
  lemma SliceBetween(s: string, l: string, r: string)
    requires |l| <= |s| && l == s[|s| - |l|..] && AllSpace(s[..|s| - |l|]) && (l == [] || !IsSpace(l[0]))
    requires |r| <= |l| && r == l[..|r|] && AllSpace(l[|r|..]) && (r == [] || !IsSpace(r[|r| - 1]))
    ensures IsTrimmed(r)
    ensures r == [] <==> AllSpace(s)
    ensures IsSliceBetweenSpaces(s, r)
  {
    var i := |s| - |l|;
    var j := i + |r|;
    AllSpaceSplit(s, i);
    AllSpaceSplit(l, |r|);
    assert r != [] ==> r[0] == l[0];
    assert s[j..] == l[|r|..];
    assert r == s[i..j];
  }

  /** Stripping a string that has no whitespace at its ends leaves it unchanged. */
  lemma {:induction false} StripTrimmed(s: string)
    requires IsTrimmed(s)
    ensures Strip(s) == s
  {
    assert TrimLeft(s) == s;
    assert TrimRight(s) == s;
  }

  /** `strip` is idempotent. */
  lemma {:induction false} StripIdempotent(s: string)
    ensures Strip(Strip(s)) == Strip(s)
  {
    StripTrimmed(Strip(s));
  }

  /** Lower-cases the ASCII letters and leaves every other character alone. */
  function LowerChar(c: char): (r: char)
    ensures 'A' <= c <= 'Z' ==> 'a' <= r <= 'z'
    ensures !('A' <= c <= 'Z') ==> r == c
  {
    if 'A' <= c <= 'Z' then (c as int - 'A' as int + 'a' as int) as char else c
  }

  /** Upper-cases the ASCII letters and leaves every other character alone. */
  function UpperChar(c: char): (r: char)
    ensures 'a' <= c <= 'z' ==> 'A' <= r <= 'Z'
    ensures !('a' <= c <= 'z') ==> r == c
  {
    if 'a' <= c <= 'z' then (c as int - 'a' as int + 'A' as int) as char else c
  }

  function Lower(s: string): (r: string)
    ensures |r| == |s| && forall k :: 0 <= k < |s| ==> r[k] == LowerChar(s[k])
  {
    seq(|s|, k requires 0 <= k < |s| => LowerChar(s[k]))
  }

  function Upper(s: string): (r: string)
    ensures |r| == |s| && forall k :: 0 <= k < |s| ==> r[k] == UpperChar(s[k])
  {
    seq(|s|, k requires 0 <= k < |s| => UpperChar(s[k]))
  }

  predicate IsUpperLetters(s: string) {
    forall k :: 0 <= k < |s| ==> 'A' <= s[k] <= 'Z'
  }

  /** Upper-casing leaves a string of capital letters alone. */
  lemma UpperOfCapitals(s: string)
    requires IsUpperLetters(s)
    ensures Upper(s) == s
  {
  }

  /**
   * Python's `str.isalpha` on the Latin scripts: ASCII letters, the Latin-1
   * letters and the Latin Extended-A and -B blocks.
   */
  predicate IsAlpha(c: char) {
    ('A' <= c <= 'Z') || ('a' <= c <= 'z')
    || c == 'ª' || c == 'µ' || c == 'º'
    || ('À' <= c <= 'Ö') || ('Ø' <= c <= 'ö')
    || ('ø' <= c <= 'ɏ')
  }

  /** The alphabetic characters of `s`, in order. */
  function Letters(s: string): (r: string)
    ensures |r| <= |s|
    ensures forall k :: 0 <= k < |r| ==> IsAlpha(r[k])
    ensures (forall k :: 0 <= k < |s| ==> IsAlpha(s[k])) ==> r == s
    ensures |s| == 1 && !IsAlpha(s[0]) ==> r == []
  {
    if s == [] then []
    else if IsAlpha(s[0]) then [s[0]] + Letters(s[1..])
    else Letters(s[1..])
  }

  /**
   * The label of a concatenation is the concatenation of the labels: with the
   * one-character cases of `Letters`, every letter is kept, in order, and
   * every other character is dropped.
   */
  lemma {:induction false} LettersAppend(a: string, b: string)
    ensures Letters(a + b) == Letters(a) + Letters(b)
  {
    if a != [] {
      var t := a[1..];
      assert (a + b)[0] == a[0] && (a + b)[1..] == t + b;
      LettersAppend(t, b);
      var head := if IsAlpha(a[0]) then [a[0]] else [];
      assert Letters(a + b) == head + Letters(t + b);
      assert Letters(a) == head + Letters(t);
      assert head + (Letters(t) + Letters(b)) == (head + Letters(t)) + Letters(b);
    } else {
      assert a + b == b;
    }
  }

  /** `AY.1` is labelled `AY`: the dot and the digit are dropped. */
  lemma LettersExample()
    ensures Letters("AY.1") == "AY"
  {
    LettersAppend("AY", ".1");
    LettersAppend(".", "1");
    assert "AY" + ".1" == "AY.1" && "." + "1" == ".1";
  }

  /** Python's `sub in s` for strings. */
  predicate Contains(s: string, sub: string)
    decreases |s|
  {
    sub <= s || (s != [] && Contains(s[1..], sub))
  }

  /** `sub` occurs in `s` starting at position `i`. */
  predicate OccursAt(s: string, sub: string, i: int) {
    0 <= i <= |s| - |sub| && s[i..i + |sub|] == sub
  }

  /** `Contains` holds exactly when `sub` occurs at some position of `s`. */
  lemma {:induction false} ContainsAt(s: string, sub: string)
    ensures Contains(s, sub) <==> exists i :: OccursAt(s, sub, i)
  {
    if sub <= s {
      assert OccursAt(s, sub, 0);
    } else if s == [] {
    } else {
      ContainsAt(s[1..], sub);
      if exists i :: OccursAt(s, sub, i) {
        var i :| OccursAt(s, sub, i);
        assert s[1..][i - 1..i - 1 + |sub|] == sub;
        assert OccursAt(s[1..], sub, i - 1);
      }
      if Contains(s[1..], sub) {
        var i :| OccursAt(s[1..], sub, i);
        assert s[i + 1..i + 1 + |sub|] == sub;
        assert OccursAt(s, sub, i + 1);
      }
    }
  }

  predicate IsDigit(c: char) {
    '0' <= c <= '9'
  }

  /** A non-empty run of decimal digits. */
  predicate IsDigits(s: string) {
    |s| > 0 && forall k :: 0 <= k < |s| ==> IsDigit(s[k])
  }

  function DigitValue(c: char): (d: nat)
    requires IsDigit(c)
    ensures d < 10
  {
    c as int - '0' as int
  }

  function DigitChar(d: nat): (c: char)
    requires d < 10
    ensures IsDigit(c) && DigitValue(c) == d
  {
    (d + '0' as int) as char
  }

  /** The number a string of decimal digits denotes (the empty string denotes 0). */
  function DigitsValue(s: string): nat
    requires forall k :: 0 <= k < |s| ==> IsDigit(s[k])
  {
    if s == [] then 0 else 10 * DigitsValue(s[..|s| - 1]) + DigitValue(s[|s| - 1])
  }

  /** Python's `str(n)` for a non-negative integer. */
  function NatToString(n: nat): (s: string)
    ensures IsDigits(s)
    ensures |s| > 1 ==> s[0] != '0'
  {
    if n < 10 then [DigitChar(n)]
    else
      var p := NatToString(n / 10);
      p + [DigitChar(n % 10)]
  }

  /** Python's `str(n)` for any integer. */
  function IntToString(n: int): (s: string)
    ensures n >= 0 ==> IsDigits(s) && DigitsValue(s) == n
    ensures n < 0 ==> |s| > 1 && s[0] == '-' && IsDigits(s[1..]) && DigitsValue(s[1..]) == -n
    ensures |s| > 1 ==> s[0] != '0'
    ensures n < 0 && |s| > 2 ==> s[1] != '0'
  {
    if n < 0 then
      NatToStringRoundTrip(-n);
      var d := NatToString(-n);
      assert ("-" + d)[1..] == d;
      "-" + d
    else
      NatToStringRoundTrip(n);
      NatToString(n)
  }

  /** Reading back the decimal form of `n` yields `n`. */
  lemma {:induction false} NatToStringRoundTrip(n: nat)
    ensures DigitsValue(NatToString(n)) == n
  {
    var s := NatToString(n);
    if n >= 10 {
      NatToStringRoundTrip(n / 10);
      assert s[..|s| - 1] == NatToString(n / 10);
    }
  }

  /** Distinct integers have distinct decimal forms. */
  lemma IntToStringInjective(m: int, n: int)
    requires IntToString(m) == IntToString(n)
    ensures m == n
  {
    if m >= 0 && n >= 0 {
      NatToStringRoundTrip(m);
      NatToStringRoundTrip(n);
    } else if m < 0 && n < 0 {
      assert NatToString(-m) == IntToString(m)[1..];
      NatToStringRoundTrip(-m);
      NatToStringRoundTrip(-n);
    }
  }
}
