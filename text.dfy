/** Character classes and string helpers shared by the validators, the colour
    decoder and the string extensions. Swift's `String.count` (grapheme
    clusters) is modelled as the length of a `seq<char>`. */
module Text {

  predicate IsAsciiDigit(c: char) { '0' <= c <= '9' }
  predicate IsAsciiUpper(c: char) { 'A' <= c <= 'Z' }
  predicate IsAsciiLower(c: char) { 'a' <= c <= 'z' }
  predicate IsAsciiLetter(c: char) { IsAsciiUpper(c) || IsAsciiLower(c) }
  predicate IsAsciiAlnum(c: char) { IsAsciiLetter(c) || IsAsciiDigit(c) }

  predicate IsHexDigit(c: char)
  {
    IsAsciiDigit(c) || 'a' <= c <= 'f' || 'A' <= c <= 'F'
  }

  predicate AllDigits(s: string)
  {
    forall k :: 0 <= k < |s| ==> IsAsciiDigit(s[k])
  }

  /** Foundation's `CharacterSet.whitespacesAndNewlines`: the Unicode
      separators (categories Zs, Zl, Zp), U+0009 to U+000D and U+0085. */
  predicate IsWhitespaceOrNewline(c: char)
  {
    || '\U{0009}' <= c <= '\U{000D}'
    || c == ' ' || c == '\U{0085}' || c == '\U{00A0}' || c == '\U{1680}'
    || '\U{2000}' <= c <= '\U{200A}'
    || c == '\U{2028}' || c == '\U{2029}' || c == '\U{202F}' || c == '\U{205F}'
    || c == '\U{3000}'
  }

  function DigitChar(d: nat): (c: char)
    requires d < 10
    ensures IsAsciiDigit(c)
  {
    (('0' as int) + d) as char
  }

  function DigitValue(c: char): (d: nat)
    requires IsAsciiDigit(c)
    ensures d < 10 && DigitChar(d) == c
  {
    (c as int) - ('0' as int)
  }

  function HexDigitValue(c: char): (d: nat)
    requires IsHexDigit(c)
    ensures d < 16
    ensures IsAsciiDigit(c) ==> d == DigitValue(c)
  {
    if IsAsciiDigit(c) then DigitValue(c)
    else if 'a' <= c <= 'f' then (c as int) - ('a' as int) + 10
    else (c as int) - ('A' as int) + 10
  }

  // ---------------------------------------------------------------------
  // Trimming (`trimmingCharacters(in:)`), for any set of characters to strip

  /** The index of the first character at or after `i` that `strip` does
      not select (`|s|` when there is none). */
  function LeadingStripped(s: string, strip: char -> bool, i: nat): (n: nat)
    requires i <= |s|
    ensures i <= n <= |s|
    ensures forall k :: i <= k < n ==> strip(s[k])
    ensures n < |s| ==> !strip(s[n])
    decreases |s| - i
  {
    if i < |s| && strip(s[i]) then LeadingStripped(s, strip, i + 1) else i
  }

  /** The index just past the last character before `j` that `strip` does
      not select, looking no further back than `lo`. */
  function TrailingStart(s: string, strip: char -> bool, lo: nat, j: nat): (m: nat)
    requires lo <= j <= |s|
    ensures lo <= m <= j
    ensures forall k :: m <= k < j ==> strip(s[k])
    ensures lo < m ==> !strip(s[m - 1])
    decreases j
  {
    if lo < j && strip(s[j - 1]) then TrailingStart(s, strip, lo, j - 1) else j
  }

  /** Drops the characters that `strip` selects from both ends: the result
      is the slice of `s` between its strippable prefix and its strippable
      suffix. */
  function Trim(s: string, strip: char -> bool): (r: string)
    ensures |r| <= |s|
    ensures r != [] ==> !strip(r[0]) && !strip(r[|r| - 1])
    ensures r == [] <==> forall k :: 0 <= k < |s| ==> strip(s[k])
    ensures var i := LeadingStripped(s, strip, 0);
      && i + |r| <= |s| && r == s[i..i + |r|]
      && (forall k :: 0 <= k < i ==> strip(s[k]))
      && (forall k :: i + |r| <= k < |s| ==> strip(s[k]))
  {
    var a := LeadingStripped(s, strip, 0);
    s[a..TrailingStart(s, strip, a, |s|)]
  }

  /** The slice between a strippable prefix and a strippable suffix, with
      ends that are not strippable, is the trimmed string. */
  lemma TrimOf(s: string, strip: char -> bool, a: nat, b: nat)
    requires a < b <= |s|
    requires forall k :: 0 <= k < a ==> strip(s[k])
    requires forall k :: b <= k < |s| ==> strip(s[k])
    requires !strip(s[a]) && !strip(s[b - 1])
    ensures Trim(s, strip) == s[a..b]
  {
  }

  /** A strippable prefix of `s` stays strippable behind strippable padding. */
  lemma PaddedPrefixStripped(w1: string, s: string, w2: string, strip: char -> bool, a: nat)
    requires a <= |s|
    requires forall k :: 0 <= k < |w1| ==> strip(w1[k])
    requires forall k :: 0 <= k < a ==> strip(s[k])
    ensures forall k :: 0 <= k < |w1| + a ==> strip((w1 + s + w2)[k])
  {
    var u := w1 + s + w2;
    forall k | 0 <= k < |w1| + a
      ensures strip(u[k])
    {
      if k < |w1| {
        assert u[k] == w1[k];
      } else {
        assert u[k] == s[k - |w1|];
      }
    }
  }

  /** A strippable suffix of `s` stays strippable before strippable padding. */
  lemma PaddedSuffixStripped(w1: string, s: string, w2: string, strip: char -> bool, b: nat)
    requires b <= |s|
    requires forall k :: b <= k < |s| ==> strip(s[k])
    requires forall k :: 0 <= k < |w2| ==> strip(w2[k])
    ensures forall k :: |w1| + b <= k < |w1 + s + w2| ==> strip((w1 + s + w2)[k])
  {
    var u := w1 + s + w2;
    forall k | |w1| + b <= k < |u|
      ensures strip(u[k])
    {
      if k < |w1| + |s| {
        assert u[k] == s[k - |w1|];
      } else {
        assert u[k] == w2[k - |w1| - |s|];
      }
    }
  }

  /** Padding a string whose non-strippable core is `s[a..b]` with
      strippable characters on both sides keeps that core as the trimmed
      result. */
  lemma PaddedTrimOf(w1: string, s: string, w2: string, strip: char -> bool, a: nat, b: nat)
    requires a < b <= |s|
    requires forall k :: 0 <= k < |w1| ==> strip(w1[k])
    requires forall k :: 0 <= k < |w2| ==> strip(w2[k])
    requires forall k :: 0 <= k < a ==> strip(s[k])
    requires forall k :: b <= k < |s| ==> strip(s[k])
    requires !strip(s[a]) && !strip(s[b - 1])
    ensures Trim(w1 + s + w2, strip) == s[a..b]
  {
    var u := w1 + s + w2;
    PaddedPrefixStripped(w1, s, w2, strip, a);
    PaddedSuffixStripped(w1, s, w2, strip, b);
    assert u[|w1| + a] == s[a] && u[|w1| + b - 1] == s[b - 1];
    TrimOf(u, strip, |w1| + a, |w1| + b);
    assert u[|w1| + a..|w1| + b] == s[a..b];
  }

  /** Characters removed by trimming never matter: padding a string on both
      sides with such characters leaves the trimmed result unchanged. */
  lemma TrimIgnoresPadding(w1: string, s: string, w2: string, strip: char -> bool)
    requires forall k :: 0 <= k < |w1| ==> strip(w1[k])
    requires forall k :: 0 <= k < |w2| ==> strip(w2[k])
    ensures Trim(w1 + s + w2, strip) == Trim(s, strip)
  {
    var t := Trim(s, strip);
    if t == [] {
      PaddedPrefixStripped(w1, s, w2, strip, |s|);
      PaddedSuffixStripped(w1, s, w2, strip, |s|);
      assert Trim(w1 + s + w2, strip) == [];
    } else {
      var a := LeadingStripped(s, strip, 0);
      var b := a + |t|;
      assert t == s[a..b];
      assert t[0] == s[a] && t[|t| - 1] == s[b - 1];
      PaddedTrimOf(w1, s, w2, strip, a, b);
    }
  }

  // ---------------------------------------------------------------------
  // Searching

  /** The position of the first `c` in `s`, or `|s|` if there is none. */
  function IndexOf(s: string, c: char): (i: nat)
    ensures i <= |s|
    ensures forall k :: 0 <= k < i ==> s[k] != c
    ensures i < |s| ==> s[i] == c
  {
    if s == [] || s[0] == c then 0 else 1 + IndexOf(s[1..], c)
  }

  /** The position of the last `c` in `s`, or -1 if there is none. */
  function LastIndexOf(s: string, c: char): (i: int)
    ensures -1 <= i < |s|
    ensures forall k :: i < k < |s| ==> s[k] != c
    ensures i >= 0 ==> s[i] == c
  {
    if s == [] then -1
    else if s[|s| - 1] == c then |s| - 1
    else LastIndexOf(s[..|s| - 1], c)
  }

  // ---------------------------------------------------------------------
  // Counting characters

  function CountOf(s: string, c: char): nat
  {
    if s == [] then 0 else CountOf(s[..|s| - 1], c) + (if s[|s| - 1] == c then 1 else 0)
  }

  lemma {:induction false} CountOfAppend(a: string, b: string, c: char)
    ensures CountOf(a + b, c) == CountOf(a, c) + CountOf(b, c)
  {
    if b != [] {
      assert (a + b)[..|a + b| - 1] == a + b[..|b| - 1];
      CountOfAppend(a, b[..|b| - 1], c);
    } else {
      assert a + b == a;
    }
  }

  lemma {:induction false} CountOfAbsent(s: string, c: char)
    requires forall k :: 0 <= k < |s| ==> s[k] != c
    ensures CountOf(s, c) == 0
  {
    if s != [] {
      CountOfAbsent(s[..|s| - 1], c);
    }
  }

  /** A character that occurs at index `i` and nowhere else occurs once. */
  lemma CountOfOnlyAt(s: string, i: int, c: char)
    requires 0 <= i < |s| && s[i] == c
    requires forall k :: 0 <= k < |s| && k != i ==> s[k] != c
    ensures CountOf(s, c) == 1
  {
    var before, after := s[..i], s[i + 1..];
    assert s == before + [c] + after;
    CountOfAbsent(before, c);
    assert forall k :: 0 <= k < |after| ==> after[k] == s[i + 1 + k];
    CountOfAbsent(after, c);
    CountOfAppend(before, [c], c);
    CountOfAppend(before + [c], after, c);
    assert CountOf([c], c) == 1 by { assert [c][..0] == []; }
  }

  // ---------------------------------------------------------------------
  // Decimal rendering of integers, as Swift's string interpolation of `Int`

  /** The decimal digits of `n`, without leading zeros. */
  function DecimalString(n: nat): (s: string)
    ensures |s| >= 1 && AllDigits(s)
    ensures s[0] == '0' ==> n == 0
  {
    if n < 10 then [DigitChar(n)] else DecimalString(n / 10) + [DigitChar(n % 10)]
  }

  /** The number a string of decimal digits denotes. */
  function DecimalValue(s: string): nat
    requires AllDigits(s)
  {
    if s == [] then 0 else DecimalValue(s[..|s| - 1]) * 10 + DigitValue(s[|s| - 1])
  }

  lemma {:induction false} DecimalRoundTrip(n: nat)
    ensures DecimalValue(DecimalString(n)) == n
  {
    if n >= 10 {
      var s := DecimalString(n);
      assert s[..|s| - 1] == DecimalString(n / 10);
      DecimalRoundTrip(n / 10);
    }
  }

  /** Rendering is injective: distinct numbers give distinct strings. */
  lemma DecimalStringInjective(m: nat, n: nat)
    requires DecimalString(m) == DecimalString(n)
    ensures m == n
  {
    DecimalRoundTrip(m);
    DecimalRoundTrip(n);
  }
}
