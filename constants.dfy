/** The app-wide tables of Constants.swift (`AppConfig`, the category icons
    of `AppIcons`) and the integer part of `Color.init(hex:)`. */
module Constants {
  import opened Text

  // ---------------------------------------------------------------------
  // AppConfig

  /** `AppConfig.mainPasswordLegth`, which the validators refer to as the
      minimum password length. */
  const MinPasswordLength: nat := 8
  const MaxEventParticipants: nat := 100
  const PointsPerLevel: seq<int> := [0, 100, 300, 600, 1000, 2000]
  const LevelNames: seq<string> := ["Beginner", "Activist", "Champion", "Leader", "Legend"]

  /** The icon names `AppIcons.enviromental`, `.social` and `.governance`. */
  const EnvironmentalIcon: string := "leaf.fill"
  const SocialIcon: string := "person.3.fill"
  const GovernanceIcon: string := "building.columns.fill"

  /** The level table starts at 0, ascends strictly and has one threshold
      more than it has names: band `k` is [`PointsPerLevel[k]`,
      `PointsPerLevel[k + 1]`). */
  lemma LevelTablesWellFormed()
    ensures |PointsPerLevel| == |LevelNames| + 1
    ensures PointsPerLevel[0] == 0
    ensures forall i, j :: 0 <= i < j < |PointsPerLevel| ==> PointsPerLevel[i] < PointsPerLevel[j]
  {
  }

  /** The band of the level table that `score` falls in, the last band
      having no upper bound: the highest `k` whose threshold is at most
      `score`. */
  function LevelIndex(score: int): (k: nat)
    requires score >= 0
    ensures k < |LevelNames|
    ensures PointsPerLevel[k] <= score
    ensures k + 1 < |LevelNames| ==> score < PointsPerLevel[k + 1]
  {
    HighestBandUpTo(score, |LevelNames| - 1)
  }

  function HighestBandUpTo(score: int, k: nat): (r: nat)
    requires score >= 0 && k < |LevelNames|
    ensures r <= k && PointsPerLevel[r] <= score
    ensures r < k ==> score < PointsPerLevel[r + 1]
  {
    if PointsPerLevel[k] <= score || k == 0 then k else HighestBandUpTo(score, k - 1)
  }

  // ---------------------------------------------------------------------
  // Color(hex:)

  /** The colour components before the division by 255 that turns them into
      `Double` opacities and intensities. */
  datatype Argb = Argb(a: int, r: int, g: int, b: int)

  predicate InByteRange(c: Argb)
  {
    0 <= c.a <= 255 && 0 <= c.r <= 255 && 0 <= c.g <= 255 && 0 <= c.b <= 255
  }

  const UInt64Max: nat := 0xFFFF_FFFF_FFFF_FFFF

  /** The characters `CharacterSet.alphanumerics.inverted` selects. */
  predicate NotAlphanumeric(c: char)
  {
    !IsAsciiAlnum(c)
  }

  function Pow16(n: nat): (p: nat)
    ensures p >= 1
  {
    if n == 0 then 1 else 16 * Pow16(n - 1)
  }

  predicate AllHex(s: string)
  {
    forall k :: 0 <= k < |s| ==> IsHexDigit(s[k])
  }

  /** The number a string of hexadecimal digits denotes. */
  function HexValue(s: string): nat
    requires AllHex(s)
  {
    if s == [] then 0 else HexValue(s[..|s| - 1]) * 16 + HexDigitValue(s[|s| - 1])
  }

  /** How many hexadecimal digits `s` starts with. */
  function HexPrefixLength(s: string): (n: nat)
    ensures n <= |s|
    ensures forall k :: 0 <= k < n ==> IsHexDigit(s[k])
    ensures n < |s| ==> !IsHexDigit(s[n])
  {
    if s != [] && IsHexDigit(s[0]) then 1 + HexPrefixLength(s[1..]) else 0
  }

  /** What `Scanner.scanHexInt64` stores: the value of the leading
      hexadecimal digits (0 when there are none), saturated at the largest
      `UInt64`. */
  function ScannedHex(s: string): nat
  {
    var v := HexValue(s[..HexPrefixLength(s)]);
    if v <= UInt64Max then v else UInt64Max
  }

  /** Reads the leading hexadecimal digits of `s` one at a time, as the
      scanner does when it fills the `var int` it is handed. */
  method ScanHexInt(s: string) returns (value: nat)
    ensures value == ScannedHex(s)
    ensures value <= UInt64Max
  {
    var i := 0;
    var v := 0;
    while i < |s| && IsHexDigit(s[i])
      invariant i <= HexPrefixLength(s)
      invariant v == HexValue(s[..i])
    {
      assert s[..i + 1][..i] == s[..i];
      v := v * 16 + HexDigitValue(s[i]);
      i := i + 1;
    }
    value := if v <= UInt64Max then v else UInt64Max;
  }

  /** The `switch hex.count` of `Color(hex:)`; `x >> k` is `x / 2^k` and
      `x & m` (with `m` one less than a power of two) is `x % (m + 1)`. */
  function Components(count: int, v: nat): Argb
  {
    if count == 3 then Argb(255, (v / 256) * 17, ((v / 16) % 16) * 17, (v % 16) * 17)
    else if count == 6 then Argb(255, v / 65536, (v / 256) % 256, v % 256)
    else if count == 8 then Argb(v / 16777216, (v / 65536) % 256, (v / 256) % 256, v % 256)
    else Argb(255, 0, 0, 0)
  }

  /** The components `Color(hex:)` computes from `hex`. Every component is
      a byte whatever the input, and a length other than 3, 6 or 8 (after
      trimming) gives opaque black. */
  function HexArgb(hex: string): (c: Argb)
    ensures InByteRange(c)
    ensures var n := |Trim(hex, NotAlphanumeric)|; n != 3 && n != 6 && n != 8 ==> c == Argb(255, 0, 0, 0)
  {
    var t := Trim(hex, NotAlphanumeric);
    ScannedHexBound(t);
    Components(|t|, ScannedHex(t))
  }

  method ColorFromHex(hex: string) returns (c: Argb)
    ensures c == HexArgb(hex)
  {
    var t := Trim(hex, NotAlphanumeric);
    var v := ScanHexInt(t);
    c := Components(|t|, v);
  }

  // ---------------------------------------------------------------------
  // Lemmas about the decoding

  lemma {:induction false} HexValueBound(s: string)
    requires AllHex(s)
    ensures HexValue(s) < Pow16(|s|)
  {
    if s != [] {
      HexValueBound(s[..|s| - 1]);
    }
  }

  lemma {:induction false} Pow16Monotone(m: nat, n: nat)
    requires m <= n
    ensures Pow16(m) <= Pow16(n)
  {
    if m < n {
      Pow16Monotone(m, n - 1);
    }
  }

  lemma ScannedHexBound(s: string)
    ensures ScannedHex(s) < Pow16(|s|)
  {
    var n := HexPrefixLength(s);
    HexValueBound(s[..n]);
    Pow16Monotone(n, |s|);
  }

  lemma {:induction false} HexValueAppend(a: string, b: string)
    requires AllHex(a) && AllHex(b)
    ensures AllHex(a + b)
    ensures HexValue(a + b) == HexValue(a) * Pow16(|b|) + HexValue(b)
  {
    assert AllHex(a + b) by {
      forall k | 0 <= k < |a + b| ensures IsHexDigit((a + b)[k]) {
        if k < |a| { assert (a + b)[k] == a[k]; } else { assert (a + b)[k] == b[k - |a|]; }
      }
    }
    if b == [] {
      assert a + b == a;
    } else {
      var b' := b[..|b| - 1];
      var last := b[|b| - 1];
      assert (a + b)[..|a + b| - 1] == a + b';
      assert (a + b)[|a + b| - 1] == last;
      HexValueAppend(a, b');
      assert HexValue(a + b) == HexValue(a + b') * 16 + HexDigitValue(last);
      assert HexValue(b) == HexValue(b') * 16 + HexDigitValue(last);
      ShiftDigit(HexValue(a), Pow16(|b'|), HexValue(b'), HexDigitValue(last));
    }
  }

  lemma ShiftDigit(x: int, p: int, y: int, d: int)
    ensures (x * p + y) * 16 + d == x * (16 * p) + (y * 16 + d)
  {
  }

  lemma Pow16Values()
    ensures Pow16(2) == 256 && Pow16(3) == 4096 && Pow16(4) == 65536
    ensures Pow16(6) == 16777216 && Pow16(8) == 4294967296
  {
    assert Pow16(1) == 16;
    assert Pow16(2) == 256;
    assert Pow16(3) == 4096;
    assert Pow16(4) == 65536;
    assert Pow16(5) == 1048576;
    assert Pow16(6) == 16777216;
    assert Pow16(7) == 268435456;
  }

  /** A string of at most eight hexadecimal digits is left alone by
      trimming and read in full by the scanner. */
  lemma AllHexScannedWhole(s: string)
    requires s != [] && AllHex(s) && |s| <= 8
    ensures Trim(s, NotAlphanumeric) == s
    ensures ScannedHex(s) == HexValue(s)
    ensures HexArgb(s) == Components(|s|, HexValue(s))
  {
    TrimOf(s, NotAlphanumeric, 0, |s|);
    assert s[0..|s|] == s;
    assert HexPrefixLength(s) == |s|;
    assert s[..|s|] == s;
    HexValueBound(s);
    Pow16Monotone(|s|, 8);
    Pow16Values();
  }

  /** Three digits `RGB` are each scaled by 17 (so `F` becomes 255), with
      full alpha. */
  lemma ThreeDigitHex(s: string)
    requires |s| == 3 && AllHex(s)
    ensures HexArgb(s) == Argb(255, HexDigitValue(s[0]) * 17, HexDigitValue(s[1]) * 17, HexDigitValue(s[2]) * 17)
  {
    AllHexScannedWhole(s);
    var d0, d1, d2 := HexDigitValue(s[0]), HexDigitValue(s[1]), HexDigitValue(s[2]);
    assert s[..2][..1] == s[..1] && s[..1][..0] == [];
    assert HexValue(s[..1]) == d0;
    assert HexValue(s[..2]) == d0 * 16 + d1;
    assert HexValue(s) == (d0 * 16 + d1) * 16 + d2;
    ThreeNibbles(d0, d1, d2);
  }

  /** The digits of `(d0 * 16 + d1) * 16 + d2`, as the three-digit case of
      `Components` takes them apart. */
  lemma ThreeNibbles(d0: nat, d1: nat, d2: nat)
    requires d0 < 16 && d1 < 16 && d2 < 16
    ensures var v := (d0 * 16 + d1) * 16 + d2;
      v / 256 == d0 && (v / 16) % 16 == d1 && v % 16 == d2
  {
    var q := d0 * 16 + d1;
    var v := q * 16 + d2;
    assert v / 16 == q && v % 16 == d2;
    assert q % 16 == d1;
    assert v == d0 * 256 + (d1 * 16 + d2);
    assert v / 256 == d0;
  }

  /** Six digits `RRGGBB` give one byte per colour and full alpha. */
  lemma SixDigitHex(s: string)
    requires |s| == 6 && AllHex(s)
    ensures HexArgb(s) == Argb(255, HexValue(s[..2]), HexValue(s[2..4]), HexValue(s[4..]))
  {
    AllHexScannedWhole(s);
    var x, y, z := s[..2], s[2..4], s[4..];
    assert s == x + y + z;
    Pow16Values();
    HexValueAppend(x, y);
    HexValueAppend(x + y, z);
    HexValueBound(x);
    HexValueBound(y);
    HexValueBound(z);
    var q := HexValue(x + y);
    assert q == HexValue(x) * 256 + HexValue(y);
    assert HexValue(s) == q * 256 + HexValue(z);
    ThreeBytes(HexValue(x), HexValue(y), HexValue(z));
  }

  /** The bytes of `(r * 256 + g) * 256 + b`, as the six-digit case of
      `Components` takes them apart. */
  lemma ThreeBytes(r: nat, g: nat, b: nat)
    requires r < 256 && g < 256 && b < 256
    ensures var v := (r * 256 + g) * 256 + b;
      v / 65536 == r && (v / 256) % 256 == g && v % 256 == b
  {
    var q := r * 256 + g;
    var v := q * 256 + b;
    ByteStep(q, b);
    ByteStep(r, g);
    assert v == r * 65536 + (g * 256 + b);
    assert v / 65536 == r;
  }

  /** Eight digits `AARRGGBB` are read with alpha first. */
  lemma EightDigitHex(s: string)
    requires |s| == 8 && AllHex(s)
    ensures HexArgb(s) == Argb(HexValue(s[..2]), HexValue(s[2..4]), HexValue(s[4..6]), HexValue(s[6..]))
  {
    AllHexScannedWhole(s);
    EightDigitValue(s);
    Pow16Values();
    HexValueBound(s[..2]);
    HexValueBound(s[2..4]);
    HexValueBound(s[4..6]);
    HexValueBound(s[6..]);
    EightDigitComponents(HexValue(s), HexValue(s[..2]), HexValue(s[2..4]), HexValue(s[4..6]), HexValue(s[6..]));
  }

  /** The eight-digit case of `Components` recovers the four bytes of a
      value built from them. */
  lemma EightDigitComponents(v: nat, a: nat, r: nat, g: nat, b: nat)
    requires a < 256 && r < 256 && g < 256 && b < 256
    requires v == ((a * 256 + r) * 256 + g) * 256 + b
    ensures Components(8, v) == Argb(a, r, g, b)
  {
    FourBytes(a, r, g, b);
  }

  /** The value of eight digits in terms of their four pairs. */
  lemma EightDigitValue(s: string)
    requires |s| == 8 && AllHex(s)
    ensures HexValue(s) == ((HexValue(s[..2]) * 256 + HexValue(s[2..4])) * 256 + HexValue(s[4..6])) * 256 + HexValue(s[6..])
  {
    var w, x, y, z := s[..2], s[2..4], s[4..6], s[6..];
    assert s == w + x + y + z;
    FourPairsValue(w, x, y, z);
  }

  /** Four two-digit groups, read in order, are four base-256 digits. */
  lemma FourPairsValue(w: string, x: string, y: string, z: string)
    requires |w| == 2 && |x| == 2 && |y| == 2 && |z| == 2
    requires AllHex(w) && AllHex(x) && AllHex(y) && AllHex(z)
    ensures AllHex(w + x + y + z)
    ensures HexValue(w + x + y + z) == ((HexValue(w) * 256 + HexValue(x)) * 256 + HexValue(y)) * 256 + HexValue(z)
  {
    Pow16Values();
    HexValueAppend(w, x);
    HexValueAppend(w + x, y);
    HexValueAppend(w + x + y, z);
  }

  /** The bytes of `((a * 256 + r) * 256 + g) * 256 + b`, most significant
      first, as the eight-digit case of `Components` takes them apart. */
  lemma FourBytes(a: nat, r: nat, g: nat, b: nat)
    requires a < 256 && r < 256 && g < 256 && b < 256
    ensures var v := ((a * 256 + r) * 256 + g) * 256 + b;
      v / 16777216 == a && (v / 65536) % 256 == r && (v / 256) % 256 == g && v % 256 == b
  {
    var q1 := a * 256 + r;
    var q2 := q1 * 256 + g;
    var v := q2 * 256 + b;
    ByteStep(q2, b);
    ByteStep(q1, g);
    ByteStep(a, r);
    assert v == q1 * 65536 + (g * 256 + b);
    assert v / 65536 == q1;
    assert v == a * 16777216 + (r * 65536 + g * 256 + b);
    assert v / 16777216 == a;
  }

  lemma ByteStep(q: nat, b: nat)
    requires b < 256
    ensures (q * 256 + b) / 256 == q && (q * 256 + b) % 256 == b
  {
  }

  /** A leading `#` (or any other non-alphanumeric prefix) is trimmed before
      decoding, so "#00B383" and "00B383" give the same colour. */
  lemma PrefixIgnored(w: string, hex: string)
    requires forall k :: 0 <= k < |w| ==> NotAlphanumeric(w[k])
    ensures HexArgb(w + hex) == HexArgb(hex)
  {
    assert w + hex == w + hex + [];
    TrimIgnoresPadding(w, hex, [], NotAlphanumeric);
    assert hex + [] == hex;
  }

  /** "FFF" is opaque white. */
  lemma WhiteFromThreeDigits()
    ensures HexArgb("FFF") == Argb(255, 255, 255, 255)
  {
    ThreeDigitHex("FFF");
  }

  lemma HexPair(c0: char, c1: char)
    requires IsHexDigit(c0) && IsHexDigit(c1)
    ensures AllHex([c0, c1])
    ensures HexValue([c0, c1]) == HexDigitValue(c0) * 16 + HexDigitValue(c1)
  {
    assert [c0, c1][..1] == [c0];
    assert [c0][..0] == [];
    assert HexValue([c0]) == HexDigitValue(c0);
  }

  /** Six digits given as three pairs. */
  lemma SixDigitHexPairs(s: string, x: string, y: string, z: string)
    requires |x| == 2 && |y| == 2 && |z| == 2 && AllHex(x) && AllHex(y) && AllHex(z)
    requires s == x + y + z
    ensures HexArgb(s) == Argb(255, HexValue(x), HexValue(y), HexValue(z))
  {
    assert AllHex(s) by {
      forall k | 0 <= k < |s| ensures IsHexDigit(s[k]) {
        if k < 2 { assert s[k] == x[k]; } else if k < 4 { assert s[k] == y[k - 2]; } else { assert s[k] == z[k - 4]; }
      }
    }
    assert s[..2] == x && s[2..4] == y && s[4..] == z;
    SixDigitHex(s);
  }

  /** The primary green, "#00B383" in the source; by `HashIgnored` the `#`
      makes no difference. */
  lemma PrimaryGreen()
    ensures HexArgb("00B383") == Argb(255, 0x00, 0xB3, 0x83)
  {
    HexPair('0', '0');
    HexPair('B', '3');
    HexPair('8', '3');
    SixDigitHexPairs("00B383", "00", "B3", "83");
  }

  lemma HashIgnored(s: string)
    ensures HexArgb("#" + s) == HexArgb(s)
  {
    PrefixIgnored("#", s);
  }

  /** The warning colour, written without `#` in the source: "F59E0B". */
  lemma WarningColor()
    ensures HexArgb("F59E0B") == Argb(255, 0xF5, 0x9E, 0x0B)
  {
    HexPair('F', '5');
    HexPair('9', 'E');
    HexPair('0', 'B');
    SixDigitHexPairs("F59E0B", "F5", "9E", "0B");
  }
}
