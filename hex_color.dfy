/**
 * The integer part of `Color(hex:)`: trim the string, read it as a
 * hexadecimal number, and split that number into alpha, red, green
 * and blue by digit count. The division by 255 into opacities is
 * floating point and is not modelled.
 */
module HexColor {

  /** The four 8-bit components, before the division by 255. */
  datatype Argb = Argb(a: int, r: int, g: int, b: int)

  /** The fallback for a digit count other than 3, 6 or 8. */
  const Fallback: Argb := Argb(1, 1, 1, 0)

  predicate IsAlphanumeric(c: char) {
    ('a' <= c <= 'z') || ('A' <= c <= 'Z') || ('0' <= c <= '9')
  }

  predicate IsHexDigit(c: char) {
    ('0' <= c <= '9') || ('a' <= c <= 'f') || ('A' <= c <= 'F')
  }

  predicate AllHex(s: string) {
    forall i :: 0 <= i < |s| ==> IsHexDigit(s[i])
  }

  /** No character of `s` is alphanumeric: it is all punctuation, space or symbols. */
  predicate NoAlphanumeric(s: string) {
    forall i :: 0 <= i < |s| ==> !IsAlphanumeric(s[i])
  }

  /** `s` is empty, or begins and ends with an alphanumeric character. */
  predicate AlphanumericEnds(s: string) {
    s == [] || (IsAlphanumeric(s[0]) && IsAlphanumeric(s[|s| - 1]))
  }

  function DigitValue(c: char): (v: nat)
    requires IsHexDigit(c)
    ensures v < 16
  {
    if '0' <= c <= '9' then c as int - '0' as int
    else if 'a' <= c <= 'f' then c as int - 'a' as int + 10
    else c as int - 'A' as int + 10
  }

  /** The upper-case digit for a value below 16. */
  function HexChar(n: nat): (c: char)
    requires n < 16
    ensures IsHexDigit(c) && IsAlphanumeric(c) && DigitValue(c) == n
  {
    if n < 10 then ('0' as int + n) as char else ('A' as int + n - 10) as char
  }

  function Pow16(n: nat): (p: nat)
    ensures p >= 1
  {
    if n == 0 then 1 else 16 * Pow16(n - 1)
  }

  /** The base-16 reading of a string of hex digits. */
  function HexValue(s: string): (v: nat)
    requires AllHex(s)
    ensures v < Pow16(|s|)
  {
    if s == [] then 0
    else
      var v0 := HexValue(s[..|s| - 1]);
      assert v0 * 16 <= (Pow16(|s| - 1) - 1) * 16;
      v0 * 16 + DigitValue(s[|s| - 1])
  }

  /** Drops the leading characters that are not alphanumeric. */
  function TrimStart(s: string): (t: string)
    ensures |t| <= |s| && t == s[|s| - |t|..]
    ensures t != [] ==> IsAlphanumeric(t[0])
    ensures NoAlphanumeric(s[..|s| - |t|])
  {
    if s != [] && !IsAlphanumeric(s[0]) then
      var t := TrimStart(s[1..]);
      assert s[1..][..|s| - 1 - |t|] == s[1..|s| - |t|];
      t
    else s
  }

  /** Drops the trailing characters that are not alphanumeric. */
  function TrimEnd(s: string): (t: string)
    ensures |t| <= |s| && t == s[..|t|]
    ensures t != [] ==> IsAlphanumeric(t[|t| - 1])
    ensures NoAlphanumeric(s[|t|..])
  {
    if s != [] && !IsAlphanumeric(s[|s| - 1]) then
      var t := TrimEnd(s[..|s| - 1]);
      assert s[|t|..] == s[..|s| - 1][|t|..] + [s[|s| - 1]];
      t
    else s
  }

  /**
   * `trimmingCharacters(in: CharacterSet.alphanumerics.inverted)`: the
   * piece of `s` left after cutting the non-alphanumeric characters at
   * both ends, so that what is left begins and ends alphanumeric.
   */
  function Trim(s: string): (t: string)
    ensures |t| <= |s|
    ensures AlphanumericEnds(t)
  {
    TrimEnd(TrimStart(s))
  }

  /** How many hex digits `s` starts with. */
  function HexRunLength(s: string): (n: nat)
    ensures n <= |s| && AllHex(s[..n])
    ensures n < |s| ==> !IsHexDigit(s[n])
  {
    if s != [] && IsHexDigit(s[0]) then
      var n := 1 + HexRunLength(s[1..]);
      assert s[..n] == [s[0]] + s[1..][..n - 1];
      n
    else 0
  }

  /** `Scanner.scanHexInt64`: the value of the leading run of hex digits, 0 when there is none. */
  function ScanHex(s: string): (v: nat)
    ensures v < Pow16(|s|)
  {
    var n := HexRunLength(s);
    PowMonotone(n, |s|);
    HexValue(s[..n])
  }

  lemma {:induction false} PowMonotone(m: nat, n: nat)
    requires m <= n
    ensures Pow16(m) <= Pow16(n)
  {
    if m < n { PowMonotone(m, n - 1); }
  }

  lemma Pow16Sizes()
    ensures Pow16(3) == 0x1000 && Pow16(6) == 0x100_0000 && Pow16(8) == 0x1_0000_0000
  {
    assert Pow16(2) == 0x100;
    assert Pow16(4) == 0x1_0000;
    assert Pow16(6) == 0x100_0000;
  }

  /** The 3-digit case: each 4-bit digit is widened to 8 bits by multiplying by 17. */
  function Widen12(v: nat): (c: Argb)
    requires v < 0x1000
    ensures c.a == 255 && 0 <= c.r <= 255 && 0 <= c.g <= 255 && 0 <= c.b <= 255
  {
    Argb(255, (v / 0x100) * 17, (v / 0x10 % 0x10) * 17, (v % 0x10) * 17)
  }

  /** The 6-digit case: opaque, with red, green and blue one byte each. */
  function Split24(v: nat): (c: Argb)
    requires v < 0x100_0000
    ensures c.a == 255 && 0 <= c.r <= 255 && 0 <= c.g <= 255 && 0 <= c.b <= 255
  {
    Argb(255, v / 0x1_0000, v / 0x100 % 0x100, v % 0x100)
  }

  /** The 8-digit case: alpha in the top byte, then red, green and blue. */
  function Split32(v: nat): (c: Argb)
    requires v < 0x1_0000_0000
    ensures 0 <= c.a <= 255 && 0 <= c.r <= 255 && 0 <= c.g <= 255 && 0 <= c.b <= 255
  {
    Argb(v / 0x100_0000, v / 0x1_0000 % 0x100, v / 0x100 % 0x100, v % 0x100)
  }

  /** The components of an already trimmed string, by its digit count. */
  function DecodeTrimmed(t: string): (c: Argb)
    ensures 0 <= c.a <= 255 && 0 <= c.r <= 255 && 0 <= c.g <= 255 && 0 <= c.b <= 255
    ensures |t| !in {3, 6, 8} ==> c == Fallback
  {
    var v := ScanHex(t);
    Pow16Sizes();
    if |t| == 3 then Widen12(v)
    else if |t| == 6 then Split24(v)
    else if |t| == 8 then Split32(v)
    else Fallback
  }

  /** `Color(hex:)` up to the division by 255. */
  function Decode(hex: string): (c: Argb)
    ensures 0 <= c.a <= 255 && 0 <= c.r <= 255 && 0 <= c.g <= 255 && 0 <= c.b <= 255
    ensures |Trim(hex)| !in {3, 6, 8} ==> c == Fallback
  {
    DecodeTrimmed(Trim(hex))
  }

  /** Two upper-case digits for one byte. */
  function ByteHex(x: nat): (s: string)
    requires x < 0x100
    ensures |s| == 2 && AllHex(s) && AlphanumericEnds(s)
  {
    [HexChar(x / 0x10), HexChar(x % 0x10)]
  }

  /** The 6-digit `RRGGBB` spelling of an opaque colour. */
  function RgbHex(r: nat, g: nat, b: nat): (s: string)
    requires r < 0x100 && g < 0x100 && b < 0x100
    ensures |s| == 6 && AllHex(s) && AlphanumericEnds(s)
  {
    ByteHex(r) + ByteHex(g) + ByteHex(b)
  }

  /** The 8-digit `AARRGGBB` spelling of a colour with alpha. */
  function ArgbHex(a: nat, r: nat, g: nat, b: nat): (s: string)
    requires a < 0x100 && r < 0x100 && g < 0x100 && b < 0x100
    ensures |s| == 8 && AllHex(s) && AlphanumericEnds(s)
  {
    ByteHex(a) + RgbHex(r, g, b)
  }

  lemma {:induction false} TrimStartSkips(p: string, rest: string)
    requires NoAlphanumeric(p)
    requires rest == [] || IsAlphanumeric(rest[0])
    ensures TrimStart(p + rest) == rest
  {
    if p != [] {
      assert (p + rest)[1..] == p[1..] + rest;
      TrimStartSkips(p[1..], rest);
    }
  }

  lemma {:induction false} TrimEndSkips(rest: string, q: string)
    requires NoAlphanumeric(q)
    requires rest == [] || IsAlphanumeric(rest[|rest| - 1])
    ensures TrimEnd(rest + q) == rest
  {
    if q != [] {
      assert (rest + q)[..|rest + q| - 1] == rest + q[..|q| - 1];
      TrimEndSkips(rest, q[..|q| - 1]);
    }
  }

  /**
   * Trimming removes exactly the non-alphanumeric characters at the two
   * ends: whatever begins and ends alphanumeric is kept whole, with any
   * punctuation inside it.
   */
  lemma TrimOnlyEnds(p: string, core: string, q: string)
    requires NoAlphanumeric(p) && NoAlphanumeric(q) && AlphanumericEnds(core)
    ensures Trim(p + core + q) == core
  {
    if core == [] {
      assert p + core + q == p + q;
      TrimStartSkips(p + q, []);
      assert p + q + [] == p + q;
    } else {
      assert p + core + q == p + (core + q);
      TrimStartSkips(p, core + q);
      TrimEndSkips(core, q);
    }
  }

  /** The colour depends only on what is left after trimming. */
  lemma DecodeIgnoresEnds(p: string, core: string, q: string)
    requires NoAlphanumeric(p) && NoAlphanumeric(q) && AlphanumericEnds(core)
    ensures Decode(p + core + q) == Decode(core)
  {
    TrimOnlyEnds(p, core, q);
    TrimOnlyEnds([], core, []);
    assert [] + core + [] == core;
  }

  /** On a string of hex digits the scanner reads the whole string. */
  lemma ScanAllHex(s: string)
    requires AllHex(s)
    ensures ScanHex(s) == HexValue(s)
  {
    var n := HexRunLength(s);
    assert s[..n] == s;
  }

  lemma HexValueSnoc(s: string, c: char)
    requires AllHex(s) && IsHexDigit(c)
    ensures AllHex(s + [c])
    ensures HexValue(s + [c]) == HexValue(s) * 16 + DigitValue(c)
  {
    assert (s + [c])[..|s|] == s;
  }

  lemma HexValueAppendStep(hs: nat, p: nat, ht: nat, d: nat)
    ensures (hs * p + ht) * 16 + d == hs * (16 * p) + (ht * 16 + d)
  {
  }

  lemma {:induction false} HexValueConcat(s: string, t: string)
    requires AllHex(s) && AllHex(t)
    ensures AllHex(s + t)
    ensures HexValue(s + t) == HexValue(s) * Pow16(|t|) + HexValue(t)
  {
    if t == [] {
      assert s + t == s;
    } else {
      var t', c := t[..|t| - 1], t[|t| - 1];
      assert t == t' + [c];
      assert s + t == (s + t') + [c];
      HexValueConcat(s, t');
      HexValueSnoc(s + t', c);
      HexValueSnoc(t', c);
      HexValueAppendStep(HexValue(s), Pow16(|t'|), HexValue(t'), DigitValue(c));
    }
  }

  lemma ByteHexValue(x: nat)
    requires x < 0x100
    ensures HexValue(ByteHex(x)) == x
  {
    var s := ByteHex(x);
    assert s[..1][..0] == [];
    assert s[..1] == [HexChar(x / 0x10)];
    assert HexValue(s[..1]) == x / 0x10;
  }

  lemma RgbHexValue(r: nat, g: nat, b: nat)
    requires r < 0x100 && g < 0x100 && b < 0x100
    ensures HexValue(RgbHex(r, g, b)) == r * 0x1_0000 + g * 0x100 + b
  {
    ByteHexValue(r);
    ByteHexValue(g);
    ByteHexValue(b);
    assert Pow16(2) == 0x100;
    HexValueConcat(ByteHex(r), ByteHex(g));
    HexValueConcat(ByteHex(r) + ByteHex(g), ByteHex(b));
  }

  lemma Split24Bytes(r: nat, g: nat, b: nat)
    requires r < 0x100 && g < 0x100 && b < 0x100
    ensures Split24(r * 0x1_0000 + g * 0x100 + b) == Argb(255, r, g, b)
  {
    var v := r * 0x1_0000 + g * 0x100 + b;
    assert v / 0x1_0000 == r;
    assert v / 0x100 == r * 0x100 + g;
    assert (r * 0x100 + g) % 0x100 == g;
  }

  lemma Split32Bytes(a: nat, r: nat, g: nat, b: nat)
    requires a < 0x100 && r < 0x100 && g < 0x100 && b < 0x100
    ensures Split32(a * 0x100_0000 + r * 0x1_0000 + g * 0x100 + b) == Argb(a, r, g, b)
  {
    var v := a * 0x100_0000 + r * 0x1_0000 + g * 0x100 + b;
    assert v / 0x100_0000 == a;
    assert v / 0x1_0000 == a * 0x100 + r;
    assert (a * 0x100 + r) % 0x100 == r;
    assert v / 0x100 == (a * 0x100 + r) * 0x100 + g;
    assert ((a * 0x100 + r) * 0x100 + g) % 0x100 == g;
  }

  lemma Widen12Digits(x: nat, y: nat, z: nat)
    requires x < 0x10 && y < 0x10 && z < 0x10
    ensures Widen12(x * 0x100 + y * 0x10 + z) == Argb(255, x * 17, y * 17, z * 17)
  {
    var v := x * 0x100 + y * 0x10 + z;
    assert v / 0x100 == x;
    assert v / 0x10 == x * 0x10 + y;
    assert (x * 0x10 + y) % 0x10 == y;
  }

  /** Decoding the 6-digit spelling of an opaque colour gives that colour back. */
  lemma RgbRoundTrip(r: nat, g: nat, b: nat)
    requires r < 0x100 && g < 0x100 && b < 0x100
    ensures Decode(RgbHex(r, g, b)) == Argb(255, r, g, b)
  {
    DecodeSixHex(RgbHex(r, g, b));
    RgbHexValue(r, g, b);
    Split24Bytes(r, g, b);
  }

  lemma ArgbHexValue(a: nat, r: nat, g: nat, b: nat)
    requires a < 0x100 && r < 0x100 && g < 0x100 && b < 0x100
    ensures HexValue(ArgbHex(a, r, g, b)) == a * 0x100_0000 + r * 0x1_0000 + g * 0x100 + b
  {
    ByteHexValue(a);
    RgbHexValue(r, g, b);
    Pow16Sizes();
    HexValueConcat(ByteHex(a), RgbHex(r, g, b));
  }

  /** Decoding the 8-digit spelling of a colour gives that colour back, alpha included. */
  lemma ArgbRoundTrip(a: nat, r: nat, g: nat, b: nat)
    requires a < 0x100 && r < 0x100 && g < 0x100 && b < 0x100
    ensures Decode(ArgbHex(a, r, g, b)) == Argb(a, r, g, b)
  {
    DecodeEightHex(ArgbHex(a, r, g, b));
    ArgbHexValue(a, r, g, b);
    Split32Bytes(a, r, g, b);
  }

  lemma DoubledDigitValue(x: char)
    requires IsHexDigit(x)
    ensures HexValue([x, x]) == DigitValue(x) * 17
  {
    HexValueSnoc([], x);
    assert [] + [x] == [x];
    HexValueSnoc([x], x);
    assert [x] + [x] == [x, x];
  }

  lemma ThreeDigitValue(x: char, y: char, z: char)
    requires IsHexDigit(x) && IsHexDigit(y) && IsHexDigit(z)
    ensures HexValue([x, y, z]) == DigitValue(x) * 0x100 + DigitValue(y) * 0x10 + DigitValue(z)
  {
    HexValueSnoc([], x);
    assert [] + [x] == [x];
    HexValueSnoc([x], y);
    assert [x] + [y] == [x, y];
    HexValueSnoc([x, y], z);
    assert [x, y] + [z] == [x, y, z];
  }

  lemma SixDoubledValue(x: char, y: char, z: char)
    requires IsHexDigit(x) && IsHexDigit(y) && IsHexDigit(z)
    ensures HexValue([x, x, y, y, z, z])
         == (DigitValue(x) * 17) * 0x1_0000 + (DigitValue(y) * 17) * 0x100 + DigitValue(z) * 17
  {
    DoubledDigitValue(x);
    DoubledDigitValue(y);
    DoubledDigitValue(z);
    assert Pow16(2) == 0x100;
    HexValueConcat([x, x], [y, y]);
    assert [x, x] + [y, y] == [x, x, y, y];
    HexValueConcat([x, x, y, y], [z, z]);
    assert [x, x, y, y] + [z, z] == [x, x, y, y, z, z];
  }

  /** A trimmed-clean hex string is decoded from its full base-16 value. */
  lemma DecodeWholeHex(t: string)
    requires AllHex(t)
    ensures Decode(t) == DecodeTrimmed(t) && ScanHex(t) == HexValue(t)
  {
    assert AlphanumericEnds(t) by {
      if t != [] { assert IsHexDigit(t[0]) && IsHexDigit(t[|t| - 1]); }
    }
    TrimOnlyEnds([], t, []);
    assert [] + t + [] == t;
    ScanAllHex(t);
  }

  lemma DecodeThreeHex(t: string)
    requires AllHex(t) && |t| == 3
    ensures HexValue(t) < 0x1000 && Decode(t) == Widen12(HexValue(t))
  {
    DecodeWholeHex(t);
    Pow16Sizes();
  }

  lemma DecodeSixHex(t: string)
    requires AllHex(t) && |t| == 6
    ensures HexValue(t) < 0x100_0000 && Decode(t) == Split24(HexValue(t))
  {
    DecodeWholeHex(t);
    Pow16Sizes();
  }

  lemma DecodeEightHex(t: string)
    requires AllHex(t) && |t| == 8
    ensures HexValue(t) < 0x1_0000_0000 && Decode(t) == Split32(HexValue(t))
  {
    DecodeWholeHex(t);
    Pow16Sizes();
  }

  lemma DecodeShortForm(x: char, y: char, z: char)
    requires IsHexDigit(x) && IsHexDigit(y) && IsHexDigit(z)
    ensures Decode([x, y, z]) == Argb(255, DigitValue(x) * 17, DigitValue(y) * 17, DigitValue(z) * 17)
  {
    DecodeThreeHex([x, y, z]);
    ThreeDigitValue(x, y, z);
    Widen12Digits(DigitValue(x), DigitValue(y), DigitValue(z));
  }

  lemma DecodeDoubledForm(x: char, y: char, z: char)
    requires IsHexDigit(x) && IsHexDigit(y) && IsHexDigit(z)
    ensures Decode([x, x, y, y, z, z])
         == Argb(255, DigitValue(x) * 17, DigitValue(y) * 17, DigitValue(z) * 17)
  {
    DecodeSixHex([x, x, y, y, z, z]);
    SixDoubledValue(x, y, z);
    Split24Bytes(DigitValue(x) * 17, DigitValue(y) * 17, DigitValue(z) * 17);
  }

  /**
   * The short form `RGB` is the long form `RRGGBB` with every digit
   * doubled: ×17 widens a digit d to the byte dd.
   */
  lemma ShortFormDoublesDigits(x: char, y: char, z: char)
    requires IsHexDigit(x) && IsHexDigit(y) && IsHexDigit(z)
    ensures Decode([x, y, z]) == Decode([x, x, y, y, z, z])
  {
    DecodeShortForm(x, y, z);
    DecodeDoubledForm(x, y, z);
  }

  /** The screen's orange. */
  lemma OrangeColour()
    ensures Decode("FFA500") == Argb(255, 255, 165, 0)
  {
    RgbRoundTrip(255, 165, 0);
    assert ByteHex(255) == "FF" && ByteHex(165) == "A5" && ByteHex(0) == "00";
    assert RgbHex(255, 165, 0) == "FFA500";
  }

  /** A leading `#` is trimmed away: it does not count as a digit. */
  lemma HashPrefixIgnored(t: string)
    ensures Decode(['#'] + t) == Decode(t)
  {
    assert (['#'] + t)[1..] == t;
  }

  /** So "#FFA500" is the orange too. */
  lemma HashPrefixedOrange()
    ensures Decode("#FFA500") == Argb(255, 255, 165, 0)
  {
    var rgb := RgbHex(255, 165, 0);
    assert ByteHex(255) == "FF" && ByteHex(165) == "A5" && ByteHex(0) == "00";
    assert "#FFA500" == ['#'] + rgb;
    HashPrefixIgnored(rgb);
    RgbRoundTrip(255, 165, 0);
  }

  /** The screen's background blue. */
  lemma BackgroundColour()
    ensures Decode("2A4683") == Argb(255, 42, 70, 131)
  {
    RgbRoundTrip(42, 70, 131);
    assert ByteHex(42) == "2A" && ByteHex(70) == "46" && ByteHex(131) == "83";
    assert RgbHex(42, 70, 131) == "2A4683";
  }

  lemma ShortWhite()
    ensures Decode("FFF") == Argb(255, 255, 255, 255)
  {
    DecodeShortForm('F', 'F', 'F');
    assert ['F', 'F', 'F'] == "FFF";
  }

  lemma HalfTransparentRed()
    ensures Decode("80FF0000") == Argb(128, 255, 0, 0)
  {
    ArgbRoundTrip(128, 255, 0, 0);
    assert ByteHex(128) == "80" && ByteHex(255) == "FF" && ByteHex(0) == "00";
    assert ArgbHex(128, 255, 0, 0) == "80FF0000";
  }

  lemma FiveDigitsFallBack()
    ensures Decode("12345") == Fallback
  {
    TrimOnlyEnds([], "12345", []);
    assert [] + "12345" + [] == "12345";
  }
}
