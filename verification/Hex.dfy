/** Hexadecimal text: `snprintf("%0Nx")`, `strtoul(..., 16)` on two characters,
    and the encoder and decoder of src/common/crypto.cpp. */
module Hex {
  import opened Basics

  type Nibble = x: int | 0 <= x < 16

  const DIGITS: string := "0123456789abcdef"

  function Digit(v: Nibble): char {
    DIGITS[v]
  }

  function NibbleOf(c: char): Option<Nibble> {
    if '0' <= c <= '9' then Some(c as int - '0' as int)
    else if 'a' <= c <= 'f' then Some(c as int - 'a' as int + 10)
    else if 'A' <= c <= 'F' then Some(c as int - 'A' as int + 10)
    else None
  }

  predicate IsHexDigit(c: char) {
    NibbleOf(c).Some?
  }

  // ---- printf ----

  /** `%x`: the shortest lowercase representation. */
  function HexDigits(n: nat): (s: string)
    ensures |s| > 0
  {
    if n < 16 then [Digit(n)] else HexDigits(n / 16) + [Digit(n % 16)]
  }

  function ZeroPad(s: string, width: nat): string
    decreases width - |s|
  {
    if |s| >= width then s else ZeroPad(['0'] + s, width)
  }

  /** `snprintf` into a buffer of `size` bytes keeps at most `size - 1` characters. */
  function Snprintf(size: nat, text: string): string
    requires size > 0
  {
    if |text| < size then text else text[..size - 1]
  }

  function HexByte(b: u8): string {
    Snprintf(3, ZeroPad(HexDigits(b), 2))
  }

  function HexStamp(t: u64): string {
    Snprintf(17, ZeroPad(HexDigits(t), 16))
  }

  // ---- strtoul ----

  predicate IsSpace(c: char) {
    c == ' ' || '\t' <= c <= '\r'
  }

  /** The white space of the C locale: blank, tab, line feed, vertical tab, form feed, return. */
  lemma SpacesAre(c: char)
    ensures IsSpace(c) <==> c as int in {32, 9, 10, 11, 12, 13}
  {
  }

  /** `static_cast<uint8_t>(strtoul({c0, c1}, nullptr, 16))`: leading white space or
      a sign is accepted, and parsing stops at the first character it cannot use. */
  function ParseByte(c0: char, c1: char): u8 {
    var low := if IsHexDigit(c1) then NibbleOf(c1).value else 0;
    if IsHexDigit(c0) then
      var high := NibbleOf(c0).value;
      if IsHexDigit(c1) then 16 * high as int + low else high
    else if IsSpace(c0) || c0 == '+' then low
    else if c0 == '-' then (-low) % 0x100
    else 0
  }

  /** `strtoul(s, nullptr, 16)` reduced to a byte, for texts too short to overflow. */
  function Strtoul(s: string): u8 {
    if s != "" && IsSpace(s[0]) then Strtoul(s[1..])
    else if s != "" && s[0] == '-' then (-(Unsigned(s[1..]) as int)) % 0x100
    else if s != "" && s[0] == '+' then Unsigned(s[1..]) % 0x100
    else Unsigned(s) % 0x100
  }

  /** An optional prefix `0x`, which counts only before a digit, and then digits. */
  function Unsigned(s: string): nat {
    if |s| > 2 && s[0] == '0' && (s[1] == 'x' || s[1] == 'X') && IsHexDigit(s[2]) then Leading(s[2..], 0)
    else Leading(s, 0)
  }

  function Leading(s: string, value: nat): nat {
    if s != "" && IsHexDigit(s[0]) then Leading(s[1..], 16 * value + NibbleOf(s[0]).value as int) else value
  }

  /** On the two characters that the decoder hands over it is the function above. */
  lemma ParseByteIsStrtoul(c0: char, c1: char)
    ensures ParseByte(c0, c1) == Strtoul([c0, c1])
  {
    var s := [c0, c1];
    assert s[1..] == [c1];
    OneCharacter(c1, 0);
    assert [c1][1..] == "";
    assert Strtoul("") == 0 && Unsigned("") == 0;
    if IsHexDigit(c0) {
      OneCharacter(c1, NibbleOf(c0).value as int);
    }
  }

  lemma OneCharacter(c: char, value: nat)
    ensures Leading([c], value) == if IsHexDigit(c) then 16 * value + NibbleOf(c).value as int else value
    ensures Unsigned([c]) == Leading([c], 0)
  {
    assert [c][1..] == "";
  }

  // ---- Encoder and decoder ----

  function Encoded(data: Bytes): string {
    if data == [] then ""
    else Encoded(data[..|data| - 1]) + HexByte(data[|data| - 1])
  }

  function Decoded(hex: string): Bytes {
    seq(|hex| / 2, i requires 0 <= i < |hex| / 2 => ParseByte(hex[2 * i], hex[2 * i + 1]))
  }

  method HexEncode(data: Bytes) returns (result: string)
    ensures result == Encoded(data)
  {
    result := "";
    for i := 0 to |data|
      invariant result == Encoded(data[..i])
    {
      assert data[..i + 1][..i] == data[..i];
      result := result + HexByte(data[i]);
    }
    assert data[..|data|] == data;
  }

  method HexDecode(hex: string) returns (r: Result<Bytes>)
    ensures r.Throws? <==> |hex| % 2 != 0
    ensures r.Ok? ==> r.value == Decoded(hex)
  {
    if |hex| % 2 != 0 {
      return Throws("Invalid hex string length");
    }
    var result := new u8[|hex| / 2](_ => 0);
    for i := 0 to result.Length
      invariant forall j :: 0 <= j < i ==> result[j] == ParseByte(hex[2 * j], hex[2 * j + 1])
    {
      result[i] := ParseByte(hex[2 * i], hex[2 * i + 1]);
    }
    return Ok(result[..]);
  }

  // ---- Properties of the formats ----

  lemma DigitInverse(v: Nibble)
    ensures NibbleOf(Digit(v)) == Some(v)
  {
  }

  lemma HexByteDigits(b: u8)
    ensures HexByte(b) == [Digit(b / 16), Digit(b % 16)]
  {
    if b < 16 {
      assert ZeroPad(HexDigits(b), 2) == ZeroPad(['0'] + HexDigits(b), 2) == ['0'] + HexDigits(b);
    } else {
      assert HexDigits(b) == [Digit(b / 16)] + [Digit(b % 16)];
    }
  }

  /** The number a string of hex digits denotes. */
  function Value(s: string): nat {
    if s == "" then 0
    else 16 * Value(s[..|s| - 1]) + (match NibbleOf(s[|s| - 1]) case Some(v) => v as int case None => 0)
  }

  function Pow16(k: nat): nat {
    if k == 0 then 1 else 16 * Pow16(k - 1)
  }

  lemma {:induction false} HexDigitsValue(n: nat, k: nat)
    requires n < Pow16(k) && k > 0
    ensures Value(HexDigits(n)) == n
    ensures |HexDigits(n)| <= k
  {
    if n >= 16 {
      HexDigitsValue(n / 16, k - 1);
      DigitInverse(n % 16);
      assert HexDigits(n)[..|HexDigits(n)| - 1] == HexDigits(n / 16);
    } else {
      assert HexDigits(n)[..0] == "";
    }
  }

  lemma {:induction false} ValueIgnoresLeadingZero(s: string)
    ensures Value(['0'] + s) == Value(s)
  {
    var z := ['0'] + s;
    if s != "" {
      assert z[..|z| - 1] == ['0'] + s[..|s| - 1];
      ValueIgnoresLeadingZero(s[..|s| - 1]);
    } else {
      assert z[..0] == "";
    }
  }

  lemma {:induction false} ZeroPadValue(s: string, width: nat)
    requires |s| <= width
    ensures |ZeroPad(s, width)| == width && Value(ZeroPad(s, width)) == Value(s)
    decreases width - |s|
  {
    if |s| < width {
      ValueIgnoresLeadingZero(s);
      ZeroPadValue(['0'] + s, width);
    }
  }

  /** The 17-byte buffer never truncates: every 64-bit stamp is exactly sixteen
      characters long and denotes the number it was printed from. */
  lemma HexStampValue(t: u64)
    ensures |HexStamp(t)| == 16 && Value(HexStamp(t)) == t
  {
    assert Pow16(16) == TWO_64 by {
      assert Pow16(4) == 0x1_0000;
      assert Pow16(8) == 0x1_0000 * Pow16(4);
      assert Pow16(12) == 0x1_0000 * Pow16(8);
      assert Pow16(16) == 0x1_0000 * Pow16(12);
    }
    HexDigitsValue(t, 16);
    ZeroPadValue(HexDigits(t), 16);
  }

  predicate LowerHexText(s: string) {
    forall i :: 0 <= i < |s| ==> '0' <= s[i] <= '9' || 'a' <= s[i] <= 'f'
  }

  lemma {:induction false} HexDigitsLower(n: nat)
    ensures LowerHexText(HexDigits(n))
  {
    if n >= 16 {
      HexDigitsLower(n / 16);
    }
  }

  lemma {:induction false} ZeroPadLower(s: string, width: nat)
    requires LowerHexText(s)
    ensures LowerHexText(ZeroPad(s, width))
    decreases width - |s|
  {
    if |s| < width {
      ZeroPadLower(['0'] + s, width);
    }
  }

  lemma HexStampDigits(t: u64)
    ensures LowerHexText(HexStamp(t))
  {
    HexDigitsLower(t);
    ZeroPadLower(HexDigits(t), 16);
  }

  // ---- Round trips ----

  lemma {:induction false} EncodedLength(data: Bytes)
    ensures |Encoded(data)| == 2 * |data|
  {
    if data != [] {
      EncodedLength(data[..|data| - 1]);
      HexByteDigits(data[|data| - 1]);
    }
  }

  lemma {:induction false} EncodedAt(data: Bytes, i: nat)
    requires i < |data|
    ensures |Encoded(data)| == 2 * |data|
    ensures Encoded(data)[2 * i] == Digit(data[i] / 16) && Encoded(data)[2 * i + 1] == Digit(data[i] % 16)
  {
    var n := |data| - 1;
    EncodedLength(data);
    EncodedLength(data[..n]);
    HexByteDigits(data[n]);
    if i < n {
      EncodedAt(data[..n], i);
    }
  }

  lemma ParseByteOfDigits(b: u8)
    ensures ParseByte(Digit(b / 16), Digit(b % 16)) == b
  {
    DigitInverse(b / 16);
    DigitInverse(b % 16);
  }

  lemma DecodedAt(text: string, i: nat, b: u8)
    requires 2 * i + 1 < |text| && text[2 * i] == Digit(b / 16) && text[2 * i + 1] == Digit(b % 16)
    ensures i < |Decoded(text)| && Decoded(text)[i] == b
  {
    ParseByteOfDigits(b);
  }

  /** Decoding inverts encoding on every byte string. */
  lemma DecodedOfEncoded(data: Bytes)
    ensures Decoded(Encoded(data)) == data
  {
    EncodedLength(data);
    forall i | 0 <= i < |data|
      ensures Decoded(Encoded(data))[i] == data[i]
    {
      EncodedAt(data, i);
      DecodedAt(Encoded(data), i, data[i]);
    }
  }

  lemma EncodedInjective(a: Bytes, b: Bytes)
    requires Encoded(a) == Encoded(b)
    ensures a == b
  {
    DecodedOfEncoded(a);
    DecodedOfEncoded(b);
  }

  function LowerChar(c: char): char {
    if 'A' <= c <= 'Z' then (c as int - 'A' as int + 'a' as int) as char else c
  }

  function Lower(s: string): string {
    seq(|s|, i requires 0 <= i < |s| => LowerChar(s[i]))
  }

  lemma DigitOfNibble(c: char)
    ensures IsHexDigit(c) ==> Digit(NibbleOf(c).value) == LowerChar(c)
    ensures IsHexDigit(LowerChar(c)) ==> IsHexDigit(c)
  {
  }

  lemma PairSurvives(c0: char, c1: char)
    requires IsHexDigit(c0) && IsHexDigit(c1)
    ensures Digit(ParseByte(c0, c1) / 16) == LowerChar(c0)
    ensures Digit(ParseByte(c0, c1) % 16) == LowerChar(c1)
  {
    var h, l := NibbleOf(c0).value, NibbleOf(c1).value;
    DigitOfNibble(c0);
    DigitOfNibble(c1);
    var b := 16 * h as int + l;
    assert b / 16 == h && b % 16 == l;
  }

  predicate AllHex(hex: string) {
    forall i :: 0 <= i < |hex| ==> IsHexDigit(hex[i])
  }

  lemma EncodedOfDecodedAt(hex: string, i: nat)
    requires i < |hex| / 2 * 2
    ensures |Encoded(Decoded(hex))| == |hex| / 2 * 2
    ensures IsHexDigit(Encoded(Decoded(hex))[i])
    ensures AllHex(hex) ==> Encoded(Decoded(hex))[i] == LowerChar(hex[i])
  {
    var k := i / 2;
    var b := Decoded(hex)[k];
    assert b == ParseByte(hex[2 * k], hex[2 * k + 1]);
    EncodedAt(Decoded(hex), k);
    DigitInverse(b / 16);
    DigitInverse(b % 16);
    if AllHex(hex) {
      PairSurvives(hex[2 * k], hex[2 * k + 1]);
    }
    assert i == 2 * k || i == 2 * k + 1;
  }

  lemma LowerHexIsHex(hex: string)
    requires forall i :: 0 <= i < |hex| ==> IsHexDigit(Lower(hex)[i])
    ensures AllHex(hex)
  {
    forall i | 0 <= i < |hex|
      ensures IsHexDigit(hex[i])
    {
      assert IsHexDigit(Lower(hex)[i]);
      DigitOfNibble(hex[i]);
    }
  }

  /** Encoding what was decoded gives the lowercase text back exactly when the text
      is made of whole pairs of hex digits; other text is decoded without complaint
      but does not survive. */
  lemma EncodedOfDecodedIff(hex: string)
    ensures Encoded(Decoded(hex)) == Lower(hex) <==> |hex| % 2 == 0 && AllHex(hex)
  {
    var text := Encoded(Decoded(hex));
    EncodedLength(Decoded(hex));
    forall i | 0 <= i < |text|
      ensures IsHexDigit(text[i]) && (AllHex(hex) ==> text[i] == LowerChar(hex[i]))
    {
      EncodedOfDecodedAt(hex, i);
    }
    if text == Lower(hex) {
      assert |text| == |hex|;
      LowerHexIsHex(hex);
    }
    if |hex| % 2 == 0 && AllHex(hex) {
      assert |text| == |hex| && forall i :: 0 <= i < |hex| ==> text[i] == Lower(hex)[i];
    }
  }
}
