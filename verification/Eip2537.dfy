/**
 * The EIP-2537 point layout ("Field elements encoding"): the TypeScript encoders, which go through
 * hexadecimal text, the Rust encoder, which reorders a serialized point, and the G1 parser.
 */
module Eip2537 {
  import opened Options
  import opened Bytes
  import opened Javascript

  // ---- Hexadecimal text ------------------------------------------------------------------------

  function HexDigit(d: nat): char
    requires d < 16
  {
    if d < 10 then ('0' as int + d) as char else ('a' as int + d - 10) as char
  }

  predicate IsHex(c: char) {
    '0' <= c <= '9' || 'a' <= c <= 'f'
  }

  function HexValue(c: char): (d: nat)
    requires IsHex(c)
    ensures d < 16 && HexDigit(d) == c
  {
    if c <= '9' then c as int - '0' as int else c as int - 'a' as int + 10
  }

  predicate AllHex(s: string) {
    forall i | 0 <= i < |s| :: IsHex(s[i])
  }

  lemma HexDigitValue(d: nat)
    requires d < 16
    ensures IsHex(HexDigit(d)) && HexValue(HexDigit(d)) == d
  {
  }

  /** `toString(16)`: no leading zeros. */
  function ToHex(n: nat): string {
    if n < 16 then [HexDigit(n)] else ToHex(n / 16) + [HexDigit(n % 16)]
  }

  function PadStart(s: string, len: nat): string {
    if |s| >= len then s else seq(len - |s|, _ => '0') + s
  }

  /** The `len` low digits of `n`. */
  function FixedHex(n: nat, len: nat): (s: string)
    ensures |s| == len
  {
    if len == 0 then [] else FixedHex(n / 16, len - 1) + [HexDigit(n % 16)]
  }

  function FromHex(s: string): nat
    requires AllHex(s)
  {
    if s == [] then 0 else 16 * FromHex(s[..|s| - 1]) + HexValue(s[|s| - 1])
  }

  lemma {:induction false} ZeroIsPadding(len: nat)
    ensures FixedHex(0, len) == seq(len, _ => '0')
  {
    if len > 0 {
      ZeroIsPadding(len - 1);
    }
  }

  /** A number that fits is padded to exactly its fixed-length form. */
  lemma {:induction false} PaddedIsFixed(n: nat, len: nat)
    requires len >= 1 && n < Pow(16, len)
    ensures |ToHex(n)| <= len && PadStart(ToHex(n), len) == FixedHex(n, len)
  {
    if n < 16 {
      ZeroIsPadding(len - 1);
      if len > 1 {
        assert n / 16 == 0;
      }
    } else {
      assert Pow(16, len) == 16 * Pow(16, len - 1);
      assert n / 16 < Pow(16, len - 1);
      PaddedIsFixed(n / 16, len - 1);
      var init := ToHex(n / 16);
      assert PadStart(ToHex(n), len) == PadStart(init, len - 1) + [HexDigit(n % 16)];
    }
  }

  lemma {:induction false} FixedHexRoundTrip(n: nat, len: nat)
    requires n < Pow(16, len)
    ensures AllHex(FixedHex(n, len)) && FromHex(FixedHex(n, len)) == n
  {
    if len > 0 {
      FixedHexRoundTrip(n / 16, len - 1);
      HexDigitValue(n % 16);
      var s := FixedHex(n, len);
      assert s[..len - 1] == FixedHex(n / 16, len - 1);
    }
  }

  lemma {:induction false} TextRoundTrip(s: string)
    requires AllHex(s)
    ensures FromHex(s) < Pow(16, |s|) && FixedHex(FromHex(s), |s|) == s
  {
    if s != [] {
      var init, d := s[..|s| - 1], HexValue(s[|s| - 1]);
      TextRoundTrip(init);
      assert FromHex(s) / 16 == FromHex(init) && FromHex(s) % 16 == d;
      assert s == init + [s[|s| - 1]];
    }
  }

  // ---- Bytes and text --------------------------------------------------------------------------

  function HexByte(b: Byte): string {
    [HexDigit(b / 16), HexDigit(b % 16)]
  }

  /** The value of a hexadecimal digit of either case. */
  function Digit(c: char): (d: Option<nat>)
    ensures d.Some? ==> d.value < 16
    ensures IsHex(c) ==> d == Some(HexValue(c))
  {
    var l := LowerChar(c);
    if IsHex(l) then Some(HexValue(l)) else None
  }

  /**
   * `parseInt` of two characters to the base 16, as a byte: leading white space, a sign, a `0x` prefix
   * and trailing garbage are read as usual, and NaN is stored as 0.
   */
  function ParsePair(c: char, d: char): Byte {
    if Digit(c).Some? then
      if c == '0' && LowerChar(d) == 'x' then 0
      else if Digit(d).Some? then 16 * Digit(c).value + Digit(d).value
      else Digit(c).value
    else if IsWhite(c) || c == '+' then Digit(d).GetOr(0)
    else if c == '-' then (256 - Digit(d).GetOr(0)) % 256
    else 0
  }

  lemma HexByteValue(b: Byte)
    ensures AllHex(HexByte(b)) && ParsePair(HexByte(b)[0], HexByte(b)[1]) == b
  {
    HexDigitValue(b / 16);
    HexDigitValue(b % 16);
  }

  /** `Buffer.toString("hex")`. */
  function Hex(bytes: seq<Byte>): (s: string)
    ensures |s| == 2 * |bytes|
  {
    seq(2 * |bytes|, i requires 0 <= i < 2 * |bytes| => HexByte(bytes[i / 2])[i % 2])
  }

  /** The bytes that the pairs of a text stand for; an odd last character stands for nothing. */
  function Pairs(s: string): (bytes: seq<Byte>)
    ensures |bytes| == |s| / 2
  {
    seq(|s| / 2, k requires 0 <= k < |s| / 2 => ParsePair(s[2 * k], s[2 * k + 1]))
  }

  lemma HexAt(bytes: seq<Byte>, k: nat)
    requires k < |bytes|
    ensures Hex(bytes)[2 * k] == HexByte(bytes[k])[0] && Hex(bytes)[2 * k + 1] == HexByte(bytes[k])[1]
  {
    assert 2 * k / 2 == k && 2 * k % 2 == 0 && (2 * k + 1) / 2 == k && (2 * k + 1) % 2 == 1;
  }

  lemma HexConcat(a: seq<Byte>, b: seq<Byte>)
    ensures Hex(a + b) == Hex(a) + Hex(b)
  {
    forall i | 0 <= i < 2 * |a + b| ensures Hex(a + b)[i] == (Hex(a) + Hex(b))[i] {
      if i >= 2 * |a| {
        assert (i - 2 * |a|) / 2 == i / 2 - |a| && (i - 2 * |a|) % 2 == i % 2;
      }
    }
  }

  lemma {:induction false} HexOfBigEndian(n: nat, len: nat)
    ensures Hex(BigEndian(n, len)) == FixedHex(n, 2 * len)
  {
    if len > 0 {
      HexOfBigEndian(n / 256, len - 1);
      HexConcat(BigEndian(n / 256, len - 1), [n % 256]);
      assert Hex([n % 256]) == HexByte(n % 256);
      assert n / 16 / 16 == n / 256 && n % 256 / 16 == n / 16 % 16 && n % 256 % 16 == n % 16;
      assert FixedHex(n, 2 * len) == FixedHex(n / 16, 2 * len - 1) + [HexDigit(n % 16)];
      assert FixedHex(n / 16, 2 * len - 1) == FixedHex(n / 16 / 16, 2 * len - 2) + [HexDigit(n / 16 % 16)];
    }
  }

  lemma PairsOfHex(bytes: seq<Byte>)
    ensures AllHex(Hex(bytes)) && Pairs(Hex(bytes)) == bytes
  {
    var s := Hex(bytes);
    forall i | 0 <= i < |s| ensures IsHex(s[i]) {
      HexByteValue(bytes[i / 2]);
    }
    forall k | 0 <= k < |bytes| ensures Pairs(s)[k] == bytes[k] {
      HexByteValue(bytes[k]);
      HexAt(bytes, k);
    }
  }

  /** hexToBytes, pair by pair; the write of an odd last character is out of range and ignored. */
  method HexToBytes(hex: string) returns (bytes: array<Byte>)
    ensures fresh(bytes) && bytes[..] == Pairs(hex)
  {
    bytes := new Byte[|hex| / 2];
    var i := 0;
    while i < |hex|
      invariant 0 <= i <= |hex| + 1 && i % 2 == 0
      invariant forall k | 0 <= k < i / 2 && k < |hex| / 2 :: bytes[k] == ParsePair(hex[2 * k], hex[2 * k + 1])
    {
      if i / 2 < bytes.Length {
        bytes[i / 2] := ParsePair(hex[i], hex[i + 1]);
      }
      i := i + 2;
    }
  }

  // ---- The encoders ----------------------------------------------------------------------------

  /** The bytes of a coordinate below 2^384. */
  type Coordinate = c: seq<Byte> | |c| == 48 witness Zeros(48)

  const COORDINATE_BYTES: nat := 48

  ghost predicate Fits(n: nat) {
    n < Pow(256, COORDINATE_BYTES)
  }

  function CoordinateOf(n: nat): Coordinate {
    BigEndian(n, COORDINATE_BYTES)
  }

  /** A field element: 16 zero bytes and the coordinate, most significant byte first. */
  function Element(c: Coordinate): (r: seq<Byte>)
    ensures |r| == 64
  {
    Zeros(16) + c
  }

  lemma {:induction false} PowPairs(len: nat)
    ensures Pow(16, 2 * len) == Pow(256, len)
  {
    if len > 0 {
      PowPairs(len - 1);
      assert Pow(16, 2 * len) == 16 * Pow(16, 2 * len - 1);
    }
  }

  /** `hexToBytes(n.toString(16).padStart(96, "0"))` is the coordinate's big-endian form. */
  method CoordinateBytes(n: nat) returns (bytes: array<Byte>)
    requires Fits(n)
    ensures fresh(bytes) && bytes[..] == CoordinateOf(n)
  {
    var len := COORDINATE_BYTES;
    PowPairs(len);
    PaddedIsFixed(n, 2 * len);
    HexOfBigEndian(n, len);
    PairsOfHex(BigEndian(n, len));
    bytes := HexToBytes(PadStart(ToHex(n), 2 * len));
  }

  /** A buffer with `src` written at an offset. */
  function Overlay(s: seq<Byte>, src: seq<Byte>, at: nat): (r: seq<Byte>)
    requires at + |src| <= |s|
    ensures |r| == |s|
  {
    s[..at] + src + s[at + |src|..]
  }

  /** `set` of a typed array, or `copy_from_slice` into a slice of one. */
  method SetBytes(a: array<Byte>, src: seq<Byte>, at: nat)
    requires at + |src| <= a.Length
    modifies a
    ensures a[..] == Overlay(old(a[..]), src, at)
  {
    forall i | 0 <= i < |src| {
      a[at + i] := src[i];
    }
  }

  /** An affine G2 point; each coordinate is c0 + c1 * u. */
  datatype G2 = G2(xc0: nat, xc1: nat, yc0: nat, yc1: nat)

  ghost predicate G2Fits(p: G2) {
    Fits(p.xc0) && Fits(p.xc1) && Fits(p.yc0) && Fits(p.yc1)
  }

  /** Two field elements, and the 256-byte layout with c0 before c1. */
  function Elements(a: Coordinate, b: Coordinate): (r: seq<Byte>)
    ensures |r| == 128
  {
    Element(a) + Element(b)
  }

  function G2Layout(p: G2): (r: seq<Byte>)
    ensures |r| == 256
  {
    Elements(CoordinateOf(p.xc0), CoordinateOf(p.xc1)) + Elements(CoordinateOf(p.yc0), CoordinateOf(p.yc1))
  }

  lemma TwoOverlays(s: seq<Byte>, a: Coordinate, b: Coordinate, at: nat)
    requires at + 128 <= |s| && forall i | at <= i < at + 128 :: s[i] == 0
    ensures Overlay(Overlay(s, a, at + 16), b, at + 80) == Overlay(s, Elements(a, b), at)
  {
  }

  lemma BothHalves(front: seq<Byte>, back: seq<Byte>)
    requires |front| == |back| == 128
    ensures Overlay(Overlay(Zeros(256), front, 0), back, 128) == front + back
  {
  }

  /** Four coordinates written at their offsets make up the layout. */
  lemma FourOverlays(a: Coordinate, b: Coordinate, c: Coordinate, d: Coordinate)
    ensures Overlay(Overlay(Overlay(Overlay(Zeros(256), a, 16), b, 80), c, 144), d, 208)
         == Elements(a, b) + Elements(c, d)
  {
    TwoOverlays(Zeros(256), a, b, 0);
    var half := Overlay(Zeros(256), Elements(a, b), 0);
    TwoOverlays(half, c, d, 128);
    BothHalves(Elements(a, b), Elements(c, d));
  }

  /** encodeG2Point. */
  method EncodeG2Point(p: G2) returns (result: array<Byte>)
    requires G2Fits(p)
    ensures result[..] == G2Layout(p)
  {
    result := new Byte[256](_ => 0);
    assert result[..] == Zeros(256);
    var x0Bytes := CoordinateBytes(p.xc0);
    var x1Bytes := CoordinateBytes(p.xc1);
    var y0Bytes := CoordinateBytes(p.yc0);
    var y1Bytes := CoordinateBytes(p.yc1);
    SetBytes(result, x0Bytes[..], 16);
    SetBytes(result, x1Bytes[..], 80);
    SetBytes(result, y0Bytes[..], 144);
    SetBytes(result, y1Bytes[..], 208);
    FourOverlays(CoordinateOf(p.xc0), CoordinateOf(p.xc1), CoordinateOf(p.yc0), CoordinateOf(p.yc1));
  }

  // ---- The Rust signer -------------------------------------------------------------------------

  /** blst's serialization of a G2 point: c1 before c0. */
  function Serialize(p: G2): (raw: seq<Byte>)
    ensures |raw| == 192
  {
    CoordinateOf(p.xc1) + CoordinateOf(p.xc0) + CoordinateOf(p.yc1) + CoordinateOf(p.yc0)
  }

  /** g2_to_eip2537. */
  method G2ToEip2537(raw: seq<Byte>) returns (out: array<Byte>)
    requires |raw| == 192
    ensures out[..] == Elements(raw[48..96], raw[0..48]) + Elements(raw[144..192], raw[96..144])
  {
    var xc1, xc0, yc1, yc0 := raw[0..48], raw[48..96], raw[96..144], raw[144..192];
    out := new Byte[256](_ => 0);
    assert out[..] == Zeros(256);
    SetBytes(out, xc0, 16);
    SetBytes(out, xc1, 80);
    SetBytes(out, yc0, 144);
    SetBytes(out, yc1, 208);
    FourOverlays(xc0, xc1, yc0, yc1);
  }

  lemma SerializedParts(a: Coordinate, b: Coordinate, c: Coordinate, d: Coordinate)
    ensures var raw := a + b + c + d;
            raw[0..48] == a && raw[48..96] == b && raw[96..144] == c && raw[144..192] == d
  {
  }

  /** The TypeScript node and the Rust signer write the same 256 bytes for a point. */
  method EncodersAgree(p: G2) returns (typescript: array<Byte>, rust: array<Byte>)
    requires G2Fits(p)
    ensures typescript[..] == rust[..] == G2Layout(p)
  {
    typescript := EncodeG2Point(p);
    SerializedParts(CoordinateOf(p.xc1), CoordinateOf(p.xc0), CoordinateOf(p.yc1), CoordinateOf(p.yc0));
    rust := G2ToEip2537(Serialize(p));
  }

  // ---- G1 ----------------------------------------------------------------------------------------

  function G1Layout(x: nat, y: nat): (r: seq<Byte>)
    ensures |r| == 128
  {
    Elements(CoordinateOf(x), CoordinateOf(y))
  }

  /** encodeG1Point. */
  method EncodeG1Point(x: nat, y: nat) returns (result: array<Byte>)
    requires Fits(x) && Fits(y)
    ensures result[..] == G1Layout(x, y)
  {
    result := new Byte[128](_ => 0);
    assert result[..] == Zeros(128);
    var xBytes := CoordinateBytes(x);
    var yBytes := CoordinateBytes(y);
    TwoOverlays(Zeros(128), xBytes[..], yBytes[..], 0);
    SetBytes(result, xBytes[..], 16);
    SetBytes(result, yBytes[..], 80);
  }

  /** A public key's text without its `0x` and in lower case. */
  function Normalized(text: string): string {
    var hex := if |text| >= 2 && text[0] == '0' && (text[1] == 'x' || text[1] == 'X') then text[2..] else text;
    Lower(hex)
  }

  function TrimEnd(s: string): (r: string)
    ensures r <= s
    ensures AllHex(s) ==> r == s
  {
    if s != [] && IsWhite(s[|s| - 1]) then TrimEnd(s[..|s| - 1]) else s
  }

  /** `BigInt("0x" + s)`: trailing white space is ignored, anything else but digits throws. */
  function BigIntOfHex(s: string): Option<nat> {
    var digits := TrimEnd(s);
    if digits != [] && AllHex(digits) then Some(FromHex(digits)) else None
  }

  /** The 128-byte branch of parsePublicKeyPoint, up to the curve check on the coordinates. */
  function ParseG1(text: string): Option<(nat, nat)> {
    ParseHex(Normalized(text))
  }

  function ParseHex(hex: string): Option<(nat, nat)> {
    if |hex| != 256 || hex[0..32] != Pad() || hex[128..160] != Pad() then None
    else
      match (BigIntOfHex(hex[32..128]), BigIntOfHex(hex[160..256]))
      case (Some(x), Some(y)) => Some((x, y))
      case _ => None
  }

  lemma {:induction false} PowGrows(base: nat, a: nat, b: nat)
    requires base >= 1 && a <= b
    ensures Pow(base, a) <= Pow(base, b)
  {
    if a < b {
      PowGrows(base, a, b - 1);
    }
  }

  const DIGITS: nat := 2 * COORDINATE_BYTES

  function Pad(): (r: string)
    ensures |r| == 32
  {
    seq(32, _ => '0')
  }

  /** The text of a G1 encoding: each coordinate's 96 digits after 32 zeros. */
  function G1Text(x: nat, y: nat): string {
    Pad() + FixedHex(x, DIGITS) + Pad() + FixedHex(y, DIGITS)
  }

  lemma ElementText(n: nat)
    ensures Hex(Element(CoordinateOf(n))) == Pad() + FixedHex(n, DIGITS)
  {
    HexConcat(Zeros(16), CoordinateOf(n));
    HexOfBigEndian(n, COORDINATE_BYTES);
    assert Hex(Zeros(16)) == Pad();
  }

  lemma LayoutText(x: nat, y: nat)
    ensures Hex(G1Layout(x, y)) == G1Text(x, y)
  {
    HexConcat(Element(CoordinateOf(x)), Element(CoordinateOf(y)));
    ElementText(x);
    ElementText(y);
    assert Pad() + FixedHex(x, DIGITS) + (Pad() + FixedHex(y, DIGITS)) == G1Text(x, y);
  }

  lemma HexIsNormal(hex: string)
    requires AllHex(hex)
    ensures Normalized("0x" + hex) == hex
  {
    var text := "0x" + hex;
    assert text[0] == '0' && text[1] == 'x' && text[2..] == hex;
    forall i | 0 <= i < |hex| ensures LowerChar(hex[i]) == hex[i] {
      assert IsHex(hex[i]);
    }
    assert Normalized(text) == hex;
  }

  lemma FitsDigits(n: nat)
    ensures Fits(n) <==> n < Pow(16, DIGITS)
  {
    PowPairs(COORDINATE_BYTES);
  }

  lemma Slices(a: string, b: string, c: string, d: string)
    requires |a| == |c| == 32 && |b| == |d| == 96
    ensures var t := a + b + c + d;
            |t| == 256 && t[0..32] == a && t[32..128] == b && t[128..160] == c && t[160..256] == d
  {
  }

  /** The parser recovers exactly the coordinates the encoder wrote. */
  lemma G1RoundTrip(x: nat, y: nat)
    requires Fits(x) && Fits(y)
    ensures ParseG1("0x" + Hex(G1Layout(x, y))) == Some((x, y))
  {
    LayoutText(x, y);
    PairsOfHex(G1Layout(x, y));
    HexIsNormal(G1Text(x, y));
    CoordinateText(x);
    CoordinateText(y);
    TwoParts(FixedHex(x, DIGITS), FixedHex(y, DIGITS));
  }

  lemma CoordinateText(n: nat)
    requires Fits(n)
    ensures AllHex(FixedHex(n, DIGITS)) && HexOrSpace(FixedHex(n, DIGITS))
    ensures BigIntOfHex(FixedHex(n, DIGITS)) == Some(n)
  {
    FitsDigits(n);
    FixedHexRoundTrip(n, DIGITS);
    DigitsAreNoSpace(FixedHex(n, DIGITS));
  }

  /** A parsed coordinate fits, and its 96 digits are the text it came from if that is all digits. */
  lemma ParsedCoordinate(s: string)
    requires |s| == DIGITS && BigIntOfHex(s).Some?
    ensures Fits(BigIntOfHex(s).value)
    ensures AllHex(s) ==> FixedHex(BigIntOfHex(s).value, DIGITS) == s
  {
    var digits := TrimEnd(s);
    TextRoundTrip(digits);
    PowGrows(16, |digits|, DIGITS);
    FitsDigits(FromHex(digits));
  }

  lemma Halves(hex: string)
    requires |hex| == 256
    ensures hex == hex[0..32] + hex[32..128] + hex[128..160] + hex[160..256]
  {
  }

  /**
   * An accepted text is the encoding of what it parsed to exactly when it holds digits only: trailing
   * white space within a coordinate is accepted as well.
   */
  lemma G1Canonical(text: string)
    requires ParseG1(text).Some?
    ensures var (x, y) := ParseG1(text).value;
            && Fits(x) && Fits(y)
            && (Hex(G1Layout(x, y)) == Normalized(text) <==> AllHex(Normalized(text)))
  {
    var hex := Normalized(text);
    var (x, y) := ParseG1(text).value;
    ParsedCoordinate(hex[32..128]);
    ParsedCoordinate(hex[160..256]);
    LayoutText(x, y);
    PairsOfHex(G1Layout(x, y));
    if AllHex(hex) {
      DigitsText(hex, x, y);
    }
  }

  lemma DigitsText(hex: string, x: nat, y: nat)
    requires |hex| == 256 && AllHex(hex) && hex[0..32] == Pad() && hex[128..160] == Pad()
    requires BigIntOfHex(hex[32..128]) == Some(x) && BigIntOfHex(hex[160..256]) == Some(y)
    ensures G1Text(x, y) == hex
  {
    var a, b := hex[32..128], hex[160..256];
    assert AllHex(a) && AllHex(b);
    ParsedCoordinate(a);
    ParsedCoordinate(b);
    Halves(hex);
  }

  /** A coordinate below 16^95 in 95 digits and a space. */
  function Spaced(n: nat): (r: string)
    ensures |r| == DIGITS
  {
    FixedHex(n, DIGITS - 1) + " "
  }

  lemma SpacedRoundTrip(n: nat)
    requires n < Pow(16, DIGITS - 1)
    ensures BigIntOfHex(Spaced(n)) == Some(n) && !AllHex(Spaced(n)) && HexOrSpace(Spaced(n))
  {
    var digits := FixedHex(n, DIGITS - 1);
    FixedHexRoundTrip(n, DIGITS - 1);
    assert Spaced(n)[DIGITS - 1] == ' ' && Spaced(n)[..DIGITS - 1] == digits;
    assert TrimEnd(Spaced(n)) == digits;
  }

  lemma PlainIsNormal(text: string)
    requires |text| >= 2 && text[1] == '0' && HexOrSpace(text)
    ensures Normalized(text) == text
  {
    forall i | 0 <= i < |text| ensures LowerChar(text[i]) == text[i] {
      assert IsHex(text[i]) || text[i] == ' ';
    }
  }

  predicate HexOrSpace(s: string) {
    forall i | 0 <= i < |s| :: IsHex(s[i]) || s[i] == ' '
  }

  lemma DigitsAreNoSpace(s: string)
    requires AllHex(s)
    ensures HexOrSpace(s) && BigIntOfHex(s) == if s == [] then None else Some(FromHex(s))
  {
  }

  /** A text of two coordinates behind their padding is parsed part by part. */
  lemma TwoParts(a: string, b: string)
    requires |a| == |b| == DIGITS && HexOrSpace(a) && HexOrSpace(b)
    ensures var text := Pad() + a + Pad() + b;
            && Normalized(text) == text && text[32..128] == a && text[160..256] == b
            && (BigIntOfHex(a).Some? && BigIntOfHex(b).Some? ==>
                  ParseHex(text) == Some((BigIntOfHex(a).value, BigIntOfHex(b).value)))
  {
    var text := Pad() + a + Pad() + b;
    Slices(Pad(), a, Pad(), b);
    assert text[1] == Pad()[1] == '0';
    assert HexOrSpace(text);
    PlainIsNormal(text);
  }

  /**
   * Every point with a coordinate below 16^95 has a second accepted text: that coordinate in 95 digits
   * and a space.  The parser reads the point's own coordinates, so the curve check that follows passes
   * for a real key; the generator, whose y begins with a zero digit, is one.
   */
  lemma WhiteSpaceIsAccepted(x: nat, y: nat)
    requires Fits(x) && Fits(y)
    ensures x < Pow(16, DIGITS - 1) ==>
              var text := Pad() + Spaced(x) + Pad() + FixedHex(y, DIGITS);
              ParseG1(text) == Some((x, y)) && text != G1Text(x, y)
    ensures y < Pow(16, DIGITS - 1) ==>
              var text := Pad() + FixedHex(x, DIGITS) + Pad() + Spaced(y);
              ParseG1(text) == Some((x, y)) && text != G1Text(x, y)
  {
    CoordinateText(x);
    CoordinateText(y);
    if x < Pow(16, DIGITS - 1) {
      SpacedRoundTrip(x);
      TwoParts(Spaced(x), FixedHex(y, DIGITS));
      TwoParts(FixedHex(x, DIGITS), FixedHex(y, DIGITS));
    }
    if y < Pow(16, DIGITS - 1) {
      SpacedRoundTrip(y);
      TwoParts(FixedHex(x, DIGITS), Spaced(y));
      TwoParts(FixedHex(x, DIGITS), FixedHex(y, DIGITS));
    }
  }
}
