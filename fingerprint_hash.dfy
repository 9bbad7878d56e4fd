/** The session-id hashes of the browser fingerprint store (assets/js/wland_fingerprint.js):
    the fallback rolling hash `simple_hash` over 32-bit integers, and the hexadecimal
    rendering of a SHA-256 digest used when the Web Crypto API is present. */
module FingerprintHash {
  import opened Text
  import opened Wrappers

  // ---------------------------------------------------------------- 32-bit integers

  const TwoTo32: int := 0x1_0000_0000
  const TwoTo31: int := 0x8000_0000

  /** ECMAScript ToInt32: the integer congruent to `x` modulo 2^32 in [-2^31, 2^31). */
  function ToInt32(x: int): (r: int)
    ensures -TwoTo31 <= r < TwoTo31
    ensures (x - r) % TwoTo32 == 0
  {
    (x + TwoTo31) % TwoTo32 - TwoTo31
  }

  /** Adding a multiple of 2^32 does not change ToInt32. */
  lemma ToInt32Shift(x: int, k: int)
    ensures ToInt32(x + k * TwoTo32) == ToInt32(x)
  {
    var a := x + TwoTo31;
    var q, r := a / TwoTo32, a % TwoTo32;
    assert a + k * TwoTo32 == (q + k) * TwoTo32 + r;
    ModUnique(a + k * TwoTo32, q + k, r);
  }

  /** The remainder modulo 2^32 is the `r` of any `q * 2^32 + r` with `r` in range. */
  lemma ModUnique(n: int, q: int, r: int)
    requires 0 <= r < TwoTo32 && n == q * TwoTo32 + r
    ensures n % TwoTo32 == r
  {
    var d := q - n / TwoTo32;
    assert d * TwoTo32 == n % TwoTo32 - r;
  }

  /** Congruent integers have the same ToInt32. */
  lemma ToInt32Congruent(x: int, y: int)
    requires (x - y) % TwoTo32 == 0
    ensures ToInt32(x) == ToInt32(y)
  {
    var k := (x - y) / TwoTo32;
    assert x == y + k * TwoTo32;
    ToInt32Shift(y, k);
  }

  /** One round of `simple_hash`: `hash = ((hash << 5) - hash) + char; hash = hash & hash`.
      The shift works on ToInt32(hash), the subtraction and addition are exact, and `& hash`
      truncates the sum back to 32 bits. */
  function Step(h: int, unit: int): int {
    ToInt32(ToInt32(ToInt32(h) * 32) - h + unit)
  }

  /** A round is `31 * h + unit` wrapped to 32 bits. */
  lemma StepIsTimes31(h: int, unit: int)
    requires -TwoTo31 <= h < TwoTo31
    ensures Step(h, unit) == ToInt32(31 * h + unit)
  {
    var s := ToInt32(h * 32);
    assert ToInt32(h) == h;
    assert (h * 32 - s) % TwoTo32 == 0;
    ToInt32Congruent(s - h + unit, 31 * h + unit);
  }

  // ---------------------------------------------------------------- UTF-16

  /** The UTF-16 code units of one code point, as `charCodeAt` sees them. */
  function Units(c: char): (u: seq<int>)
    ensures 1 <= |u| <= 2
    ensures forall i :: 0 <= i < |u| ==> 0 <= u[i] < 0x1_0000
  {
    if c as int < 0x1_0000 then [c as int]
    else [0xD800 + (c as int - 0x1_0000) / 0x400, 0xDC00 + (c as int - 0x1_0000) % 0x400]
  }

  /** A JavaScript string: the concatenated code units of its code points. */
  function CodeUnits(s: string): (u: seq<int>)
    ensures |u| >= |s|
  {
    if s == [] then [] else Units(s[0]) + CodeUnits(s[1..])
  }

  // ---------------------------------------------------------------- simple_hash

  /** The value of `hash` after the loop has consumed `units`: a left fold from 0. */
  function Fold(units: seq<int>): (h: int)
    ensures -TwoTo31 <= h < TwoTo31
  {
    if units == [] then 0 else Step(Fold(units[..|units| - 1]), units[|units| - 1])
  }

  /** The unwrapped polynomial hash `sum units[i] * 31^(n-1-i)` in Horner form. */
  function Polynomial(units: seq<int>): int {
    if units == [] then 0 else 31 * Polynomial(units[..|units| - 1]) + units[|units| - 1]
  }

  /** The loop computes the polynomial hash modulo 2^32: wrapping after every round or once at
      the end gives the same 32-bit value. */
  lemma {:induction false} FoldIsPolynomial(units: seq<int>)
    ensures Fold(units) == ToInt32(Polynomial(units))
  {
    if units != [] {
      var init := units[..|units| - 1];
      var last := units[|units| - 1];
      FoldIsPolynomial(init);
      StepIsTimes31(Fold(init), last);
      var p := Polynomial(init);
      assert (p - Fold(init)) % TwoTo32 == 0;
      var k := (p - Fold(init)) / TwoTo32;
      assert 31 * p + last == 31 * Fold(init) + last + (31 * k) * TwoTo32;
      ToInt32Shift(31 * Fold(init) + last, 31 * k);
    }
  }

  /** `Math.abs` of a 32-bit value. */
  function Abs(x: int): nat {
    if x < 0 then -x else x
  }

  /** `substring(0, n)` of a string. */
  function Take(s: string, n: nat): (r: string)
    ensures |r| == if |s| < n then |s| else n
  {
    if |s| < n then s else s[..n]
  }

  /** What `simple_hash(str)` returns. */
  function SimpleHashOf(str: string): string {
    Take(PadZeros(NatToHex(Abs(Fold(CodeUnits(str)))), 64), 64)
  }

  /** `simple_hash`: the loop over the code units of `str`, then hex, pad and cut. */
  method SimpleHash(str: string) returns (r: string)
    ensures r == SimpleHashOf(str)
    ensures |r| == 64 && IsLowerHex(r)
  {
    var units := CodeUnits(str);
    var hash := 0;
    var i := 0;
    while i < |units|
      invariant 0 <= i <= |units|
      invariant hash == Fold(units[..i])
    {
      var code := units[i];
      assert units[..i + 1][..i] == units[..i];
      hash := ToInt32(ToInt32(ToInt32(hash) * 32) - hash + code);
      i := i + 1;
    }
    assert units[..|units|] == units;
    var hex := NatToHex(Abs(hash));
    r := Take(PadZeros(hex, 64), 64);
    SimpleHashShape(str);
  }

  /** The result is exactly 64 lower-case hex digits of which at least the first 56 are '0',
      because `Math.abs` of a 32-bit integer is at most 2^31 and so has at most 8 hex digits. */
  lemma SimpleHashShape(str: string)
    ensures |SimpleHashOf(str)| == 64
    ensures IsLowerHex(SimpleHashOf(str))
    ensures forall i :: 0 <= i < 56 ==> SimpleHashOf(str)[i] == '0'
  {
    var a := Abs(Fold(CodeUnits(str)));
    assert a < Pow16(8) by {
      assert Pow16(8) == 0x1_0000_0000;
    }
    NatToHexLength(a, 8);
    var hex := NatToHex(a);
    var padded := PadZeros(hex, 64);
    assert padded == Zeros(64 - |hex|) + hex;
    assert SimpleHashOf(str) == padded;
    forall i | 0 <= i < 64
      ensures IsLowerHexChar(padded[i])
    {
      if i >= 64 - |hex| {
        assert padded[i] == hex[i - (64 - |hex|)];
      }
    }
  }

  /** The empty string hashes to 64 zeros. */
  lemma SimpleHashEmpty()
    ensures SimpleHashOf("") == Zeros(64)
  {
    assert CodeUnits("") == [];
    assert NatToHex(0) == "0";
    assert Zeros(63) + "0" == Zeros(64);
  }

  // ---------------------------------------------------------------- digest to hex

  newtype byte = x: int | 0 <= x < 256

  /** A SHA-256 digest (FIPS 180-4): 32 bytes. The digest itself is not modelled. */
  type Digest = d: seq<byte> | |d| == 32 witness seq(32, _ => 0 as byte)

  /** `b.toString(16).padStart(2, '0')`. */
  function ByteHex(b: byte): (r: string)
    ensures r == [HexDigitChar(b as nat / 16), HexDigitChar(b as nat % 16)]
  {
    var n := b as nat;
    if n < 16 then
      OneDigitPadded(n);
      PadZeros(NatToHex(n), 2)
    else
      TwoDigitsPadded(n);
      PadZeros(NatToHex(n), 2)
  }

  lemma OneDigitPadded(n: nat)
    requires n < 16
    ensures PadZeros(NatToHex(n), 2) == [HexDigitChar(n / 16), HexDigitChar(n % 16)]
  {
    assert NatToHex(n) == [HexDigitChar(n)];
    assert n / 16 == 0 && n % 16 == n && HexDigitChar(0) == '0';
    assert Zeros(1) == "0";
  }

  lemma TwoDigitsPadded(n: nat)
    requires 16 <= n < 256
    ensures PadZeros(NatToHex(n), 2) == [HexDigitChar(n / 16), HexDigitChar(n % 16)]
  {
    assert n / 16 < 16;
    assert NatToHex(n / 16) == [HexDigitChar(n / 16)];
    assert NatToHex(n) == [HexDigitChar(n / 16)] + [HexDigitChar(n % 16)];
  }

  /** `hash_array.map(b => b.toString(16).padStart(2, '0')).join('')`. */
  function HexEncode(bytes: seq<byte>): (r: string)
    ensures |r| == 2 * |bytes| && IsLowerHex(r)
  {
    if bytes == [] then "" else ByteHex(bytes[0]) + HexEncode(bytes[1..])
  }

  /** The value of a lower-case hex digit; the partner of `HexDigitChar`. */
  function HexValue(c: char): nat {
    if '0' <= c <= '9' then c as int - '0' as int
    else if 'a' <= c <= 'f' then c as int - 'a' as int + 10
    else 0
  }

  /** Reads back the bytes of a lower-case hex string, two digits at a time; a last odd digit
      is dropped. */
  function HexDecode(s: string): seq<byte>
    decreases |s|
  {
    if |s| < 2 then []
    else
      var v := 16 * HexValue(s[0]) + HexValue(s[1]);
      [if v < 256 then v as byte else 0] + HexDecode(s[2..])
  }

  lemma HexDigitValue(d: nat)
    requires d < 16
    ensures HexValue(HexDigitChar(d)) == d
  {
  }

  /** The two digits of a byte read back as that byte. */
  lemma ByteHexValue(b: byte)
    ensures 16 * HexValue(ByteHex(b)[0]) + HexValue(ByteHex(b)[1]) == b as nat
  {
    HexDigitValue(b as nat / 16);
    HexDigitValue(b as nat % 16);
  }

  /** Decoding reads the first pair, then the rest. */
  lemma HexDecodePair(pair: string, rest: string)
    requires |pair| == 2
    ensures var v := 16 * HexValue(pair[0]) + HexValue(pair[1]);
            HexDecode(pair + rest) == [if v < 256 then v as byte else 0] + HexDecode(rest)
  {
    var s := pair + rest;
    assert s[0] == pair[0] && s[1] == pair[1] && s[2..] == rest;
  }

  /** A byte's two digits in front of more digits decode to that byte first. */
  lemma HexDecodeByte(b: byte, rest: string)
    ensures HexDecode(ByteHex(b) + rest) == [b] + HexDecode(rest)
  {
    ByteHexValue(b);
    DecodeFront(ByteHex(b), rest, b);
  }

  /** Two digits worth byte `b` in front of more digits decode to `b` first. */
  lemma DecodeFront(pair: string, rest: string, b: byte)
    requires |pair| == 2 && 16 * HexValue(pair[0]) + HexValue(pair[1]) == b as nat
    ensures HexDecode(pair + rest) == [b] + HexDecode(rest)
  {
    HexDecodePair(pair, rest);
  }

  /** The hex rendering loses nothing: decoding gives the digest back. */
  lemma {:induction false} HexEncodeDecode(bytes: seq<byte>)
    ensures HexDecode(HexEncode(bytes)) == bytes
  {
    if bytes != [] {
      var rest := HexEncode(bytes[1..]);
      assert HexEncode(bytes) == ByteHex(bytes[0]) + rest;
      HexDecodeByte(bytes[0], rest);
      HexEncodeDecode(bytes[1..]);
      assert [bytes[0]] + bytes[1..] == bytes;
    }
  }

  // ---------------------------------------------------------------- hash_fingerprint

  /** What `window.crypto.subtle` offers: nothing, or a digest that may throw (`None`) on the
      UTF-8 encoding of the given text. */
  datatype Crypto = NoSubtle | Subtle(digest: string -> Option<Digest>)

  /** `hash_fingerprint` on the already-serialised fingerprint: the SHA-256 digest in hex when
      the Web Crypto API is there and succeeds, `simple_hash` otherwise. Either way a session id
      is 64 lower-case hex digits. */
  function HashFingerprintOf(text: string, crypto: Crypto): (id: string)
    ensures |id| == 64 && IsLowerHex(id)
  {
    SimpleHashShape(text);
    match crypto
    case Subtle(digest) =>
      (match digest(text)
       case Some(d) => HexEncode(d)
       case None => SimpleHashOf(text))
    case NoSubtle => SimpleHashOf(text)
  }

  /** `hash_fingerprint`, with the fallback through the `simple_hash` loop. */
  method HashFingerprint(text: string, crypto: Crypto) returns (id: string)
    ensures id == HashFingerprintOf(text, crypto)
  {
    if crypto.Subtle? {
      var d := crypto.digest(text);
      if d.Some? {
        return HexEncode(d.value);
      }
    }
    id := SimpleHash(text);
  }
}
