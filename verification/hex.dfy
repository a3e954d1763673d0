/**
 * Bytes and their lower-case hexadecimal rendering (`toHex` in index.js):
 * each byte becomes `x.toString(16).padStart(2, '0')`.
 */
module Hex {

  type byte = x: int | 0 <= x < 256

  const HexDigits: string := "0123456789abcdef"

  predicate IsLowerHex(c: char) {
    ('0' <= c <= '9') || ('a' <= c <= 'f')
  }

  function DigitChar(d: int): (c: char)
    requires 0 <= d < 16
    ensures IsLowerHex(c)
  {
    HexDigits[d]
  }

  /** The value of one lower-case hexadecimal digit. */
  function DigitValue(c: char): (d: int)
    requires IsLowerHex(c)
    ensures 0 <= d < 16
  {
    if c <= '9' then c as int - '0' as int else c as int - 'a' as int + 10
  }

  function ToHex(bytes: seq<byte>): (h: string)
    ensures |h| == 2 * |bytes|
    ensures forall k :: 0 <= k < |h| ==> IsLowerHex(h[k])
  {
    if |bytes| == 0 then ""
    else [DigitChar(bytes[0] / 16), DigitChar(bytes[0] % 16)] + ToHex(bytes[1..])
  }

  /** Reads back a string of lower-case hex digit pairs. */
  function FromHex(h: string): (bytes: seq<byte>)
    requires |h| % 2 == 0
    requires forall k :: 0 <= k < |h| ==> IsLowerHex(h[k])
    ensures |bytes| == |h| / 2
  {
    if |h| == 0 then []
    else [DigitValue(h[0]) * 16 + DigitValue(h[1])] + FromHex(h[2..])
  }

  lemma DigitRoundTrip(d: int)
    requires 0 <= d < 16
    ensures DigitValue(DigitChar(d)) == d
  {
  }

  /** Two hex digits per byte, high nibble first: the rendering can be read back. */
  lemma {:induction false} HexRoundTrip(bytes: seq<byte>)
    ensures FromHex(ToHex(bytes)) == bytes
  {
    if |bytes| > 0 {
      var b := bytes[0];
      DigitRoundTrip(b / 16);
      DigitRoundTrip(b % 16);
      var h := ToHex(bytes);
      assert h[2..] == ToHex(bytes[1..]);
      HexRoundTrip(bytes[1..]);
      assert bytes == [b] + bytes[1..];
    }
  }

  /** Distinct byte strings render differently. */
  lemma HexInjective(a: seq<byte>, b: seq<byte>)
    requires ToHex(a) == ToHex(b)
    ensures a == b
  {
    HexRoundTrip(a);
    HexRoundTrip(b);
  }
}
