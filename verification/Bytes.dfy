/** Octets, fixed-width byte strings and their lower-case hexadecimal spelling. */
module Bytes {
  import opened Wrappers

  newtype byte = x: int | 0 <= x < 256

  type Digest = b: seq<byte> | |b| == 32 witness seq(32, _ => 0)

  type Fingerprint = b: seq<byte> | |b| == 8 witness seq(8, _ => 0)

  type Signature = b: seq<byte> | |b| == 64 witness seq(64, _ => 0)

  const DIGITS: string := "0123456789abcdef"

  function ToHex(bytes: seq<byte>): (text: string)
    ensures |text| == 2 * |bytes|
  {
    if bytes == [] then ""
    else [DIGITS[bytes[0] as int / 16], DIGITS[bytes[0] as int % 16]] + ToHex(bytes[1..])
  }

  function DecodeNibble(c: char): Option<int> {
    if '0' <= c <= '9' then Some(c as int - '0' as int)
    else if 'a' <= c <= 'f' then Some(c as int - 'a' as int + 10)
    else None
  }

  function DecodeHex(text: string): Option<seq<byte>> {
    if text == "" then Some([])
    else if |text| == 1 then None
    else
      match (DecodeNibble(text[0]), DecodeNibble(text[1]), DecodeHex(text[2..]))
      case (Some(high), Some(low), Some(rest)) => Some([(high * 16 + low) as byte] + rest)
      case _ => None
  }

  /** Decodes a text of exactly the given width; upper-case digits are refused. */
  function FromHex(text: string, width: nat): (r: Option<seq<byte>>)
    ensures r.Some? ==> |r.value| == width
  {
    if |text| != 2 * width then None
    else
      DecodeHexLength(text);
      DecodeHex(text)
  }

  lemma DecodeHexLength(text: string)
    ensures DecodeHex(text).Some? ==> 2 * |DecodeHex(text).value| == |text|
  {
    if |text| >= 2 {
      DecodeHexLength(text[2..]);
    }
  }

  lemma NibbleRoundTrip(n: int)
    requires 0 <= n < 16
    ensures DecodeNibble(DIGITS[n]) == Some(n)
  {
  }

  lemma {:induction false} HexRoundTrip(bytes: seq<byte>)
    ensures FromHex(ToHex(bytes), |bytes|) == Some(bytes)
  {
    DecodeHexRoundTrip(bytes);
  }

  lemma {:induction false} DecodeHexRoundTrip(bytes: seq<byte>)
    ensures DecodeHex(ToHex(bytes)) == Some(bytes)
  {
    if bytes != [] {
      var n := bytes[0] as int;
      NibbleRoundTrip(n / 16);
      NibbleRoundTrip(n % 16);
      DecodeHexRoundTrip(bytes[1..]);
      var text := ToHex(bytes);
      assert text[2..] == ToHex(bytes[1..]);
      assert text[0] == DIGITS[n / 16] && text[1] == DIGITS[n % 16];
      assert [(n / 16 * 16 + n % 16) as byte] + bytes[1..] == bytes;
    }
  }

  /** Distinct byte strings are spelled differently. */
  lemma HexInjective(a: seq<byte>, b: seq<byte>)
    requires ToHex(a) == ToHex(b)
    ensures a == b
  {
    DecodeHexRoundTrip(a);
    DecodeHexRoundTrip(b);
  }
}
