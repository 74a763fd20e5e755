/** Hexadecimal strings, as the `hex` crate writes and reads them. */
module Hex {
  import opened Results
  import opened Hashes
  import opened Octets

  function Nibble(n: nat): char
    requires n < 16
  {
    if n < 10 then '0' + n as char else 'a' + (n - 10) as char
  }

  /** The value of a digit of either case. */
  function NibbleValue(c: char): Option<nat> {
    if '0' <= c <= '9' then Some((c - '0') as nat)
    else if 'a' <= c <= 'f' then Some((c - 'a') as nat + 10)
    else if 'A' <= c <= 'F' then Some((c - 'A') as nat + 10)
    else None
  }

  function EncodeHex(b: Bytes): string {
    if |b| == 0 then ""
    else EncodeHex(b[..|b| - 1]) + [Nibble(b[|b| - 1] as nat / 16), Nibble(b[|b| - 1] as nat % 16)]
  }

  function DecodeHex(s: string): Option<Bytes> {
    if |s| == 0 then Some([])
    else if |s| == 1 then None
    else
      match DecodeHex(s[..|s| - 2])
      case None => None
      case Some(b) =>
        match (NibbleValue(s[|s| - 2]), NibbleValue(s[|s| - 1]))
        case (Some(h), Some(l)) => if h < 16 && l < 16 then Some(b + [FromNibbles(h, l)]) else None
        case _ => None
  }

  /** `decode_to_slice` into 32 bytes. */
  function DecodeField(s: string): Option<Digest> {
    match DecodeHex(s)
    case None => None
    case Some(b) => if |b| == SECURITY then Some(b) else None
  }

  lemma NibbleRoundTrip(n: nat)
    requires n < 16
    ensures NibbleValue(Nibble(n)) == Some(n)
  {}

  lemma {:induction false} HexRoundTrip(b: Bytes)
    ensures DecodeHex(EncodeHex(b)) == Some(b)
  {
    if |b| > 0 {
      var n := |b| - 1;
      HexRoundTrip(b[..n]);
      LastByte(EncodeHex(b[..n]), b[..n], b[n]);
      assert b == b[..n] + [b[n]];
    }
  }

  lemma LastByte(s: string, b: Bytes, v: bv8)
    requires DecodeHex(s) == Some(b)
    ensures v as nat < 256
    ensures DecodeHex(s + [Nibble(v as nat / 16), Nibble(v as nat % 16)]) == Some(b + [v])
  {
    hide Nibble, NibbleValue, FromNibbles;
    NibblesOf(v);
    var h, l := v as nat / 16, v as nat % 16;
    var t := s + [Nibble(h), Nibble(l)];
    NibbleRoundTrip(h);
    NibbleRoundTrip(l);
    assert t[..|t| - 2] == s && t[|t| - 2] == Nibble(h) && t[|t| - 1] == Nibble(l);
  }

  lemma FieldRoundTrip(d: Digest)
    ensures DecodeField(EncodeHex(d)) == Some(d)
  {
    HexRoundTrip(d);
  }
}
