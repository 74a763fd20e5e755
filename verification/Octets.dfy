/** Bytes as numbers. */
module Octets {
  lemma ByteValue(m: nat)
    requires m < 256
    ensures (m as bv8) as nat == m
  {}

  lemma ValueByte(b: bv8)
    ensures b as nat < 256 && (b as nat) as bv8 == b
  {}

  function FromNibbles(h: nat, l: nat): bv8
    requires h < 16 && l < 16
  {
    (16 * h + l) as bv8
  }

  lemma NibblesOf(b: bv8)
    ensures b as nat < 256 && FromNibbles(b as nat / 16, b as nat % 16) == b
  {
    ValueByte(b);
    assert 16 * (b as nat / 16) + b as nat % 16 == b as nat;
  }
}
