/** Octets as machine words and as numbers. */
module Octets {
  type Byte = bv8

  lemma OctetRoundTrip(v: nat)
    requires v < 0x100
    ensures (v as Byte) as nat == v
  {
    var b := v as Byte;
    var n := b as nat;
    assert n as Byte == b;
  }
}
