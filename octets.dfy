/** Facts about converting between `bv8` and the numbers 0..255. */
module Octets {

  lemma ByteAsNat(x: nat)
    requires x < 256
    ensures (x as bv8) as nat == x
  {
  }

  lemma NatAsByte(b: bv8)
    ensures (b as nat) as bv8 == b
  {
  }
}
