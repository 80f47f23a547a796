/** Flag bits of an octet: setting one, testing one. */
module Flags {
  import opened Bits

  /** `flags |= 1 << j`, when the flag is on: bit j is set and no other changes. */
  function AddFlag(flags: byte, on: bool, j: nat): (r: byte)
    requires j < 8
    ensures forall k: nat :: Bit(r, k) <==> Bit(flags, k) || (on && k == j)
  {
    SetFlag(flags, j);
    if on then Or(flags, Pow2(j)) else flags
  }

  /** `bool(flags & (1 << k))` */
  predicate HasFlag(flags: nat, k: nat)
    ensures HasFlag(flags, k) <==> Bit(flags, k)
  {
    AndBit(flags, k);
    And(flags, Pow2(k)) != 0
  }

  lemma SetFlag(flags: nat, j: nat)
    requires flags < 256 && j < 8
    ensures Or(flags, Pow2(j)) < 256
    ensures forall k: nat :: Bit(Or(flags, Pow2(j)), k) <==> Bit(flags, k) || k == j
  {
    Pow2Small();
    Pow2Monotone(j, 7);
    OrBound(flags, Pow2(j), 8);
    forall k: nat
      ensures Bit(Or(flags, Pow2(j)), k) <==> Bit(flags, k) || k == j
    {
      BitOr(flags, Pow2(j), k);
      BitPow2(j, k);
    }
  }

  lemma BitsOfOne()
    ensures forall k: nat :: Bit(1, k) <==> k == 0
    ensures forall k: nat :: !Bit(0, k)
  {
    forall k: nat
      ensures Bit(1, k) <==> k == 0
      ensures !Bit(0, k)
    {
      BitPow2(0, k);
      BitZero(k);
    }
  }
}
