/** Sets of up to 64 indices packed into one word. */
module Bits {
  const WORD_BITS: nat := 64

  /** The shift amount for bit `i`. */
  function Amount(i: nat): bv6
    requires i < WORD_BITS
  {
    i as bv6
  }

  predicate Bit(w: bv64, i: nat)
    requires i < WORD_BITS
  {
    (w >> Amount(i)) & 1 == 1
  }

  function SetBit(w: bv64, i: nat): bv64
    requires i < WORD_BITS
  {
    w | (1 << Amount(i))
  }

  lemma AmountBack(i: nat)
    requires i < WORD_BITS
    ensures Amount(i) as int == i
  {
  }

  lemma AmountInjective(i: nat, j: nat)
    requires i < WORD_BITS && j < WORD_BITS && Amount(i) == Amount(j)
    ensures i == j
  {
    AmountBack(i);
    AmountBack(j);
  }

  lemma ShiftedBit(w: bv64, i: bv6, j: bv6)
    ensures ((w | (1 << i)) >> j) & 1 == 1 <==> (i == j || (w >> j) & 1 == 1)
  {
  }

  /** Setting one bit changes that bit and no other. */
  lemma BitOfSetBit(w: bv64, i: nat, j: nat)
    requires i < WORD_BITS && j < WORD_BITS
    ensures Bit(SetBit(w, i), j) <==> i == j || Bit(w, j)
  {
    if Amount(i) == Amount(j) {
      AmountInjective(i, j);
    }
    ShiftedBit(w, Amount(i), Amount(j));
  }

  lemma NoBitInZero(i: nat)
    requires i < WORD_BITS
    ensures !Bit(0, i)
  {
  }
}
