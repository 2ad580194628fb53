/** The 16-bit shift register behind CRC-16 with polynomial 0x1021, as a linear machine. */
module Register16 {
  type Crc = bv16

  const POLYNOMIAL: Crc := 0x1021

  predicate TopBit(c: Crc) { c & 0x8000 != 0 }

  function Shift(c: Crc): Crc { c << 1 }

  function Xor(c: Crc, d: Crc): Crc { c ^ d }

  /** One turn of the inner loop: shift left, and subtract the polynomial when a bit falls out. */
  function BitStep(c: Crc): Crc {
    if TopBit(c) then Xor(Shift(c), POLYNOMIAL) else Shift(c)
  }

  lemma ShiftLinear(c: Crc, d: Crc)
    ensures Shift(Xor(c, d)) == Xor(Shift(c), Shift(d))
  {
  }

  lemma TopBitLinear(c: Crc, d: Crc)
    ensures TopBit(Xor(c, d)) <==> TopBit(c) != TopBit(d)
  {
  }

  lemma XorAssoc(c: Crc, d: Crc, e: Crc)
    ensures Xor(Xor(c, d), e) == Xor(c, Xor(d, e))
  {
  }

  lemma XorComm(c: Crc, d: Crc)
    ensures Xor(c, d) == Xor(d, c)
  {
  }

  lemma XorSelf(c: Crc)
    ensures Xor(c, c) == 0 && Xor(c, 0) == c && Xor(0, c) == c
  {
  }

  lemma XorCommonLeft(c: Crc, d: Crc, e: Crc)
    ensures Xor(Xor(c, d), Xor(c, e)) == Xor(d, e)
  {
    hide *;
    XorComm(c, d);
    XorAssoc(d, c, Xor(c, e));
    XorAssoc(c, c, e);
    XorSelf(c);
    XorSelf(e);
  }

  lemma XorCommonRight(c: Crc, d: Crc, e: Crc)
    ensures Xor(Xor(c, e), Xor(d, e)) == Xor(c, d)
  {
    hide *;
    XorComm(c, e);
    XorComm(d, e);
    XorCommonLeft(e, c, d);
  }

  lemma BitStepLinear(c: Crc, d: Crc)
    ensures BitStep(Xor(c, d)) == Xor(BitStep(c), BitStep(d))
  {
    hide Xor, Shift, TopBit;
    ShiftLinear(c, d);
    TopBitLinear(c, d);
    var s, t := Shift(c), Shift(d);
    XorCommonRight(s, t, POLYNOMIAL);
    XorAssoc(s, t, POLYNOMIAL);
    XorComm(s, POLYNOMIAL);
    XorComm(t, POLYNOMIAL);
    XorComm(Xor(s, t), POLYNOMIAL);
    XorAssoc(POLYNOMIAL, s, t);
  }

  lemma BitStepKernel(c: Crc)
    requires BitStep(c) == 0
    ensures c == 0
  {
  }

  lemma XorZero(c: Crc, d: Crc)
    ensures Xor(c, d) == 0 <==> c == d
  {
    hide *;
    XorAssoc(c, d, d);
    XorSelf(c);
    XorSelf(d);
  }
}
