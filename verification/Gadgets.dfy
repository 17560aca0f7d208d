/** The constraint gadgets the circuits are assembled from, as equations in the field, and what
    each forces on the integers when its inputs are in range. */
module Gadgets {
  import opened Words
  import opened Mersenne31

  /** The masked sign bit of a 16-bit limb: `out` is the limb with its top bit flipped. */
  predicate SignBit(x: int, mask: int, sign: int, out: int) {
    IsBit(sign) && 0 <= out < B16
    && Vanishes(x - 0x8000 * mask - B16 * (1 - mask) - (out - B16 * (1 - sign)))
  }

  predicate Xor(a: int, b: int, out: int) { Vanishes(a + b - 2 * (a * b) - out) }

  predicate And(a: int, b: int, out: int) { Vanishes(a * b - out) }

  predicate AndNot(a: int, b: int, out: int) { Vanishes(a * (1 - b) - out) }

  predicate Nor(a: int, b: int, out: int) { Vanishes((1 - a) * (1 - b) - out) }

  predicate Choose(flag: int, a: int, b: int, out: int) { Vanishes((a - b) * flag + b - out) }

  /** The zero test of a register, with the inverse of its limb sum as a hint. */
  predicate IsZero(low: int, high: int, flag: int, inv: int) {
    Vanishes(inv * (low + high) - (1 - flag)) && Vanishes(flag * (low + high))
  }

  /** Either a + b or a - b on two limbs, with a middle carry and an overflow. */
  predicate AddSub(isAdd: int, aLow: int, aHigh: int, bLow: int, bHigh: int,
                   cLow: int, cHigh: int, carry: int, overflow: int)
  {
    && IsBit(carry) && IsBit(overflow) && 0 <= cLow < B16 && 0 <= cHigh < B16
    && Vanishes(isAdd * aLow + (1 - isAdd) * cLow + bLow
                - (isAdd * cLow + (1 - isAdd) * aLow + B16 * carry))
    && Vanishes(isAdd * aHigh + (1 - isAdd) * cHigh + bHigh + carry
                - (isAdd * cHigh + (1 - isAdd) * aHigh + B16 * overflow))
  }

  // ---------------------------------------------------------------------------------------
  // What the gadgets mean

  lemma SignBitMeans(x: u16, mask: int, sign: int, out: int)
    requires IsBit(mask)
    ensures SignBit(x, mask, sign, out) <==>
      sign == Bit(mask == 1 && x >= 0x8000) && out == Wrap16(x - 0x8000 * mask)
  {
    if SignBit(x, mask, sign, out) {
      VanishesExactly(x - 0x8000 * mask - B16 * (1 - mask) - (out - B16 * (1 - sign)));
    }
  }

  lemma BooleanGadgetsMean(a: int, b: int, out: Felt)
    requires IsBit(a) && IsBit(b)
    ensures Xor(a, b, out) <==> out == Bit(a != b)
    ensures And(a, b, out) <==> out == Bit(a == 1 && b == 1)
    ensures AndNot(a, b, out) <==> out == Bit(a == 1 && b == 0)
    ensures Nor(a, b, out) <==> out == Bit(a == 0 && b == 0)
  {
    assert a * b == Bit(a == 1 && b == 1);
    assert a * (1 - b) == Bit(a == 1 && b == 0);
    assert (1 - a) * (1 - b) == Bit(a == 0 && b == 0);
  }

  lemma ChooseMeans(flag: int, a: Felt, b: Felt, out: Felt)
    requires IsBit(flag)
    ensures Choose(flag, a, b, out) <==> out == if flag == 1 then a else b
  {
    assert (a - b) * flag == if flag == 1 then a - b else 0;
  }

  /** The zero test is exact: this is where the modulus has to be prime. */
  lemma IsZeroMeans(low: u16, high: u16, flag: Felt, inv: Felt)
    requires IsZero(low, high, flag, inv)
    ensures flag == Bit(Word(low, high) == 0)
  {
    if low + high == 0 {
      assert inv * (low + high) == 0;
    } else {
      NoZeroDivisors(flag, low + high);
    }
  }

  /** And the hint the witness generator writes always satisfies it. */
  lemma IsZeroHolds(low: u16, high: u16)
    ensures IsZero(low, high, Bit(low + high == 0), InverseOrZero(Reduce(low + high)))
  {
    var s: int := Reduce(low + high);
    var inv: int := InverseOrZero(s);
    assert s == low + high;
    if s != 0 {
      SwapFactors(inv, s);
      PredecessorVanishes(inv * s);
    }
  }

  lemma SwapFactors(x: int, y: int)
    ensures x * y == y * x
  {
  }

  lemma PredecessorVanishes(x: int)
    requires x % P == 1
    ensures Vanishes(x - 1)
  {
  }

  lemma AddSubMeans(isAdd: int, aLow: u16, aHigh: u16, bLow: u16, bHigh: u16,
                    cLow: int, cHigh: int, carry: int, overflow: int)
    requires IsBit(isAdd)
    requires AddSub(isAdd, aLow, aHigh, bLow, bHigh, cLow, cHigh, carry, overflow)
    ensures 0 <= cLow < B16 && 0 <= cHigh < B16 && IsBit(overflow)
    ensures isAdd == 1 ==> Word(aLow, aHigh) + Word(bLow, bHigh) == Word(cLow, cHigh) + B32 * overflow
    ensures isAdd == 0 ==> Word(aLow, aHigh) - Word(bLow, bHigh) == Word(cLow, cHigh) - B32 * overflow
  {
    if isAdd == 1 {
      VanishesExactly(aLow + bLow - (cLow + B16 * carry));
      VanishesExactly(aHigh + bHigh + carry - (cHigh + B16 * overflow));
    } else {
      VanishesExactly(cLow + bLow - (aLow + B16 * carry));
      VanishesExactly(cHigh + bHigh + carry - (aHigh + B16 * overflow));
    }
  }

  lemma AddSubHolds(isAdd: int, aLow: u16, aHigh: u16, bLow: u16, bHigh: u16,
                    cLow: u16, cHigh: u16, carry: int, overflow: int)
    requires IsBit(isAdd) && IsBit(carry) && IsBit(overflow)
    requires isAdd == 1 ==> aLow + bLow == cLow + B16 * carry && aHigh + bHigh + carry == cHigh + B16 * overflow
    requires isAdd == 0 ==> aLow - bLow == cLow - B16 * carry && aHigh - bHigh - carry == cHigh - B16 * overflow
    ensures AddSub(isAdd, aLow, aHigh, bLow, bHigh, cLow, cHigh, carry, overflow)
  {
  }

  // ---------------------------------------------------------------------------------------
  // The field expressions the witness generators evaluate for these gadgets

  lemma ProductOfBits(a: int, b: int)
    requires IsBit(a) && IsBit(b)
    ensures Mul(a, b) == Bit(a == 1 && b == 1)
  {
    assert a * b == Bit(a == 1 && b == 1);
  }

  lemma NorOfBits(both: int, a: int, b: int)
    requires IsBit(a) && IsBit(b) && both == Bit(a == 1 && b == 1)
    ensures Sub(Sub(Add(1, both), a), b) == Bit(a == 0 && b == 0)
  {
    if a == 0 {
      assert b == 0 || b == 1;
    } else {
      assert a == 1 && both == b;
    }
  }

  method ComputeXor(a: Felt, b: Felt) returns (out: Felt)
    requires IsBit(a) && IsBit(b)
    ensures out == Bit(a != b)
  {
    out := Add(Add(Mul(Mul(a, P - 2), b), a), b);
  }

  method ComputeAnd(a: Felt, b: Felt) returns (out: Felt)
    requires IsBit(a) && IsBit(b)
    ensures out == Bit(a == 1 && b == 1)
  {
    out := Add(0, Mul(a, b));
  }

  method ComputeAndNot(a: Felt, b: Felt) returns (out: Felt)
    requires IsBit(a) && IsBit(b)
    ensures out == Bit(a == 1 && b == 0)
  {
    out := Add(Sub(0, Mul(a, b)), a);
  }

  method ComputeNor(a: Felt, b: Felt) returns (out: Felt)
    requires IsBit(a) && IsBit(b)
    ensures out == Bit(a == 0 && b == 0)
  {
    ProductOfBits(a, b);
    var both := Mul(a, b);
    NorOfBits(both, a, b);
    out := Sub(Sub(Add(1, both), a), b);
  }

  /** Sign extension: all ones or zero. */
  method ComputeExtension(sign: Felt) returns (out: Felt)
    requires IsBit(sign)
    ensures out == 0xffff * sign
  {
    out := Add(0, Mul(0xffff, sign));
  }
}
