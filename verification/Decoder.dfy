/** The instruction decoder of the full machine.  An instruction is cut into eight pieces; bits 7
    and 20 have no place of their own and appear as linear forms that divide by 2^7 and 2^4 in the
    field.  The immediate is assembled from the pieces by one polynomial per half. */
module Decoder {
  import opened Words
  import opened Mersenne31
  import N = NumberTheory

  datatype Format = R | I | S | B | U | J

  // ---------------------------------------------------------------------------------------
  // Immediates (section 2.3 of the RISC-V Unprivileged ISA, version 20191213)

  function Power(k: nat): (p: nat)
    ensures p > 0
  {
    if k == 0 then 1 else 2 * Power(k - 1)
  }

  /** Bits hi to lo of an instruction, as a number. */
  function Slice(x: u32, hi: nat, lo: nat): nat
    requires lo <= hi
  {
    x / Power(lo) % Power(hi - lo + 1)
  }

  /** The sign-extended immediate: bit 31 of the instruction is the sign in every format. */
  function Immediate(f: Format, x: u32): int
    requires !f.R?
  {
    var sign := Slice(x, 31, 31);
    match f
    case I => Slice(x, 30, 20) - 0x800 * sign
    case S => 0x20 * Slice(x, 30, 25) + Slice(x, 11, 7) - 0x800 * sign
    case B => 0x800 * Slice(x, 7, 7) + 0x20 * Slice(x, 30, 25) + 2 * Slice(x, 11, 8) - 0x1000 * sign
    case U => 0x1000 * Slice(x, 30, 12) - 0x8000_0000 * sign
    case J => 0x1000 * Slice(x, 19, 12) + 0x800 * Slice(x, 20, 20) + 2 * Slice(x, 30, 21) - 0x10_0000 * sign
  }

  // ---------------------------------------------------------------------------------------
  // The pieces

  datatype Pieces = Pieces(opcode: int, imm4To1: int, funct3: int, rs1Low: int,
                           rs1High: int, rs2High: int, imm10To5: int, sign: int)
  {
    predicate InRange() {
      && 0 <= opcode < 0x80 && 0 <= imm4To1 < 0x10 && 0 <= funct3 < 8 && IsBit(rs1Low)
      && 0 <= rs1High < 0x10 && 0 <= rs2High < 0x10 && 0 <= imm10To5 < 0x40 && IsBit(sign)
    }
  }

  /** What the generator cuts out of the two halves. */
  function PiecesOf(low: u16, high: u16): Pieces {
    Pieces(low % 0x80, low / 0x100 % 0x10, low / 0x1000 % 8, low / 0x8000 % 2,
           high % 0x10, high / 0x20 % 0x10, high / 0x200 % 0x40, high / 0x8000 % 2)
  }

  // Inverses of 2^7 and 2^4.
  const INVERSE_7 := 0x100_0000
  const INVERSE_4 := 0x800_0000

  /** Bits 7 and 20: what is left of a half, divided by the weight of the bit. */
  function Bit7(low: int, p: Pieces): int {
    INVERSE_7 * (low - p.opcode - 0x100 * p.imm4To1 - 0x1000 * p.funct3 - 0x8000 * p.rs1Low)
  }

  function Bit20(high: int, p: Pieces): int {
    INVERSE_4 * (high - p.rs1High - 0x20 * p.rs2High - 0x200 * p.imm10To5 - 0x8000 * p.sign)
  }

  /** The range checks, and the two quadratic constraints on the bits without a place. */
  predicate Decomposes(low: u16, high: u16, p: Pieces) {
    && p.InRange()
    && Vanishes(Bit7(low, p) * (Bit7(low, p) - 1))
    && Vanishes(Bit20(high, p) * (Bit20(high, p) - 1))
  }

  lemma RootsOfBit(b: int)
    requires Vanishes(b * (b - 1))
    ensures Vanishes(b) || Vanishes(b - 1)
  {
    NoZeroDivisors(b, b - 1);
  }

  /** Over a small numerator the field division is exact: d / 2^k is a bit only if d is 0 or 2^k. */
  lemma BitByInverse(d: int, weight: int, inverse: int)
    requires (weight == 0x80 && inverse == INVERSE_7) || (weight == 0x10 && inverse == INVERSE_4)
    requires -0x2_0000 < d < 0x2_0000
    ensures Vanishes(inverse * d * (inverse * d - 1)) ==> d == 0 || d == weight
    ensures d == 0 || d == weight ==> Vanishes(inverse * d - d / weight)
  {
    if Vanishes(inverse * d * (inverse * d - 1)) {
      RootsOfBit(inverse * d);
      if Vanishes(inverse * d) {
        Multiple(d, weight, inverse, 0);
      } else {
        Multiple(d, weight, inverse, 1);
      }
    }
  }

  /** weight * inverse is one more than the modulus. */
  lemma Multiple(d: int, weight: int, inverse: int, b: int)
    requires (weight == 0x80 && inverse == INVERSE_7) || (weight == 0x10 && inverse == INVERSE_4)
    requires -0x2_0000 < d < 0x2_0000 && IsBit(b) && Vanishes(inverse * d - b)
    ensures d == weight * b
  {
    var k := (inverse * d - b) / P;
    assert inverse * d == b + P * k;
    assert weight * (inverse * d) == d + P * d;
    assert d - weight * b == P * (weight * k - d);
  }

  lemma BitsVanish(x: int, b: int)
    requires Vanishes(x - b) && IsBit(b)
    ensures Vanishes(x * (x - 1))
  {
    var k := (x - b) / P;
    assert x == b + P * k;
    if b == 0 {
      assert x * (x - 1) == P * (k * (x - 1));
    } else {
      assert x * (x - 1) == P * (x * k);
    }
    MultipleVanishes(if b == 0 then k * (x - 1) else x * k);
  }

  lemma MultipleVanishes(k: int)
    ensures Vanishes(P * k)
  {
  }

  /** The only pieces the constraints accept are the bit fields of the instruction. */
  lemma DecompositionIsUnique(low: u16, high: u16, p: Pieces)
    ensures Decomposes(low, high, p) <==> p == PiecesOf(low, high)
  {
    if Decomposes(low, high, p) {
      BitByInverse(low - p.opcode - 0x100 * p.imm4To1 - 0x1000 * p.funct3 - 0x8000 * p.rs1Low, 0x80, INVERSE_7);
      BitByInverse(high - p.rs1High - 0x20 * p.rs2High - 0x200 * p.imm10To5 - 0x8000 * p.sign, 0x10, INVERSE_4);
      LowHalf(low, p, (low - p.opcode - 0x100 * p.imm4To1 - 0x1000 * p.funct3 - 0x8000 * p.rs1Low) / 0x80);
      HighHalf(high, p, (high - p.rs1High - 0x20 * p.rs2High - 0x200 * p.imm10To5 - 0x8000 * p.sign) / 0x10);
    }
    if p == PiecesOf(low, high) {
      MissingBits(low, high, p);
      BitsVanish(Bit7(low, p), low / 0x80 % 2);
      BitsVanish(Bit20(high, p), high / 0x10 % 2);
    }
  }

  /** A number in mixed radix has the digits it was built from ... */
  lemma Digit(x: int, below: int, digit: int, above: int, weight: int, radix: int)
    requires weight > 0 && radix > 0 && 0 <= below < weight && 0 <= digit < radix
    requires x == below + weight * (digit + radix * above)
    ensures x / weight % radix == digit
  {
    N.DivModUnique(x, weight, digit + radix * above, below);
    N.DivModUnique(digit + radix * above, radix, above, digit);
  }

  /** ... and is built from its digits. */
  lemma Peel(x: int, weight: int, radix: int, next: int)
    requires weight > 0 && radix > 0 && next == weight * radix
    ensures x / weight == x / weight % radix + radix * (x / next)
  {
    var q := x / weight;
    var r, s := x % weight, q % radix;
    assert x == weight * q + r && q == radix * (q / radix) + s;
    assert weight * q == weight * (radix * (q / radix)) + weight * s;
    assert weight * (radix * (q / radix)) == next * (q / radix);
    assert weight * s <= weight * (radix - 1);
    N.DivModUnique(x, next, q / radix, weight * s + r);
  }

  lemma LowHalf(low: u16, p: Pieces, b: int)
    requires p.InRange() && IsBit(b)
    requires low == p.opcode + 0x80 * b + 0x100 * p.imm4To1 + 0x1000 * p.funct3 + 0x8000 * p.rs1Low
    ensures low % 0x80 == p.opcode && low / 0x80 % 2 == b && low / 0x100 % 0x10 == p.imm4To1
    ensures low / 0x1000 % 8 == p.funct3 && low / 0x8000 % 2 == p.rs1Low
  {
    Digit(low, 0, p.opcode, b + 2 * p.imm4To1 + 0x20 * p.funct3 + 0x100 * p.rs1Low, 1, 0x80);
    Digit(low, p.opcode, b, p.imm4To1 + 0x10 * p.funct3 + 0x80 * p.rs1Low, 0x80, 2);
    Digit(low, p.opcode + 0x80 * b, p.imm4To1, p.funct3 + 8 * p.rs1Low, 0x100, 0x10);
    Digit(low, p.opcode + 0x80 * b + 0x100 * p.imm4To1, p.funct3, p.rs1Low, 0x1000, 8);
    Digit(low, p.opcode + 0x80 * b + 0x100 * p.imm4To1 + 0x1000 * p.funct3, p.rs1Low, 0, 0x8000, 2);
  }

  lemma HighHalf(high: u16, p: Pieces, b: int)
    requires p.InRange() && IsBit(b)
    requires high == p.rs1High + 0x10 * b + 0x20 * p.rs2High + 0x200 * p.imm10To5 + 0x8000 * p.sign
    ensures high % 0x10 == p.rs1High && high / 0x10 % 2 == b && high / 0x20 % 0x10 == p.rs2High
    ensures high / 0x200 % 0x40 == p.imm10To5 && high / 0x8000 % 2 == p.sign
  {
    Digit(high, 0, p.rs1High, b + 2 * p.rs2High + 0x20 * p.imm10To5 + 0x800 * p.sign, 1, 0x10);
    Digit(high, p.rs1High, b, p.rs2High + 0x10 * p.imm10To5 + 0x400 * p.sign, 0x10, 2);
    Digit(high, p.rs1High + 0x10 * b, p.rs2High, p.imm10To5 + 0x40 * p.sign, 0x20, 0x10);
    Digit(high, p.rs1High + 0x10 * b + 0x20 * p.rs2High, p.imm10To5, p.sign, 0x200, 0x40);
    Digit(high, p.rs1High + 0x10 * b + 0x20 * p.rs2High + 0x200 * p.imm10To5, p.sign, 0, 0x8000, 2);
  }

  /** With the pieces of the instruction, the two linear forms are its bits 7 and 20. */
  lemma MissingBits(low: u16, high: u16, p: Pieces)
    requires p == PiecesOf(low, high)
    ensures p.InRange()
    ensures low == p.opcode + 0x80 * (low / 0x80 % 2) + 0x100 * p.imm4To1 + 0x1000 * p.funct3 + 0x8000 * p.rs1Low
    ensures high == p.rs1High + 0x10 * (high / 0x10 % 2) + 0x20 * p.rs2High + 0x200 * p.imm10To5 + 0x8000 * p.sign
    ensures Vanishes(Bit7(low, p) - low / 0x80 % 2) && Vanishes(Bit20(high, p) - high / 0x10 % 2)
  {
    Halves(low, high);
    BitByInverse(0x80 * (low / 0x80 % 2), 0x80, INVERSE_7);
    BitByInverse(0x10 * (high / 0x10 % 2), 0x10, INVERSE_4);
  }

  lemma Halves(low: u16, high: u16)
    ensures low == low % 0x80 + 0x80 * (low / 0x80 % 2) + 0x100 * (low / 0x100 % 0x10)
                 + 0x1000 * (low / 0x1000 % 8) + 0x8000 * (low / 0x8000 % 2)
    ensures high == high % 0x10 + 0x10 * (high / 0x10 % 2) + 0x20 * (high / 0x20 % 0x10)
                  + 0x200 * (high / 0x200 % 0x40) + 0x8000 * (high / 0x8000 % 2)
  {
    Peel(low, 0x80, 2, 0x100);
    Peel(low, 0x100, 0x10, 0x1000);
    Peel(low, 0x1000, 8, 0x8000);
    Peel(low, 0x8000, 2, 0x1_0000);
    Peel(high, 0x10, 2, 0x20);
    Peel(high, 0x20, 0x10, 0x200);
    Peel(high, 0x200, 0x40, 0x8000);
    Peel(high, 0x8000, 2, 0x1_0000);
  }

  // ---------------------------------------------------------------------------------------
  // The immediate

  /** One flag per format; the register format has none here. */
  datatype Flags = Flags(i: int, s: int, b: int, u: int, j: int)

  function FlagsOf(f: Format): Flags {
    Flags(Bit(f.I?), Bit(f.S?), Bit(f.B?), Bit(f.U?), Bit(f.J?))
  }

  /** The polynomial of the low half, chunk by chunk. */
  function LowForm(g: Flags, p: Pieces, bit7: int, bit20: int): int {
    g.i * bit20 + g.s * bit7
    + 2 * ((g.i + g.j) * p.rs2High + (g.s + g.b) * p.imm4To1)
    + 0x20 * ((1 - g.u) * p.imm10To5)
    + 0x800 * ((g.i + g.s) * p.sign + g.b * bit7 + g.j * bit20)
    + 0x1000 * ((g.i + g.s + g.b) * p.sign * 0xf + (g.u + g.j) * (8 * p.rs1Low + p.funct3))
  }

  function HighForm(g: Flags, p: Pieces, high: int): int {
    g.j * (0xfff0 * p.sign + p.rs1High) + g.u * high + (1 - g.j - g.u) * p.sign * 0xffff
  }

  predicate ImmediateConstraints(g: Flags, p: Pieces, low: u16, high: u16, immLow: Felt, immHigh: Felt) {
    && Vanishes(LowForm(g, p, Bit7(low, p), Bit20(high, p)) - immLow)
    && Vanishes(HighForm(g, p, high) - immHigh)
  }

  lemma Powers()
    ensures Power(1) == 2 && Power(4) == 0x10 && Power(5) == 0x20 && Power(6) == 0x40 && Power(7) == 0x80
    ensures Power(8) == 0x100
    ensures Power(10) == 0x400 && Power(11) == 0x800 && Power(12) == 0x1000 && Power(15) == 0x8000
    ensures Power(19) == 0x8_0000
    ensures Power(20) == 0x10_0000 && Power(21) == 0x20_0000 && Power(25) == 0x200_0000 && Power(31) == 0x8000_0000
  {
    assert Power(12) == 0x10 * Power(8);
    assert Power(20) == 0x100 * Power(12);
    assert Power(25) == 0x20 * Power(20);
    assert Power(31) == 0x40 * Power(25);
  }

  lemma SliceIs(x: u32, hi: nat, lo: nat, weight: int, radix: int, below: int, digit: int, above: int)
    requires lo <= hi && Power(lo) == weight && Power(hi - lo + 1) == radix
    requires 0 <= below < weight && 0 <= digit < radix && x == below + weight * (digit + radix * above)
    ensures Slice(x, hi, lo) == digit
  {
    Digit(x, below, digit, above, weight, radix);
  }

  /** The instruction, piece by piece. */
  ghost predicate MadeOf(x: u32, p: Pieces, b7: int, b20: int) {
    && p.InRange() && IsBit(b7) && IsBit(b20)
    && x == p.opcode + 0x80 * b7 + 0x100 * p.imm4To1 + 0x1000 * p.funct3 + 0x8000 * p.rs1Low
            + 0x1_0000 * p.rs1High + 0x10_0000 * b20 + 0x20_0000 * p.rs2High + 0x200_0000 * p.imm10To5
            + 0x8000_0000 * p.sign
  }

  lemma SignSlice(x: u32, p: Pieces, b7: int, b20: int)
    requires MadeOf(x, p, b7, b20)
    ensures Slice(x, 31, 31) == p.sign
  {
    Powers();
    SliceIs(x, 31, 31, 0x8000_0000, 2, x - 0x8000_0000 * p.sign, p.sign, 0);
  }

  lemma SlicesI(x: u32, p: Pieces, b7: int, b20: int)
    requires MadeOf(x, p, b7, b20)
    ensures Slice(x, 30, 20) == b20 + 2 * p.rs2High + 0x20 * p.imm10To5
  {
    Powers();
    var below := p.opcode + 0x80 * b7 + 0x100 * p.imm4To1 + 0x1000 * p.funct3 + 0x8000 * p.rs1Low
      + 0x1_0000 * p.rs1High;
    SliceIs(x, 30, 20, 0x10_0000, 0x800, below, b20 + 2 * p.rs2High + 0x20 * p.imm10To5, p.sign);
  }

  lemma SlicesS(x: u32, p: Pieces, b7: int, b20: int)
    requires MadeOf(x, p, b7, b20)
    ensures Slice(x, 30, 25) == p.imm10To5 && Slice(x, 11, 7) == b7 + 2 * p.imm4To1
    ensures Slice(x, 7, 7) == b7 && Slice(x, 11, 8) == p.imm4To1
  {
    Powers();
    var above := p.funct3 + 8 * p.rs1Low + 0x10 * p.rs1High + 0x100 * b20 + 0x200 * p.rs2High
      + 0x2000 * p.imm10To5 + 0x8_0000 * p.sign;
    SliceIs(x, 30, 25, 0x200_0000, 0x40, x - 0x200_0000 * p.imm10To5 - 0x8000_0000 * p.sign, p.imm10To5, p.sign);
    SliceIs(x, 11, 7, 0x80, 0x20, p.opcode, b7 + 2 * p.imm4To1, above);
    SliceIs(x, 7, 7, 0x80, 2, p.opcode, b7, p.imm4To1 + 0x10 * above);
    SliceIs(x, 11, 8, 0x100, 0x10, p.opcode + 0x80 * b7, p.imm4To1, above);
  }

  lemma SlicesU(x: u32, p: Pieces, b7: int, b20: int)
    requires MadeOf(x, p, b7, b20)
    ensures Slice(x, 30, 12)
         == p.funct3 + 8 * p.rs1Low + 0x10 * p.rs1High + 0x100 * b20 + 0x200 * p.rs2High + 0x2000 * p.imm10To5
  {
    Powers();
    SliceIs(x, 30, 12, 0x1000, 0x8_0000, p.opcode + 0x80 * b7 + 0x100 * p.imm4To1,
      p.funct3 + 8 * p.rs1Low + 0x10 * p.rs1High + 0x100 * b20 + 0x200 * p.rs2High + 0x2000 * p.imm10To5, p.sign);
  }

  lemma SlicesJ(x: u32, p: Pieces, b7: int, b20: int)
    requires MadeOf(x, p, b7, b20)
    ensures Slice(x, 19, 12) == p.funct3 + 8 * p.rs1Low + 0x10 * p.rs1High && Slice(x, 20, 20) == b20
    ensures Slice(x, 30, 21) == p.rs2High + 0x10 * p.imm10To5
  {
    Powers();
    var below := p.opcode + 0x80 * b7 + 0x100 * p.imm4To1;
    var above := p.rs2High + 0x10 * p.imm10To5 + 0x400 * p.sign;
    SliceIs(x, 19, 12, 0x1000, 0x100, below, p.funct3 + 8 * p.rs1Low + 0x10 * p.rs1High, b20 + 2 * above);
    SliceIs(x, 20, 20, 0x10_0000, 2, below + 0x1000 * (p.funct3 + 8 * p.rs1Low + 0x10 * p.rs1High), b20, above);
    SliceIs(x, 30, 21, 0x20_0000, 0x400, below + 0x1000 * (p.funct3 + 8 * p.rs1Low + 0x10 * p.rs1High)
      + 0x10_0000 * b20,
      p.rs2High + 0x10 * p.imm10To5, p.sign);
  }

  lemma FormsI(p: Pieces, high: int, b7: int, b20: int)
    ensures LowForm(FlagsOf(I), p, b7, b20) == b20 + 2 * p.rs2High + 0x20 * p.imm10To5 + 0xf800 * p.sign
    ensures HighForm(FlagsOf(I), p, high) == 0xffff * p.sign
  {
  }

  lemma FormsS(p: Pieces, high: int, b7: int, b20: int)
    ensures LowForm(FlagsOf(S), p, b7, b20) == b7 + 2 * p.imm4To1 + 0x20 * p.imm10To5 + 0xf800 * p.sign
    ensures HighForm(FlagsOf(S), p, high) == 0xffff * p.sign
  {
  }

  lemma FormsB(p: Pieces, high: int, b7: int, b20: int)
    ensures LowForm(FlagsOf(B), p, b7, b20) == 2 * p.imm4To1 + 0x20 * p.imm10To5 + 0x800 * b7 + 0xf000 * p.sign
    ensures HighForm(FlagsOf(B), p, high) == 0xffff * p.sign
  {
  }

  lemma FormsU(p: Pieces, high: int, b7: int, b20: int)
    ensures LowForm(FlagsOf(U), p, b7, b20) == 0x1000 * p.funct3 + 0x8000 * p.rs1Low
    ensures HighForm(FlagsOf(U), p, high) == high
  {
  }

  lemma FormsJ(p: Pieces, high: int, b7: int, b20: int)
    ensures LowForm(FlagsOf(J), p, b7, b20)
         == 2 * p.rs2High + 0x20 * p.imm10To5 + 0x800 * b20 + 0x1000 * p.funct3 + 0x8000 * p.rs1Low
    ensures HighForm(FlagsOf(J), p, high) == 0xfff0 * p.sign + p.rs1High
  {
  }

  lemma HalvesWrap(low: int, high: int, v: int, k: int)
    requires 0 <= low < B16 && 0 <= high < B16 && low + B16 * high == v + B32 * k
    ensures Word(low, high) == Wrap32(v)
  {
  }

  /** Over the integers the two forms, with the true bits 7 and 20, are the halves of the
      immediate. */
  lemma FormsAreImmediate(f: Format, x: u32, high: u16, p: Pieces, b7: int, b20: int)
    requires !f.R? && MadeOf(x, p, b7, b20)
    requires high == p.rs1High + 0x10 * b20 + 0x20 * p.rs2High + 0x200 * p.imm10To5 + 0x8000 * p.sign
    ensures 0 <= LowForm(FlagsOf(f), p, b7, b20) < B16 && 0 <= HighForm(FlagsOf(f), p, high) < B16
    ensures Word(LowForm(FlagsOf(f), p, b7, b20), HighForm(FlagsOf(f), p, high)) == Wrap32(Immediate(f, x))
  {
    SignSlice(x, p, b7, b20);
    match f {
      case I => SlicesI(x, p, b7, b20); FormsI(p, high, b7, b20);
      case S => SlicesS(x, p, b7, b20); FormsS(p, high, b7, b20);
      case B => SlicesS(x, p, b7, b20); FormsB(p, high, b7, b20);
      case U => SlicesU(x, p, b7, b20); FormsU(p, high, b7, b20);
      case J => SlicesJ(x, p, b7, b20); FormsJ(p, high, b7, b20);
    }
    HalvesWrap(LowForm(FlagsOf(f), p, b7, b20), HighForm(FlagsOf(f), p, high), Immediate(f, x), p.sign);
  }

  /** The low form only sees bits 7 and 20 through the field. */
  lemma LowFormReduced(f: Format, p: Pieces, bit7: int, bit20: int, b7: int, b20: int)
    requires Vanishes(bit7 - b7) && Vanishes(bit20 - b20)
    ensures Vanishes(LowForm(FlagsOf(f), p, bit7, bit20) - LowForm(FlagsOf(f), p, b7, b20))
  {
    var g := FlagsOf(f);
    var k7, k20 := (bit7 - b7) / P, (bit20 - b20) / P;
    assert bit7 == b7 + P * k7 && bit20 == b20 + P * k20;
    assert LowForm(g, p, bit7, bit20) - LowForm(g, p, b7, b20)
        == P * (g.i * k20 + g.s * k7 + 0x800 * (g.b * k7 + g.j * k20));
    MultipleVanishes(g.i * k20 + g.s * k7 + 0x800 * (g.b * k7 + g.j * k20));
  }

  /** A value that the field identifies with both y and z, when neither can wrap. */
  lemma Settled(x: int, y: int, z: Felt)
    requires Vanishes(x - y) && Vanishes(x - z) && 0 <= y < B16
    ensures z == y
  {
    VanishesExactly(y - z);
  }

  lemma MadeOfHalves(low: u16, high: u16, p: Pieces) returns (b7: int, b20: int)
    requires p == PiecesOf(low, high)
    ensures MadeOf(Word(low, high), p, b7, b20)
    ensures high == p.rs1High + 0x10 * b20 + 0x20 * p.rs2High + 0x200 * p.imm10To5 + 0x8000 * p.sign
    ensures Vanishes(Bit7(low, p) - b7) && Vanishes(Bit20(high, p) - b20)
  {
    MissingBits(low, high, p);
    b7, b20 := low / 0x80 % 2, high / 0x10 % 2;
  }

  /** Whatever pieces the prover supplies, an instruction of any format with an immediate gets the
      immediate the ISA prescribes. */
  lemma ImmediateSound(f: Format, p: Pieces, low: u16, high: u16, immLow: Felt, immHigh: Felt)
    requires !f.R? && Decomposes(low, high, p) && ImmediateConstraints(FlagsOf(f), p, low, high, immLow, immHigh)
    ensures immLow < B16 && immHigh < B16 && Word(immLow, immHigh) == Wrap32(Immediate(f, Word(low, high)))
  {
    DecompositionIsUnique(low, high, p);
    var b7, b20 := MadeOfHalves(low, high, p);
    FormsSettled(f, Word(low, high), high, p, Bit7(low, p), Bit20(high, p), b7, b20, immLow, immHigh);
  }

  lemma FormsSettled(f: Format, x: u32, high: u16, p: Pieces, bit7: int, bit20: int, b7: int, b20: int,
                     immLow: Felt, immHigh: Felt)
    requires !f.R? && MadeOf(x, p, b7, b20) && Vanishes(bit7 - b7) && Vanishes(bit20 - b20)
    requires high == p.rs1High + 0x10 * b20 + 0x20 * p.rs2High + 0x200 * p.imm10To5 + 0x8000 * p.sign
    requires Vanishes(LowForm(FlagsOf(f), p, bit7, bit20) - immLow) && Vanishes(HighForm(FlagsOf(f), p, high) - immHigh)
    ensures immLow < B16 && immHigh < B16 && Word(immLow, immHigh) == Wrap32(Immediate(f, x))
  {
    FormsAreImmediate(f, x, high, p, b7, b20);
    LowSettled(f, p, bit7, bit20, b7, b20, LowForm(FlagsOf(f), p, b7, b20), immLow);
    HighSettled(HighForm(FlagsOf(f), p, high), immHigh);
  }

  lemma LowSettled(f: Format, p: Pieces, bit7: int, bit20: int, b7: int, b20: int, value: u16, immLow: Felt)
    requires Vanishes(bit7 - b7) && Vanishes(bit20 - b20) && value == LowForm(FlagsOf(f), p, b7, b20)
    requires Vanishes(LowForm(FlagsOf(f), p, bit7, bit20) - immLow)
    ensures immLow == value
  {
    LowFormReduced(f, p, bit7, bit20, b7, b20);
    Settled(LowForm(FlagsOf(f), p, bit7, bit20), value, immLow);
  }

  lemma HighSettled(value: u16, immHigh: Felt)
    requires Vanishes(value - immHigh)
    ensures immHigh == value
  {
  }

  /** The register numbers, and the key of the operation table. */
  lemma RegistersSound(p: Pieces, low: u16, high: u16)
    requires Decomposes(low, high, p)
    ensures var x := Word(low, high);
      && 2 * p.rs1High + p.rs1Low == Slice(x, 19, 15)
      && Reduce(2 * p.rs2High + Bit20(high, p)) == Slice(x, 24, 20)
      && Reduce(2 * p.imm4To1 + Bit7(low, p)) == Slice(x, 11, 7)
      && p.imm10To5 + 0x40 * p.sign == Slice(x, 31, 25)
      && p.opcode + 0x80 * p.funct3 + 0x400 * p.imm10To5 + 0x1_0000 * p.sign
         == Slice(x, 6, 0) + 0x80 * (Slice(x, 14, 12) + 8 * Slice(x, 31, 25))
  {
    DecompositionIsUnique(low, high, p);
    var b7, b20 := MadeOfHalves(low, high, p);
    RegistersMadeOf(Word(low, high), p, Bit7(low, p), Bit20(high, p), b7, b20);
  }

  lemma RegistersMadeOf(x: u32, p: Pieces, bit7: int, bit20: int, b7: int, b20: int)
    requires MadeOf(x, p, b7, b20) && Vanishes(bit7 - b7) && Vanishes(bit20 - b20)
    ensures 2 * p.rs1High + p.rs1Low == Slice(x, 19, 15)
    ensures Reduce(2 * p.rs2High + bit20) == Slice(x, 24, 20) && Reduce(2 * p.imm4To1 + bit7) == Slice(x, 11, 7)
    ensures p.imm10To5 + 0x40 * p.sign == Slice(x, 31, 25)
    ensures p.opcode + 0x80 * p.funct3 + 0x400 * p.imm10To5 + 0x1_0000 * p.sign
         == Slice(x, 6, 0) + 0x80 * (Slice(x, 14, 12) + 8 * Slice(x, 31, 25))
  {
    RegisterSlices(x, p, b7, b20);
    Register(p.rs2High, bit20, b20);
    Register(p.imm4To1, bit7, b7);
  }

  lemma Register(high: int, form: int, bit: int)
    requires 0 <= high < 0x10 && IsBit(bit) && Vanishes(form - bit)
    ensures Reduce(2 * high + form) == 2 * high + bit
  {
    N.DivModUnique(2 * high + form, P, (form - bit) / P, 2 * high + bit);
  }

  lemma RegisterSlices(x: u32, p: Pieces, b7: int, b20: int)
    requires MadeOf(x, p, b7, b20)
    ensures Slice(x, 19, 15) == 2 * p.rs1High + p.rs1Low && Slice(x, 24, 20) == 2 * p.rs2High + b20
    ensures Slice(x, 11, 7) == 2 * p.imm4To1 + b7 && Slice(x, 31, 25) == p.imm10To5 + 0x40 * p.sign
    ensures Slice(x, 6, 0) == p.opcode && Slice(x, 14, 12) == p.funct3
  {
    Powers();
    SlicesS(x, p, b7, b20);
    assert Power(0) == 1 && Power(3) == 8;
    var low := p.opcode + 0x80 * b7 + 0x100 * p.imm4To1;
    var above := p.imm10To5 + 0x40 * p.sign;
    var middle := b20 + 2 * p.rs2High + 0x20 * above;
    SliceIs(x, 19, 15, 0x8000, 0x20, low + 0x1000 * p.funct3, 2 * p.rs1High + p.rs1Low, middle);
    SliceIs(
      x, 24, 20, 0x10_0000, 0x20, low + 0x1000 * p.funct3 + 0x8000 * (2 * p.rs1High + p.rs1Low), 2 * p.rs2High + b20,
      above);
    SliceIs(
      x, 31, 25, 0x200_0000, 0x80,
      low + 0x1000 * p.funct3 + 0x8000 * (2 * p.rs1High + p.rs1Low) + 0x10_0000 * (2 * p.rs2High + b20), above, 0);
    SliceIs(
      x, 6, 0, 1, 0x80, 0, p.opcode,
      b7 + 2 * p.imm4To1 + 0x20 * (p.funct3 + 8 * (2 * p.rs1High + p.rs1Low + 0x20 * middle)));
    SliceIs(x, 14, 12, 0x1000, 8, low, p.funct3, p.rs1Low + 2 * p.rs1High + 0x20 * middle);
  }
}
