/** The unsigned multiply/divide circuit: the chain of the signed one without signs.  Three carries of
    9, 10 and 9 bits suffice, the last limb closes exactly, and the 64-bit relation is an equality. */
module UnsignedMulDiv {
  import opened Words
  import opened Mersenne31
  import opened Gadgets
  import opened LimbChain
  import opened MExtension
  import opened Witness
  import N = NumberTheory

  const ROW_SIZE := 52
  const MEMORY_SIZE := 20

  type Row = w: seq<int> | |w| == ROW_SIZE && Canonical(w) witness seq(ROW_SIZE, i => 0)
  type Memory = m: seq<int> | |m| == MEMORY_SIZE && Canonical(m) witness seq(MEMORY_SIZE, i => 0)

  predicate Supported(op: Op) { op.MUL? || op.MULHU? || op.DIVU? || op.REMU? }

  /** The decoder's bitmask: division, first word. */
  function OpMask(op: Op): Felt { Bit(op.IsDivision()) + 2 * Bit(op.FirstWord()) }

  /** The mask the decoder sets for each of the four. */
  lemma Masks()
    ensures OpMask(MUL) == 2 && OpMask(MULHU) == 0 && OpMask(DIVU) == 3 && OpMask(REMU) == 1
  {
  }

  predicate OperandsInRange(m: Memory) {
    m[2] < B16 && m[3] < B16 && m[7] < B16 && m[8] < B16
  }

  function Rs1(m: Memory): u32 requires OperandsInRange(m) { Word(m[2], m[3]) }
  function Rs2(m: Memory): u32 requires OperandsInRange(m) { Word(m[7], m[8]) }

  predicate WordsInRange(w: Row) { w[20] < B16 && w[21] < B16 && w[22] < B16 && w[23] < B16 }

  /** Low product or quotient; high product or remainder. */
  function First(w: Row): u32 requires WordsInRange(w) { Word(w[20], w[21]) }
  function Second(w: Row): u32 requires WordsInRange(w) { Word(w[22], w[23]) }

  // The relation op1 * op2 + addend == product, as the row holds it.

  function Op1(w: Row): Factor { Factor(w[9], w[10], w[11], w[12], 0) }
  function Op2(w: Row): Factor { Factor(w[13], w[14], w[15], w[16], 0) }
  function Additive(w: Row): Addend { Addend(w[39], w[40], 0) }
  function Product(w: Row): Limbs { Limbs(w[41], w[42], w[43], w[44]) }

  /** Three carries; nothing leaves the last limb. */
  function RowCarries(w: Row): Carries {
    Carries(w[17] + 0x100 * w[28], w[18] + 0x100 * w[29] + 0x200 * w[30], w[19] + 0x100 * w[31], 0)
  }

  // ---------------------------------------------------------------------------------------
  // Constraints

  predicate FlagConstraints(w: Row) {
    IsBit(w[26]) && IsBit(w[27]) && Vanishes(w[26] + 2 * w[27] - w[4])
  }

  predicate SelectionConstraints(w: Row, m: Memory) {
    && WordsInRange(w)
    && w[9] < B8 && w[10] < B8 && w[11] < B8 && w[12] < B8
    && w[13] < B8 && w[14] < B8 && w[15] < B8 && w[16] < B8
    && Choose(w[26], w[20], m[2], w[9] + B8 * w[10]) && Choose(w[26], w[21], m[3], w[11] + B8 * w[12])
    && Choose(w[26], w[22], 0, w[39]) && Choose(w[26], w[23], 0, w[40])
    && Choose(w[26], m[2], w[20], w[41]) && Choose(w[26], m[3], w[21], w[42])
    && Choose(w[26], 0, w[22], w[43]) && Choose(w[26], 0, w[23], w[44])
    && Vanishes(m[7] - w[13] - B8 * w[14]) && Vanishes(m[8] - w[15] - B8 * w[16])
  }

  predicate CarryRanges(w: Row) {
    && w[17] < B8 && w[18] < B8 && w[19] < B8 && IsBit(w[28]) && IsBit(w[29]) && IsBit(w[30]) && IsBit(w[31])
  }

  predicate ChainConstraints(w: Row) {
    CarryRanges(w) && FieldChain(Op1(w), Op2(w), Additive(w), Product(w), RowCarries(w))
  }

  /** a - b == c - 2^32 * underflow on limbs.  The middle borrow has no place: it is expressed as
      2^15, the inverse of 2^16, times the excess of the low limbs, and constrained to be a bit. */
  predicate Subtraction(aLow: int, aHigh: int, bLow: int, bHigh: int, cLow: int, cHigh: int, underflow: int) {
    var borrow := 0x8000 * (cLow - aLow + bLow);
    && IsBit(underflow) && 0 <= cLow < B16 && 0 <= cHigh < B16
    && Vanishes(borrow * (borrow - 1)) && Vanishes(aHigh - bHigh - borrow - (cHigh - B16 * underflow))
  }

  predicate TrapConstraints(w: Row, m: Memory) {
    && IsZero(m[7], m[8], w[47], w[48]) && And(w[26], w[47], w[49])
    && Vanishes(w[49] * (w[20] - 0xffff)) && Vanishes(w[49] * (w[21] - 0xffff))
    && Subtraction(w[22], w[23], m[7], m[8], w[24], w[25], w[32])
    && Vanishes((w[26] - w[49]) * (1 - w[32]))
  }

  predicate OutputConstraints(w: Row) {
    Choose(w[27], w[20], w[22], w[45]) && Choose(w[27], w[21], w[23], w[46])
  }

  predicate Satisfied(w: Row, m: Memory) {
    && FlagConstraints(w) && SelectionConstraints(w, m) && ChainConstraints(w) && TrapConstraints(w, m)
    && OutputConstraints(w)
  }

  // ---------------------------------------------------------------------------------------
  // The subtraction gadget

  lemma BorrowIsBit(excess: int)
    requires -B32 < 2 * B8 * excess < B32 && Vanishes((0x8000 * excess) * (0x8000 * excess - 1))
    ensures excess == 0 || excess == B16
  {
    NoZeroDivisors(0x8000 * excess, 0x8000 * excess - 1);
    if Vanishes(0x8000 * excess) {
      NoZeroDivisors(0x8000, excess);
      VanishesExactly(excess);
    } else {
      ScaledBorrow(excess);
      VanishesExactly(excess - B16);
    }
  }

  lemma ScaledBorrow(excess: int)
    requires Vanishes(0x8000 * excess - 1)
    ensures Vanishes(excess - B16)
  {
    var k := (0x8000 * excess - 1) / P;
    assert 0x8000 * excess - 1 == P * k;
    assert excess - B16 == P * (B16 * k - excess);
    MultipleVanishes(B16 * k - excess);
  }

  lemma MultipleVanishes(k: int)
    ensures Vanishes(P * k)
  {
  }

  /** 2^31 is 1 in the field. */
  lemma BorrowInField(x: int, b: int)
    requires IsBit(b)
    ensures Vanishes(x - 0x8000 * (B16 * b)) <==> Vanishes(x - b)
  {
  }

  lemma BorrowVanishes(b: int)
    requires IsBit(b)
    ensures Vanishes((0x8000 * (B16 * b)) * (0x8000 * (B16 * b) - 1))
  {
    if b == 1 { MultipleVanishes(0x8000_0000); }
  }

  /** The gadget is exact, in both directions. */
  lemma SubtractionMeans(aLow: u16, aHigh: u16, bLow: u16, bHigh: u16, cLow: u16, cHigh: u16, underflow: int)
    requires IsBit(underflow)
    ensures Subtraction(aLow, aHigh, bLow, bHigh, cLow, cHigh, underflow) <==>
            Word(aLow, aHigh) - Word(bLow, bHigh) == Word(cLow, cHigh) - B32 * underflow
  {
    var excess := cLow - aLow + bLow;
    if Subtraction(aLow, aHigh, bLow, bHigh, cLow, cHigh, underflow) {
      BorrowIsBit(excess);
      var b := excess / B16;
      BorrowInField(aHigh - bHigh - (cHigh - B16 * underflow), b);
      VanishesExactly(aHigh - bHigh - (cHigh - B16 * underflow) - b);
    } else if Word(aLow, aHigh) - Word(bLow, bHigh) == Word(cLow, cHigh) - B32 * underflow {
      var b := aHigh - bHigh - (cHigh - B16 * underflow);
      assert excess == B16 * b;
      BorrowVanishes(b);
      BorrowInField(b, b);
    }
  }

  // ---------------------------------------------------------------------------------------
  // The chain without signs

  /** Without signs, three carries make the relation an equality. */
  lemma ChainExact(a: Factor, b: Factor, r: Addend, p: Limbs, c: Carries)
    requires a.sign == 0 && b.sign == 0 && r.sign == 0 && Chain(a, b, r, p, c)
    ensures a.Value() * b.Value() + r.Value() == p.Value() + B64 * c.c3
  {
    WeightedSums(a, b, r);
  }

  /** The third limb: at most 511 * 2^16 + 2 with its carry. */
  lemma ThirdLimbBound(a: Factor, b: Factor, r: Addend)
    requires a.Valid() && b.Valid() && a.sign == 0 && b.sign == 0 && r.sign == 0
    ensures 0 <= Sum2(a, b, r) + 0x3ff <= 511 * B16 + 2
  {
    ByteProduct(a.b1, b.b3);
    ByteProduct(a.b2, b.b2);
    ByteProduct(a.b2, b.b3);
    ByteProduct(a.b3, b.b1);
    ByteProduct(a.b3, b.b2);
  }

  /** Whenever the equality holds the carries fit in 9, 10 and 9 bits, and the last limb closes. */
  lemma ThreeCarries(a: Factor, b: Factor, r: Addend, p: Limbs)
    requires a.Valid() && b.Valid() && r.Valid() && p.Valid() && a.sign == 0 && b.sign == 0 && r.sign == 0
    requires a.Value() * b.Value() + r.Value() == p.Value()
    ensures var c := ComputedCarries(a, b, r, p);
      Chain(a, b, r, p, c) && 0 <= c.c0 < 0x200 && 0 <= c.c1 < 0x400 && 0 <= c.c2 < 0x200 && c.c3 == 0
  {
    var c := ComputedCarries(a, b, r, p);
    ChainComplete(a, b, r, p);
    ChainExact(a, b, r, p, c);
    ThirdLimbBound(a, b, r);
    ThirdCarry(c.c1, Sum2(a, b, r), p.l2, c.c2);
  }

  lemma ThirdCarry(c1: int, sum: int, l2: int, c2: int)
    requires c1 <= 0x3ff && sum + 0x3ff <= 511 * B16 + 2 && 0 <= l2 && c1 + sum == l2 + B16 * c2
    ensures c2 < 0x200
  {
  }

  // ---------------------------------------------------------------------------------------
  // Soundness

  lemma FlagsSound(w: Row, op: Op)
    requires FlagConstraints(w) && w[4] == OpMask(op)
    ensures w[26] == Bit(op.IsDivision()) && w[27] == Bit(op.FirstWord())
  {
    VanishesExactly(w[26] + 2 * w[27] - w[4]);
  }

  lemma SelectionSound(w: Row, m: Memory)
    requires OperandsInRange(m) && SelectionConstraints(w, m) && IsBit(w[26])
    ensures w[9] + B8 * w[10] == (if w[26] == 1 then w[20] else m[2])
    ensures w[11] + B8 * w[12] == (if w[26] == 1 then w[21] else m[3])
    ensures w[39] == (if w[26] == 1 then w[22] else 0) && w[40] == (if w[26] == 1 then w[23] else 0)
    ensures w[41] == (if w[26] == 1 then m[2] else w[20]) && w[42] == (if w[26] == 1 then m[3] else w[21])
    ensures w[43] == (if w[26] == 1 then 0 else w[22]) && w[44] == (if w[26] == 1 then 0 else w[23])
    ensures m[7] == w[13] + B8 * w[14] && m[8] == w[15] + B8 * w[16]
  {
    ChooseMeans(w[26], w[20], m[2], w[9] + B8 * w[10]);
    ChooseMeans(w[26], w[21], m[3], w[11] + B8 * w[12]);
    ChooseMeans(w[26], w[22], 0, w[39]);
    ChooseMeans(w[26], w[23], 0, w[40]);
    ChooseMeans(w[26], m[2], w[20], w[41]);
    ChooseMeans(w[26], m[3], w[21], w[42]);
    ChooseMeans(w[26], 0, w[22], w[43]);
    ChooseMeans(w[26], 0, w[23], w[44]);
    VanishesExactly(m[7] - w[13] - B8 * w[14]);
    VanishesExactly(m[8] - w[15] - B8 * w[16]);
  }

  /** What the relation is about: rs1 * rs2 against both words, or quotient * rs2 + remainder against
      the dividend. */
  lemma OperandsSelected(w: Row, m: Memory)
    requires OperandsInRange(m) && SelectionConstraints(w, m) && IsBit(w[26])
    ensures Op1(w).Valid() && Op2(w).Valid() && Additive(w).Valid() && Product(w).Valid()
    ensures Op2(w).Value() == Rs2(m)
    ensures Op1(w).Value() == (if w[26] == 1 then First(w) else Rs1(m))
    ensures Additive(w).Value() == (if w[26] == 1 then Second(w) else 0)
    ensures Product(w).Value() == (if w[26] == 1 then Rs1(m) else First(w) + B32 * Second(w))
  {
    SelectionSound(w, m);
  }

  /** The 64-bit relation, over the integers. */
  predicate Related(division: bool, x: u32, y: u32, first: u32, second: u32) {
    if division then first * y + second == x else x * y == first + B32 * second
  }

  lemma ChainSound(w: Row, m: Memory)
    requires OperandsInRange(m) && SelectionConstraints(w, m) && ChainConstraints(w) && IsBit(w[26])
    ensures Related(w[26] == 1, Rs1(m), Rs2(m), First(w), Second(w))
  {
    OperandsSelected(w, m);
    FieldChainExact(Op1(w), Op2(w), Additive(w), Product(w), RowCarries(w));
    ChainExact(Op1(w), Op2(w), Additive(w), Product(w), RowCarries(w));
  }

  /** The words a division accepts besides the relation. */
  predicate Trapped(x: u32, y: u32, first: u32, second: u32) {
    if y == 0 then first == B32 - 1 else second < y
  }

  lemma TrapsSound(w: Row, m: Memory)
    requires OperandsInRange(m) && WordsInRange(w) && TrapConstraints(w, m) && w[26] == 1
    ensures Trapped(Rs1(m), Rs2(m), First(w), Second(w))
  {
    IsZeroMeans(m[7], m[8], w[47], w[48]);
    BooleanGadgetsMean(w[26], w[47], w[49]);
    SubtractionMeans(w[22], w[23], m[7], m[8], w[24], w[25], w[32]);
    if Rs2(m) == 0 {
      VanishesExactly(w[20] - 0xffff);
      VanishesExactly(w[21] - 0xffff);
    } else {
      assert (w[26] - w[49]) * (1 - w[32]) == 1 - w[32];
      VanishesExactly(1 - w[32]);
    }
  }

  // What the relation and the traps mean for the two words.

  lemma QuotientDetermined(x: u32, y: u32, q: int, r: u32)
    requires y != 0 && q * y + r == x && r < y
    ensures q == Wrap32(Quotient(x, y)) && r == Wrap32(Remainder(x, y))
  {
    N.DivModUnique(x, y, q, r);
    SmallQuotient(x, y);
  }

  lemma SmallQuotient(x: u32, y: u32)
    requires y != 0
    ensures 0 <= x / y <= x && 0 <= x % y <= x
  {
    QuotientBelow(x, y, x / y, x % y);
  }

  lemma QuotientBelow(x: int, y: int, q: int, r: int)
    requires y > 0 && q >= 0 && r >= 0 && x == y * q + r
    ensures q <= x && r <= x
  {
    NonNegativeProduct(y - 1, q);
    assert y * q == (y - 1) * q + q;
  }

  lemma WordsOfProduct(p: int, low: u32, high: u32)
    requires p == low + B32 * high
    ensures low == Wrap32(p) && high == Wrap32(p / B32)
  {
  }

  /** The relation and the traps hold of the words of the instruction, and of no others. */
  lemma WordsDetermined(op: Op, x: u32, y: u32, first: u32, second: u32)
    requires Supported(op)
    requires Related(op.IsDivision(), x, y, first, second) && (op.IsDivision() ==> Trapped(x, y, first, second))
    ensures Result(op, x, y) == if op.FirstWord() then first else second
  {
    if op.IsDivision() {
      if y == 0 {
        assert first * y == 0;
      } else {
        QuotientDetermined(x, y, first, second);
      }
    } else {
      WordsOfProduct(x * y, first, second);
      LowProductIgnoresSigns(x, y);
    }
  }

  /** Any row satisfying the constraints holds the result of its instruction. */
  lemma CircuitSound(w: Row, m: Memory, op: Op)
    requires Supported(op) && OperandsInRange(m) && w[4] == OpMask(op) && Satisfied(w, m)
    ensures w[45] < B16 && w[46] < B16 && Word(w[45], w[46]) == Result(op, Rs1(m), Rs2(m))
  {
    FlagsSound(w, op);
    ChainSound(w, m);
    if op.IsDivision() { TrapsSound(w, m); }
    ChooseMeans(w[27], w[20], w[22], w[45]);
    ChooseMeans(w[27], w[21], w[23], w[46]);
    WordsDetermined(op, Rs1(m), Rs2(m), First(w), Second(w));
  }
}
