/** Addition, subtraction, LUI, AUIPC and the three modular operations: eight one-hot operations over
    one two-limb addition, whose borrow certifies that a modular result is canonical. */
module AddSubMop {
  import opened Words
  import opened Mersenne31
  import opened Witness
  import N = NumberTheory

  datatype Op = ADD | ADDI | SUB | LUI | AUIPC | ADDMOD | SUBMOD | MULMOD {
    predicate Modular() { ADDMOD? || SUBMOD? || MULMOD? }
  }

  /** What each operation computes; the modular ones take any 32-bit words. */
  function Result(op: Op, x: u32, y: u32, imm: u32, pc: u32): u32 {
    match op
    case ADD => Wrap32(x + y)
    case ADDI => Wrap32(x + imm)
    case SUB => Wrap32(x - y)
    case LUI => imm
    case AUIPC => Wrap32(pc + imm)
    case ADDMOD => Reduce(x + y)
    case SUBMOD => Reduce(x - y)
    case MULMOD => Reduce(x * y)
  }

  const ROW_SIZE := 31
  const MEMORY_SIZE := 20

  type Row = w: seq<int> | |w| == ROW_SIZE && Canonical(w) witness seq(ROW_SIZE, i => 0)
  type Memory = m: seq<int> | |m| == MEMORY_SIZE && Canonical(m) witness seq(MEMORY_SIZE, i => 0)

  function OpMask(op: Op): Felt {
    Bit(op.ADD?) + 2 * Bit(op.ADDI?) + 4 * Bit(op.SUB?) + 8 * Bit(op.LUI?)
    + 16 * Bit(op.AUIPC?) + 32 * Bit(op.ADDMOD?) + 64 * Bit(op.SUBMOD?) + 128 * Bit(op.MULMOD?)
  }

  /** The decoder sets one bit of the mask for each operation. */
  lemma Masks()
    ensures OpMask(ADD) == 1 && OpMask(ADDI) == 2 && OpMask(SUB) == 4 && OpMask(LUI) == 8
    ensures OpMask(AUIPC) == 16 && OpMask(ADDMOD) == 32 && OpMask(SUBMOD) == 64 && OpMask(MULMOD) == 128
  {
  }

  /** The eight flags are bits and compose the mask. */
  predicate FlagConstraints(w: Row) {
    && IsBit(w[12]) && IsBit(w[13]) && IsBit(w[14]) && IsBit(w[15])
    && IsBit(w[16]) && IsBit(w[17]) && IsBit(w[18]) && IsBit(w[19])
    && Vanishes(w[12] + 2 * w[13] + 4 * w[14] + 8 * w[15] + 16 * w[16] + 32 * w[17] + 64 * w[18] + 128 * w[19] - w[4])
  }

  predicate Flagged(w: Row, op: Op) {
    && w[12] == Bit(op.ADD?) && w[13] == Bit(op.ADDI?) && w[14] == Bit(op.SUB?) && w[15] == Bit(op.LUI?)
    && w[16] == Bit(op.AUIPC?) && w[17] == Bit(op.ADDMOD?) && w[18] == Bit(op.SUBMOD?) && w[19] == Bit(op.MULMOD?)
  }

  predicate InputsInRange(w: Row, m: Memory) {
    && m[2] < B16 && m[3] < B16 && m[7] < B16 && m[8] < B16 && m[18] < B16 && m[19] < B16
    && w[1] < B16 && w[2] < B16
  }

  predicate OutputsInRange(w: Row) {
    w[8] < B16 && w[9] < B16 && w[10] < B16 && w[11] < B16
  }

  function Rs1(m: Memory): u32 requires m[2] < B16 && m[3] < B16 { Word(m[2], m[3]) }
  function Rs2(m: Memory): u32 requires m[7] < B16 && m[8] < B16 { Word(m[7], m[8]) }
  function Pc(m: Memory): u32 requires m[18] < B16 && m[19] < B16 { Word(m[18], m[19]) }
  function Imm(w: Row): u32 requires w[1] < B16 && w[2] < B16 { Word(w[1], w[2]) }
  function Out(w: Row): u32 requires OutputsInRange(w) { Word(w[8], w[9]) }
  function Excess(w: Row): u32 requires OutputsInRange(w) { Word(w[10], w[11]) }

  // ---------------------------------------------------------------------------------------
  // Constraints

  function LowSum(w: Row, m: Memory): int {
    w[12] * (m[2] + m[7] - w[8]) + w[13] * (m[2] + w[1] - w[8]) + w[14] * (w[8] + m[7] - m[2])
    + w[15] * (0 + w[1] - w[8]) + w[16] * (m[18] + w[1] - w[8])
    + w[17] * (w[10] + 0xffff - w[8]) + w[18] * (w[10] + 0xffff - w[8]) + w[19] * (w[10] + 0xffff - w[8])
  }

  function HighSum(w: Row, m: Memory): int {
    w[12] * (m[3] + m[8] - w[9]) + w[13] * (m[3] + w[2] - w[9]) + w[14] * (w[9] + m[8] - m[3])
    + w[15] * (0 + w[2] - w[9]) + w[16] * (m[19] + w[2] - w[9])
    + w[17] * (w[11] + 0x7fff - w[9]) + w[18] * (w[11] + 0x7fff - w[9]) + w[19] * (w[11] + 0x7fff - w[9])
  }

  predicate AdderConstraints(w: Row, m: Memory) {
    && OutputsInRange(w) && IsBit(w[23]) && IsBit(w[20])
    && Vanishes(LowSum(w, m) - B16 * w[23]) && Vanishes(HighSum(w, m) + w[23] - B16 * w[20])
  }

  /** Registers as field elements: the limbs are summed without reduction. */
  function Joined(low: int, high: int): int { low + B16 * high }

  predicate ModularConstraints(w: Row, m: Memory) {
    && Vanishes(w[17] * (Joined(w[8], w[9]) - (Joined(m[2], m[3]) + Joined(m[7], m[8]))))
    && Vanishes(w[18] * (Joined(w[8], w[9]) - (Joined(m[2], m[3]) - Joined(m[7], m[8]))))
    && Vanishes(Joined(m[2], m[3]) * Joined(m[7], m[8]) - w[28])
    && Vanishes(w[19] * (Joined(w[8], w[9]) - w[28]))
    && Vanishes(w[17] * (1 - w[20])) && Vanishes(w[18] * (1 - w[20])) && Vanishes(w[19] * (1 - w[20]))
  }

  predicate Satisfied(w: Row, m: Memory) {
    FlagConstraints(w) && AdderConstraints(w, m) && ModularConstraints(w, m)
  }

  // ---------------------------------------------------------------------------------------
  // Soundness

  /** A mask with one bit set sets one flag. */
  lemma FlagsSound(op: Op, w: Row)
    requires FlagConstraints(w) && w[4] == OpMask(op)
    ensures Flagged(w, op)
  {
    VanishesExactly(w[12] + 2 * w[13] + 4 * w[14] + 8 * w[15] + 16 * w[16] + 32 * w[17] + 64 * w[18]
      + 128 * w[19] - w[4]);
  }

  /** The one active addition, as x + y = z on limbs. */
  datatype Limbs = Limbs(xLow: int, xHigh: int, yLow: int, yHigh: int, zLow: int, zHigh: int) {
    predicate Valid() {
      && 0 <= xLow < B16 && 0 <= xHigh < B16 && 0 <= yLow < B16 && 0 <= yHigh < B16 && 0 <= zLow < B16
      && 0 <= zHigh < B16
    }
    predicate Holds(carry: int, overflow: int) {
      xLow + yLow == zLow + B16 * carry && xHigh + yHigh + carry == zHigh + B16 * overflow
    }
  }

  function Active(op: Op, w: Row, m: Memory): Limbs {
    match op
    case ADD => Limbs(m[2], m[3], m[7], m[8], w[8], w[9])
    case ADDI => Limbs(m[2], m[3], w[1], w[2], w[8], w[9])
    case SUB => Limbs(w[8], w[9], m[7], m[8], m[2], m[3])
    case LUI => Limbs(0, 0, w[1], w[2], w[8], w[9])
    case AUIPC => Limbs(m[18], m[19], w[1], w[2], w[8], w[9])
    case _ => Limbs(w[10], w[11], 0xffff, 0x7fff, w[8], w[9])
  }

  lemma SumsCollapse(op: Op, w: Row, m: Memory)
    requires Flagged(w, op)
    ensures var a := Active(op, w, m);
      LowSum(w, m) == a.xLow + a.yLow - a.zLow && HighSum(w, m) == a.xHigh + a.yHigh - a.zHigh
  {
  }

  lemma LimbsVanish(a: Limbs, carry: int, overflow: int)
    requires a.Valid() && IsBit(carry) && IsBit(overflow)
    ensures Vanishes(a.xLow + a.yLow - a.zLow - B16 * carry)
         && Vanishes(a.xHigh + a.yHigh - a.zHigh + carry - B16 * overflow)
        <==> a.Holds(carry, overflow)
  {
    var low, high := a.xLow + a.yLow - a.zLow - B16 * carry, a.xHigh + a.yHigh - a.zHigh + carry - B16 * overflow;
    if Vanishes(low) { VanishesExactly(low); }
    if Vanishes(high) { VanishesExactly(high); }
  }

  /** The constraints of the adder are the limb equations of the active operation, and no more. */
  lemma AdderMeans(op: Op, w: Row, m: Memory)
    requires Flagged(w, op) && InputsInRange(w, m) && OutputsInRange(w) && IsBit(w[23]) && IsBit(w[20])
    ensures AdderConstraints(w, m) <==> Active(op, w, m).Holds(w[23], w[20])
  {
    SumsCollapse(op, w, m);
    LimbsVanish(Active(op, w, m), w[23], w[20]);
  }

  lemma WordsOf(a: Limbs, carry: int, overflow: int)
    requires a.Valid() && IsBit(carry) && IsBit(overflow) && a.Holds(carry, overflow)
    ensures Word(a.xLow, a.xHigh) + Word(a.yLow, a.yHigh) == Word(a.zLow, a.zHigh) + B32 * overflow
  {
  }

  lemma PlainSound(op: Op, w: Row, m: Memory)
    requires Flagged(w, op) && InputsInRange(w, m) && Satisfied(w, m) && !op.Modular()
    ensures Out(w) == Result(op, Rs1(m), Rs2(m), Imm(w), Pc(m))
  {
    AdderMeans(op, w, m);
    ActiveSound(op, w, m, Active(op, w, m));
  }

  lemma ActiveSound(op: Op, w: Row, m: Memory, a: Limbs)
    requires InputsInRange(w, m) && OutputsInRange(w) && !op.Modular() && a == Active(op, w, m)
    requires IsBit(w[23]) && IsBit(w[20]) && a.Holds(w[23], w[20])
    ensures Out(w) == Result(op, Rs1(m), Rs2(m), Imm(w), Pc(m))
  {
    WordsOf(a, w[23], w[20]);
    SumWraps(Word(a.xLow, a.xHigh), Word(a.yLow, a.yHigh), Word(a.zLow, a.zHigh), w[20]);
  }

  lemma SumWraps(x: u32, y: u32, z: u32, overflow: int)
    requires IsBit(overflow) && x + y == z + B32 * overflow
    ensures z == Wrap32(x + y) && x == Wrap32(z - y)
  {
  }

  /** A borrow in out - (2^31 - 1) means that out is canonical. */
  lemma BorrowCertifies(op: Op, w: Row, m: Memory)
    requires Flagged(w, op) && InputsInRange(w, m) && Satisfied(w, m) && op.Modular()
    ensures w[20] == 1 && Out(w) < P
  {
    AdderMeans(op, w, m);
    WordsOf(Active(op, w, m), w[23], w[20]);
    VanishesExactly(1 - w[20]);
  }

  lemma ModularSound(op: Op, w: Row, m: Memory)
    requires Flagged(w, op) && InputsInRange(w, m) && Satisfied(w, m) && op.Modular()
    ensures Out(w) == Result(op, Rs1(m), Rs2(m), Imm(w), Pc(m))
  {
    BorrowCertifies(op, w, m);
    if op.ADDMOD? {
      CanonicalResidue(Out(w), Rs1(m) + Rs2(m));
    } else if op.SUBMOD? {
      CanonicalResidue(Out(w), Rs1(m) - Rs2(m));
    } else {
      Transitive(Out(w), w[28], Rs1(m) * Rs2(m));
      CanonicalResidue(Out(w), Rs1(m) * Rs2(m));
    }
  }

  lemma CanonicalResidue(out: Felt, x: int)
    requires Vanishes(out - x)
    ensures out == Reduce(x)
  {
    N.DivModUnique(x, P, -((out - x) / P), out);
  }

  lemma Transitive(x: int, y: int, z: int)
    requires Vanishes(x - y) && Vanishes(z - y)
    ensures Vanishes(x - z)
  {
  }

  /** Any row satisfying the constraints holds the result of its operation; a modular result is the
      canonical residue, even for operands that are not canonical. */
  lemma CircuitSound(op: Op, w: Row, m: Memory)
    requires w[4] == OpMask(op) && InputsInRange(w, m) && Satisfied(w, m)
    ensures Out(w) == Result(op, Rs1(m), Rs2(m), Imm(w), Pc(m))
  {
    FlagsSound(op, w);
    if op.Modular() { ModularSound(op, w, m); } else { PlainSound(op, w, m); }
  }

  // ---------------------------------------------------------------------------------------
  // The product of two words, limb by limb

  /** 2^32 is 2 in the field. */
  lemma LimbProduct(a0: int, a1: int, b0: int, b1: int)
    ensures Vanishes(Joined(a0, a1) * Joined(b0, b1) - (a0 * b0 + a0 * B16 * b1 + a1 * B16 * b0 + a1 * 2 * b1))
  {
    assert Joined(a0, a1) * Joined(b0, b1) - (a0 * b0 + a0 * B16 * b1 + a1 * B16 * b0
      + a1 * 2 * b1) == P * (2 * (a1 * b1)) by {
      assert B16 * B16 == 2 + P * 2;
      assert Joined(a0, a1) * Joined(b0, b1) == a0 * b0 + a0 * (B16 * b1) + (B16 * a1) * b0 + (B16 * a1) * (B16 * b1);
      assert (B16 * a1) * (B16 * b1) == (B16 * B16) * (a1 * b1);
    }
    MultipleVanishes(2 * (a1 * b1));
  }

  lemma MultipleVanishes(k: int)
    ensures Vanishes(P * k)
  {
  }
}
