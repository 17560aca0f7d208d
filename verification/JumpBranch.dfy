/** Jumps, branches and set-less-than: one comparison shared by all of them, a four-bit index into a
    table of conditions, and the next program counter. */
module JumpBranch {
  import opened Words
  import opened Mersenne31
  import opened Gadgets
  import opened Witness

  // ---------------------------------------------------------------------------------------
  // What the instructions mean (sections 2.4 and 2.5 of the RISC-V Unprivileged ISA, version
  // 20191213)

  datatype Op = JAL | JALR | SLT | SLTI | BRANCH {
    predicate Jumps() { JAL? || JALR? }
  }

  /** The condition a funct3 stands for: BEQ, BNE, SLT, SLTU, BLT, BGE, BLTU, BGEU. */
  predicate Condition(funct3: int, x: u32, y: u32) {
    match funct3
    case 0 => x == y
    case 1 => x != y
    case 2 => Signed(x) < Signed(y)
    case 3 => x < y
    case 4 => Signed(x) < Signed(y)
    case 5 => Signed(x) >= Signed(y)
    case 6 => x < y
    case _ => x >= y
  }

  /** What the codes have to do with each other: 0 is equality, odd codes from 5 on and code 1 negate the
      code before them, no ordering holds of equal words, and the signed and the unsigned one differ on
      all ones and zero. */
  lemma ConditionLaws(x: u32, y: u32)
    ensures Condition(0, x, y) <==> x == y
    ensures Condition(1, x, y) == !Condition(0, x, y)
    ensures Condition(5, x, y) == !Condition(4, x, y) && Condition(7, x, y) == !Condition(6, x, y)
    ensures Condition(2, x, y) == Condition(4, x, y) && Condition(3, x, y) == Condition(6, x, y)
    ensures !Condition(4, x, x) && !Condition(6, x, x)
    ensures Condition(6, 0, 1) && Condition(4, 0, 1)
    ensures Condition(4, 0xffff_ffff, 0) && !Condition(6, 0xffff_ffff, 0)
  {
  }

  /** Where execution continues, before the low bit of an indirect jump is cleared. */
  function Target(op: Op, taken: bool, pc: u32, rs1: u32, imm: u32): u32 {
    match op
    case JAL => Wrap32(pc + imm)
    case JALR => Wrap32(rs1 + imm)
    case SLT => Wrap32(pc + 4)
    case SLTI => Wrap32(pc + 4)
    case BRANCH => Wrap32(if taken then pc + imm else pc + 4)
  }

  // ---------------------------------------------------------------------------------------
  // The comparison index

  /** Borrow, equality and the two sign bits of a comparison. */
  function Index(x: u32, y: u32): (k: int)
    ensures 0 <= k < 16
  {
    Bit(x < y) + 2 * Bit(x == y) + 4 * Bit(x >= 0x8000_0000) + 8 * Bit(y >= 0x8000_0000)
  }

  /** The condition table: the index and funct3 decide. */
  predicate Resolve(key: int, funct3: int)
    requires 0 <= key < 16
  {
    var below, equal := key % 2 == 1, key / 2 % 2 == 1;
    var sign1, sign2 := key / 4 % 2 == 1, key / 8 % 2 == 1;
    var signedBelow := if sign1 != sign2 then sign1 else below;
    match funct3
    case 0 => equal
    case 1 => !equal
    case 2 => signedBelow
    case 3 => below
    case 4 => signedBelow
    case 5 => !signedBelow
    case 6 => below
    case _ => !below
  }

  /** One fixed function of the index decides all eight conditions on every pair of words. */
  lemma IndexDecides(x: u32, y: u32, funct3: int)
    ensures Resolve(Index(x, y), funct3) == Condition(funct3, x, y)
  {
    IndexBits(Bit(x < y), Bit(x == y), Bit(x >= 0x8000_0000), Bit(y >= 0x8000_0000));
  }

  lemma IndexBits(b0: int, b1: int, b2: int, b3: int)
    requires IsBit(b0) && IsBit(b1) && IsBit(b2) && IsBit(b3)
    ensures var k := b0 + 2 * b1 + 4 * b2 + 8 * b3;
      k % 2 == b0 && k / 2 % 2 == b1 && k / 4 % 2 == b2 && k / 8 % 2 == b3
  {
  }

  // ---------------------------------------------------------------------------------------
  // The row

  const ROW_SIZE := 37
  const MEMORY_SIZE := 20

  type Row = w: seq<int> | |w| == ROW_SIZE && Canonical(w) witness seq(ROW_SIZE, i => 0)
  type Memory = m: seq<int> | |m| == MEMORY_SIZE && Canonical(m) witness seq(MEMORY_SIZE, i => 0)

  function OpMask(op: Op): Felt {
    Bit(op.JAL?) + 2 * Bit(op.JALR?) + 4 * Bit(op.SLT?) + 8 * Bit(op.SLTI?) + 16 * Bit(op.BRANCH?)
  }

  /** The decoder sets one bit of the mask for each kind of instruction. */
  lemma Masks()
    ensures OpMask(JAL) == 1 && OpMask(JALR) == 2 && OpMask(SLT) == 4 && OpMask(SLTI) == 8 && OpMask(BRANCH) == 16
  {
  }

  predicate InputsInRange(w: Row, m: Memory) {
    && m[2] < B16 && m[3] < B16 && m[7] < B16 && m[8] < B16 && m[18] < B16 && m[19] < B16
    && w[1] < B16 && w[2] < B16 && w[3] < 8 && IsBit(w[0])
  }

  function Rs1(m: Memory): u32 requires m[2] < B16 && m[3] < B16 { Word(m[2], m[3]) }
  function Rs2(m: Memory): u32 requires m[7] < B16 && m[8] < B16 { Word(m[7], m[8]) }
  function Pc(m: Memory): u32 requires m[18] < B16 && m[19] < B16 { Word(m[18], m[19]) }
  function Imm(w: Row): u32 requires w[1] < B16 && w[2] < B16 { Word(w[1], w[2]) }

  /** The operands whose difference is taken. */
  function Right(op: Op, w: Row, m: Memory): u32
    requires InputsInRange(w, m)
  {
    if op.SLTI? then Imm(w) else Rs2(m)
  }

  predicate Flagged(w: Row, op: Op) {
    && w[15] == Bit(op.JAL?) && w[16] == Bit(op.JALR?) && w[17] == Bit(op.SLT?) && w[18] == Bit(op.SLTI?)
    && w[19] == Bit(op.BRANCH?)
  }

  /** Places 9, 10 and 20: the difference and its borrow, or the return address of a jump. */
  predicate Compared(w: Row, m: Memory, op: Op)
    requires InputsInRange(w, m)
  {
    if op.Jumps() then HoldsSum(w[9], w[10], w[20], Pc(m), 4)
    else HoldsDifference(w[9], w[10], w[20], Rs1(m), Right(op, w, m))
  }

  // The constraints on the comparison flags.

  predicate SignOf(x: int, below: int, out: int) {
    IsBit(below) && 0 <= out < B16 && Vanishes(x - 0x8000 - (out - B16 * below))
  }

  function LeftHigh(w: Row, m: Memory): int {
    w[19] * m[3] + w[17] * m[3] + w[18] * m[3] + w[15] * m[19] + w[16] * m[19]
  }

  function RightHigh(w: Row, m: Memory): int {
    w[19] * m[8] + w[17] * m[8] + w[18] * w[2]
  }

  /** The field expression looked up in the condition table. */
  function Key(w: Row): Felt {
    Reduce(w[20] + 2 * w[28] + 4 * (1 - w[21]) + 8 * (1 - w[22]))
  }

  predicate InConditionTable(key: int, funct3: int, out: int) {
    0 <= key < 16 && 0 <= funct3 < 8 && out == Bit(Resolve(key, funct3))
  }

  predicate FlagConstraints(w: Row, m: Memory) {
    && IsZero(w[9], w[10], w[28], w[32])
    && SignOf(LeftHigh(w, m), w[21], w[11]) && SignOf(RightHigh(w, m), w[22], w[12])
    && InConditionTable(Key(w), w[3], w[29])
  }

  lemma SignOfMeans(x: u16, below: int, out: int)
    ensures SignOf(x, below, out) <==> below == Bit(x < 0x8000) && out == Wrap16(x - 0x8000)
  {
    if SignOf(x, below, out) { VanishesExactly(x - 0x8000 - (out - B16 * below)); }
  }

  lemma HighsCollapse(w: Row, m: Memory, op: Op)
    requires Flagged(w, op) && InputsInRange(w, m)
    ensures LeftHigh(w, m) == (if op.Jumps() then m[19] else m[3])
    ensures RightHigh(w, m) == (if op.Jumps() then 0 else if op.SLTI? then w[2] else m[8])
  {
  }

  /** The four bits that place 29 is looked up with. */
  lemma KeyBits(w: Row)
    requires IsBit(w[20]) && IsBit(w[28]) && IsBit(w[21]) && IsBit(w[22])
    ensures Key(w) < 16
    ensures Key(w) % 2 == w[20] && Key(w) / 2 % 2 == w[28]
    ensures Key(w) / 4 % 2 == 1 - w[21] && Key(w) / 8 % 2 == 1 - w[22]
  {
    IndexBits(w[20], w[28], 1 - w[21], 1 - w[22]);
  }

  lemma SignFromHigh(low: u16, high: u16)
    ensures (high < 0x8000) == (Word(low, high) < 0x8000_0000)
  {
  }

  lemma DifferenceFlags(low: int, high: int, borrow: int, x: u32, y: u32)
    requires HoldsDifference(low, high, borrow, x, y)
    ensures borrow == Bit(x < y) && (Word(low, high) == 0) == (x == y) && (low + high == 0) == (x == y)
  {
  }

  /** What an index has to tell about x and y for the condition of a funct3 to come out right:
      equality looks at the equality bit, an ordering at the borrow, and a signed ordering at neither
      when the signs of the operands decide. */
  predicate Tells(funct3: int, borrow: int, equal: int, x: u32, y: u32) {
    match funct3
    case 0 => equal == Bit(x == y)
    case 1 => equal == Bit(x == y)
    case 2 => (x < 0x8000_0000) != (y < 0x8000_0000) || borrow == Bit(x < y)
    case 4 => (x < 0x8000_0000) != (y < 0x8000_0000) || borrow == Bit(x < y)
    case 5 => (x < 0x8000_0000) != (y < 0x8000_0000) || borrow == Bit(x < y)
    case _ => borrow == Bit(x < y)
  }

  /** What places 20 and 28 have to tell for the flag to be right. */
  predicate FlagHinted(w: Row, m: Memory, op: Op)
    requires InputsInRange(w, m)
  {
    Tells(w[3], w[20], w[28], Rs1(m), Right(op, w, m))
  }

  /** The signs looked up are those of the operands, whatever else the row holds. */
  lemma SignsSound(w: Row, m: Memory, op: Op)
    requires Flagged(w, op) && InputsInRange(w, m) && !op.Jumps() && FlagConstraints(w, m)
    ensures w[21] == Bit(Rs1(m) < 0x8000_0000) && w[22] == Bit(Right(op, w, m) < 0x8000_0000)
  {
    HighsCollapse(w, m, op);
    SignOfMeans(m[3], w[21], w[11]);
    SignOfMeans(if op.SLTI? then w[2] else m[8], w[22], w[12]);
    SignFromHigh(m[2], m[3]);
    SignFromHigh(if op.SLTI? then w[1] else m[7], if op.SLTI? then w[2] else m[8]);
  }

  /** Two indices with the signs of x and y resolve alike exactly when they agree on the bit that
      funct3 looks at. */
  lemma ResolvesAlike(key: int, x: u32, y: u32, funct3: int)
    requires 0 <= key < 16
    requires key / 4 % 2 == Bit(x >= 0x8000_0000) && key / 8 % 2 == Bit(y >= 0x8000_0000)
    ensures Resolve(key, funct3) == Condition(funct3, x, y) <==> Tells(funct3, key % 2, key / 2 % 2, x, y)
  {
    IndexDecides(x, y, funct3);
    IndexBits(Bit(x < y), Bit(x == y), Bit(x >= 0x8000_0000), Bit(y >= 0x8000_0000));
  }

  /** The flag of any row that satisfies the flag constraints, whatever it holds in places 9, 10 and
      20: it is the condition of funct3 if and only if those places tell what funct3 looks at. */
  lemma FlagExact(w: Row, m: Memory, op: Op)
    requires Flagged(w, op) && InputsInRange(w, m) && !op.Jumps() && FlagConstraints(w, m)
    requires w[9] < B16 && w[10] < B16 && IsBit(w[20])
    ensures w[29] == Bit(Condition(w[3], Rs1(m), Right(op, w, m))) <==> FlagHinted(w, m, op)
    ensures w[28] == Bit(w[9] == 0 && w[10] == 0)
  {
    SignsSound(w, m, op);
    IsZeroMeans(w[9], w[10], w[28], w[32]);
    KeyBits(w);
    ResolvesAlike(Key(w), Rs1(m), Right(op, w, m), w[3]);
  }

  // ---------------------------------------------------------------------------------------
  // The next program counter

  predicate SplitBranch(w: Row) {
    w[35] == Bit(w[19] == 1 && w[29] == 0) && w[36] == Bit(w[19] == 1 && w[29] == 1)
  }

  /** The row continues at a jump target. */
  predicate Jumping(op: Op, w: Row) { op.Jumps() || (op.BRANCH? && w[29] == 1) }

  /** Places 13, 14 and 23. */
  predicate Targeted(w: Row, m: Memory, op: Op)
    requires InputsInRange(w, m)
  {
    HoldsSum(w[13], w[14], w[23],
      if op.JALR? then Rs1(m) else Pc(m),
      if Jumping(op, w) then Imm(w) else 4)
  }

  lemma TargetHeld(w: Row, m: Memory, op: Op)
    requires InputsInRange(w, m) && Targeted(w, m, op)
    ensures w[13] < B16 && w[14] < B16 && Word(w[13], w[14]) == Target(op, w[29] == 1, Pc(m), Rs1(m), Imm(w))
  {
    var x := if op.JALR? then Rs1(m) else Pc(m);
    var y := if Jumping(op, w) then Imm(w) else 4;
    SumWraps(w[13], w[14], w[23], x, y);
    assert Wrap32(x + y) == Target(op, w[29] == 1, Pc(m), Rs1(m), Imm(w));
  }

  lemma SumWraps(low: int, high: int, carry: int, x: u32, y: u32)
    requires HoldsSum(low, high, carry, x, y)
    ensures Word(low, high) == Wrap32(x + y)
  {
  }

  /** The cleanup table: bit 1 of the target, and the target without its two low bits. */
  predicate InCleanupTable(target: int, bit1: int, cleaned: int) {
    0 <= target < B16 && bit1 == target / 2 % 2 && cleaned == target - target % 4
  }

  /** A jump is only accepted with bit 1 clear; it then continues at the target with bit 0 cleared,
      and a target that was even is unchanged. */
  lemma CleanedTarget(low: u16, high: u16, bit1: int, cleaned: int)
    requires InCleanupTable(low, bit1, cleaned) && bit1 == 0
    ensures 0 <= cleaned < B16 && Word(cleaned, high) == Word(low, high) - Word(low, high) % 2
    ensures Word(low, high) % 2 == 0 ==> cleaned == low
  {
    TwoBits(low);
    EvenMultiple(low, high);
  }

  lemma TwoBits(x: int)
    ensures x % 4 == x % 2 + 2 * (x / 2 % 2)
  {
  }

  lemma EvenMultiple(low: int, high: int)
    ensures (low + B16 * high) % 2 == low % 2
  {
    assert low + B16 * high == low % 2 + 2 * (low / 2 + 0x8000 * high);
  }

  /** The limbs of the next program counter. */
  function NextPc(w: Row): (int, int) {
    if w[15] == 1 || w[16] == 1 || w[36] == 1 then (w[31], w[14]) else (w[13], w[14])
  }

  /** What is written to rd: a return address or the flag, and nothing at all to x0. */
  function Written(w: Row): (int, int) {
    (w[33] * w[9] + w[34] * w[29], w[33] * w[10])
  }

  predicate RdSelected(w: Row) {
    && w[33] == Bit(w[0] == 0 && (w[15] == 1 || w[16] == 1))
    && w[34] == Bit(w[0] == 0 && (w[17] == 1 || w[18] == 1))
  }

  lemma WrittenSelects(w: Row, op: Op)
    requires Flagged(w, op) && RdSelected(w)
    ensures Written(w) == if w[0] != 0 || op.BRANCH? then (0, 0) else if op.Jumps() then (w[9], w[10]) else (w[29], 0)
  {
  }

  lemma WrittenMeans(w: Row, m: Memory, op: Op)
    requires InputsInRange(w, m) && Flagged(w, op) && Compared(w, m, op) && RdSelected(w) && IsBit(w[29])
    ensures w[0] == 1 || op.BRANCH? ==> Written(w) == (0, 0)
    ensures w[0] == 0 && op.Jumps() ==> Written(w) == (Low(Wrap32(Pc(m) + 4)), High(Wrap32(Pc(m) + 4)))
    ensures w[0] == 0 && (op.SLT? || op.SLTI?) ==> Written(w) == (w[29], 0)
  {
    WrittenSelects(w, op);
  }

  /** What a finished row holds. */
  ghost predicate Finished(w: Row, m: Memory, op: Op) {
    && InputsInRange(w, m) && Flagged(w, op) && Compared(w, m, op) && FlagConstraints(w, m) && RdSelected(w)
    && IsBit(w[29]) && SplitBranch(w) && Targeted(w, m, op) && InCleanupTable(w[13], w[30], w[31])
  }

  lemma FinishedMeans(w: Row, m: Memory, op: Op)
    requires Finished(w, m, op)
    ensures !op.Jumps() ==> w[29] == Bit(Condition(w[3], Rs1(m), Right(op, w, m)))
    ensures w[13] < B16 && w[14] < B16 && Word(w[13], w[14]) == Target(op, w[29] == 1, Pc(m), Rs1(m), Imm(w))
  {
    if !op.Jumps() {
      FlagExact(w, m, op);
      DifferenceFlags(w[9], w[10], w[20], Rs1(m), Right(op, w, m));
    }
    TargetHeld(w, m, op);
  }

  /** The next program counter of a row whose target is aligned as the circuit demands: the target,
      with bit 0 cleared where the operation jumps. */
  lemma NextPcMeans(w: Row, m: Memory, op: Op)
    requires Finished(w, m, op) && (Jumping(op, w) ==> w[30] == 0)
    ensures var target := Target(op, w[29] == 1, Pc(m), Rs1(m), Imm(w));
      var next := if Jumping(op, w) then target - target % 2 else target;
      0 <= NextPc(w).0 < B16 && 0 <= NextPc(w).1 < B16 && Word(NextPc(w).0, NextPc(w).1) == next
  {
    TargetHeld(w, m, op);
    if Jumping(op, w) {
      CleanedTarget(w[13], w[14], w[30], w[31]);
      assert NextPc(w) == (w[31], w[14]);
    } else {
      assert NextPc(w) == (w[13], w[14]);
    }
  }
}
