/** The constraints of jumps, branches and set-less-than, from the decoder's mask to the next program
    counter: a zero test, two signs and two lookups, which the circuit enforces, and masked additions
    over shared registers, which it only registers. What each set of constraints pins down. */
module JumpBranchCircuit {
  import opened Words
  import opened Mersenne31
  import opened Gadgets
  import opened Witness
  import opened JumpBranch

  /** The five flags are bits and compose the mask. */
  predicate MaskConstraints(w: Row) {
    && IsBit(w[15]) && IsBit(w[16]) && IsBit(w[17]) && IsBit(w[18]) && IsBit(w[19])
    && Vanishes(w[15] + 2 * w[16] + 4 * w[17] + 8 * w[18] + 16 * w[19] - w[4])
  }

  // The five additions registered for places 9, 10 and 20, summed with their flags: a subtraction
  // is the addition of its difference and its second operand.

  function ComparisonLow(w: Row, m: Memory): int {
    w[19] * (w[9] + m[7] - m[2]) + w[17] * (w[9] + m[7] - m[2]) + w[18] * (w[9] + w[1] - m[2])
    + w[15] * (m[18] + 4 - w[9]) + w[16] * (m[18] + 4 - w[9])
  }

  function ComparisonHigh(w: Row, m: Memory): int {
    w[19] * (w[10] + m[8] - m[3]) + w[17] * (w[10] + m[8] - m[3]) + w[18] * (w[10] + w[2] - m[3])
    + w[15] * (m[19] + 0 - w[10]) + w[16] * (m[19] + 0 - w[10])
  }

  // The six additions registered for places 13, 14 and 23.

  function TargetLow(w: Row, m: Memory): int {
    w[17] * (m[18] + 4 - w[13]) + w[18] * (m[18] + 4 - w[13]) + w[15] * (m[18] + w[1] - w[13])
    + w[16] * (m[2] + w[1] - w[13]) + w[35] * (m[18] + 4 - w[13]) + w[36] * (m[18] + w[1] - w[13])
  }

  function TargetHigh(w: Row, m: Memory): int {
    w[17] * (m[19] + 0 - w[14]) + w[18] * (m[19] + 0 - w[14]) + w[15] * (m[19] + w[2] - w[14])
    + w[16] * (m[3] + w[2] - w[14]) + w[35] * (m[19] + 0 - w[14]) + w[36] * (m[19] + w[2] - w[14])
  }

  /** The limb equations of a register of flagged additions, with their middle carry. */
  predicate AdderConstraints(low: int, high: int, carry: int, overflow: int) {
    IsBit(carry) && IsBit(overflow) && Vanishes(low - B16 * carry) && Vanishes(high + carry - B16 * overflow)
  }

  predicate ComparisonConstraints(w: Row, m: Memory, carry: int) {
    AdderConstraints(ComparisonLow(w, m), ComparisonHigh(w, m), carry, w[20])
  }

  predicate TargetConstraints(w: Row, m: Memory, carry: int) {
    AdderConstraints(TargetLow(w, m), TargetHigh(w, m), carry, w[23])
  }

  /** All that the circuit asks of the two registers by themselves. */
  predicate HintsInRange(w: Row) {
    w[9] < B16 && w[10] < B16 && w[13] < B16 && w[14] < B16 && IsBit(w[20]) && IsBit(w[23])
  }

  predicate SplitConstraints(w: Row) {
    AndNot(w[19], w[29], w[35]) && And(w[19], w[29], w[36])
  }

  predicate RdConstraints(w: Row) {
    Vanishes((1 - w[0]) * (w[15] + w[16]) - w[33]) && Vanishes((1 - w[0]) * (w[17] + w[18]) - w[34])
  }

  /** The limbs handed to rd. */
  predicate OutputConstraints(w: Row, rd: Limbs) {
    && 0 <= rd.low < P && 0 <= rd.high < P
    && Vanishes(w[33] * w[9] + w[34] * w[29] - rd.low) && Vanishes(w[33] * w[10] - rd.high)
  }

  /** The cleanup of the target, and the next program counter. */
  predicate NextPcConstraints(w: Row, next: Limbs) {
    var jumping := w[15] + w[16] + w[36];
    var straight := w[17] + w[18] + w[35];
    && InCleanupTable(w[13], w[30], w[31]) && Vanishes(jumping * w[30])
    && 0 <= next.low < P && 0 <= next.high < P
    && Vanishes(jumping * w[31] + straight * w[13] - next.low)
    && Vanishes((jumping + straight) * w[14] - next.high)
  }

  datatype Limbs = Limbs(low: int, high: int)

  /** Everything the circuit asks of an executing row. Places 9, 10, 20 and 13, 14, 23 occur in no
      equation with the operands. */
  predicate Enforced(w: Row, m: Memory, rd: Limbs, next: Limbs) {
    && MaskConstraints(w) && HintsInRange(w) && FlagConstraints(w, m) && RdConstraints(w) && OutputConstraints(w, rd)
    && SplitConstraints(w) && NextPcConstraints(w, next)
  }

  /** The masked additions, which are registered with the optimization context and never enforced.
      Their middle carries have no place of their own in the row. */
  predicate Registered(w: Row, m: Memory, compareCarry: int, targetCarry: int) {
    ComparisonConstraints(w, m, compareCarry) && TargetConstraints(w, m, targetCarry)
  }

  // ---------------------------------------------------------------------------------------
  // Soundness

  /** A mask with one bit set sets one flag. */
  lemma FlagsSound(w: Row, op: Op)
    requires MaskConstraints(w) && w[4] == OpMask(op)
    ensures Flagged(w, op)
  {
    VanishesExactly(w[15] + 2 * w[16] + 4 * w[17] + 8 * w[18] + 16 * w[19] - w[4]);
  }

  /** x + y = z on limbs. */
  datatype Addition = Addition(x: Limbs, y: Limbs, z: Limbs) {
    predicate Valid() {
      && 0 <= x.low < B16 && 0 <= x.high < B16 && 0 <= y.low < B16 && 0 <= y.high < B16
      && 0 <= z.low < B16 && 0 <= z.high < B16
    }
    function Low(): int { x.low + y.low - z.low }
    function High(): int { x.high + y.high - z.high }
  }

  lemma AdditionSound(a: Addition, carry: int, overflow: int)
    requires a.Valid() && AdderConstraints(a.Low(), a.High(), carry, overflow)
    ensures Word(a.x.low, a.x.high) + Word(a.y.low, a.y.high) == Word(a.z.low, a.z.high) + B32 * overflow
  {
    VanishesExactly(a.Low() - B16 * carry);
    VanishesExactly(a.High() + carry - B16 * overflow);
  }

  /** The addition that fills the comparison register. */
  function Comparison(w: Row, m: Memory, op: Op): Addition {
    var out := Limbs(w[9], w[10]);
    match op
    case JAL => Addition(Limbs(m[18], m[19]), Limbs(4, 0), out)
    case JALR => Addition(Limbs(m[18], m[19]), Limbs(4, 0), out)
    case SLTI => Addition(out, Limbs(w[1], w[2]), Limbs(m[2], m[3]))
    case _ => Addition(out, Limbs(m[7], m[8]), Limbs(m[2], m[3]))
  }

  lemma ComparisonCollapses(w: Row, m: Memory, op: Op)
    requires Flagged(w, op)
    ensures ComparisonLow(w, m) == Comparison(w, m, op).Low() && ComparisonHigh(w, m) == Comparison(w, m, op).High()
  {
  }

  lemma ComparedSound(w: Row, m: Memory, op: Op, carry: int)
    requires Flagged(w, op) && InputsInRange(w, m) && HintsInRange(w) && ComparisonConstraints(w, m, carry)
    ensures Compared(w, m, op)
  {
    ComparisonCollapses(w, m, op);
    AdditionSound(Comparison(w, m, op), carry, w[20]);
  }

  /** The addition that fills the target. */
  function Destination(w: Row, m: Memory, op: Op, taken: bool): Addition {
    var out := Limbs(w[13], w[14]);
    match op
    case JAL => Addition(Limbs(m[18], m[19]), Limbs(w[1], w[2]), out)
    case JALR => Addition(Limbs(m[2], m[3]), Limbs(w[1], w[2]), out)
    case BRANCH => Addition(Limbs(m[18], m[19]), if taken then Limbs(w[1], w[2]) else Limbs(4, 0), out)
    case _ => Addition(Limbs(m[18], m[19]), Limbs(4, 0), out)
  }

  lemma DestinationCollapses(w: Row, m: Memory, op: Op, taken: bool)
    requires Flagged(w, op) && SplitBranch(w) && IsBit(w[29]) && taken == (w[29] == 1)
    ensures TargetLow(w, m) == Destination(w, m, op, taken).Low()
    ensures TargetHigh(w, m) == Destination(w, m, op, taken).High()
  {
  }

  lemma TargetedSound(w: Row, m: Memory, op: Op, carry: int)
    requires Flagged(w, op) && InputsInRange(w, m) && HintsInRange(w) && SplitBranch(w) && IsBit(w[29])
    requires TargetConstraints(w, m, carry)
    ensures Targeted(w, m, op)
  {
    var a := Destination(w, m, op, w[29] == 1);
    DestinationCollapses(w, m, op, w[29] == 1);
    AdditionSound(a, carry, w[23]);
  }

  lemma SplitSound(w: Row, op: Op)
    requires Flagged(w, op) && IsBit(w[29]) && SplitConstraints(w)
    ensures SplitBranch(w)
  {
    BooleanGadgetsMean(w[19], w[29], w[35]);
    BooleanGadgetsMean(w[19], w[29], w[36]);
  }

  lemma RdSound(w: Row, op: Op)
    requires Flagged(w, op) && IsBit(w[0]) && RdConstraints(w)
    ensures RdSelected(w)
  {
    MaskedBit(w[0], w[15] + w[16], w[33]);
    MaskedBit(w[0], w[17] + w[18], w[34]);
  }

  lemma MaskedBit(zero: int, flag: int, out: Felt)
    requires IsBit(zero) && IsBit(flag) && Vanishes((1 - zero) * flag - out)
    ensures out == Bit(zero == 0 && flag == 1)
  {
    assert (1 - zero) * flag == Bit(zero == 0 && flag == 1);
    VanishesExactly((1 - zero) * flag - out);
  }

  lemma JumpingOrStraight(w: Row, op: Op)
    requires Flagged(w, op) && SplitBranch(w) && IsBit(w[29])
    ensures w[15] + w[16] + w[36] == Bit(Jumping(op, w))
    ensures w[17] + w[18] + w[35] == 1 - (w[15] + w[16] + w[36])
  {
  }

  lemma SelectedLimbs(jumping: int, straight: int, cleaned: int, low: int, high: int, next: Limbs)
    requires IsBit(jumping) && straight == 1 - jumping
    requires 0 <= cleaned < B16 && 0 <= low < B16 && 0 <= high < B16 && 0 <= next.low < P && 0 <= next.high < P
    requires Vanishes(jumping * cleaned + straight * low - next.low)
    requires Vanishes((jumping + straight) * high - next.high)
    ensures next == Limbs(if jumping == 1 then cleaned else low, high)
  {
    assert jumping + straight == 1;
    VanishesExactly(high - next.high);
    VanishesExactly((if jumping == 1 then cleaned else low) - next.low);
  }

  lemma ClearBit(jumping: int, bit1: int)
    requires jumping == 1 && IsBit(bit1) && Vanishes(jumping * bit1)
    ensures bit1 == 0
  {
  }

  lemma NextPcSelected(w: Row, op: Op, next: Limbs)
    requires Flagged(w, op) && SplitBranch(w) && IsBit(w[29]) && w[14] < B16 && NextPcConstraints(w, next)
    ensures (next.low, next.high) == NextPc(w)
    ensures Jumping(op, w) ==> w[30] == 0
  {
    var jumping, straight := w[15] + w[16] + w[36], w[17] + w[18] + w[35];
    JumpingOrStraight(w, op);
    SelectedLimbs(jumping, straight, w[31], w[13], w[14], next);
    if jumping == 1 { ClearBit(jumping, w[30]); }
  }

  lemma OutputSelected(w: Row, rd: Limbs)
    requires RdSelected(w) && (w[33] == 0 || w[34] == 0) && IsBit(w[29]) && w[9] < B16 && w[10] < B16
    requires OutputConstraints(w, rd)
    ensures (rd.low, rd.high) == Written(w)
  {
    MaskedLimbs(w[33], w[34], w[9], w[29]);
    MaskedLimbs(w[33], w[34], w[10], 0);
    VanishesExactly(w[33] * w[9] + w[34] * w[29] - rd.low);
    VanishesExactly(w[33] * w[10] - rd.high);
  }

  lemma MaskedLimbs(a: int, b: int, x: int, y: int)
    requires IsBit(a) && IsBit(b)
    ensures a * x == (if a == 1 then x else 0) && b * y == if b == 1 then y else 0
  {
  }

  /** What the enforced constraints fix by themselves: the flags of the mask, the selections, and the
      next program counter and rd as functions of the row. */
  lemma EnforcedMeans(w: Row, m: Memory, op: Op, rd: Limbs, next: Limbs)
    requires w[4] == OpMask(op) && InputsInRange(w, m) && Enforced(w, m, rd, next)
    ensures Flagged(w, op) && IsBit(w[29]) && SplitBranch(w) && RdSelected(w)
    ensures (rd.low, rd.high) == Written(w) && (next.low, next.high) == NextPc(w)
    ensures Jumping(op, w) ==> w[30] == 0
  {
    FlagsSound(w, op);
    SplitSound(w, op);
    RdSound(w, op);
    OutputSelected(w, rd);
    NextPcSelected(w, op, next);
  }

  /** What rd should receive. */
  function Expected(w: Row, m: Memory, op: Op): (int, int)
    requires InputsInRange(w, m)
  {
    if w[0] == 1 || op.BRANCH? then (0, 0)
    else if op.Jumps() then (Low(Wrap32(Pc(m) + 4)), High(Wrap32(Pc(m) + 4)))
    else (Bit(Condition(w[3], Rs1(m), Right(op, w, m))), 0)
  }

  /** The target of the operation and the row's own flag. */
  function Prescribed(w: Row, m: Memory, op: Op): u32
    requires InputsInRange(w, m)
  {
    Target(op, w[29] == 1, Pc(m), Rs1(m), Imm(w))
  }

  /** Where the row should continue: with bit 0 cleared if it jumps. */
  function Destined(w: Row, m: Memory, op: Op): u32
    requires InputsInRange(w, m)
  {
    var target := Prescribed(w, m, op);
    if Jumping(op, w) then target - target % 2 else target
  }

  predicate Reaches(next: Limbs, v: u32) {
    0 <= next.low < B16 && 0 <= next.high < B16 && Word(next.low, next.high) == v
  }

  lemma SecondBit(low: u16, high: u16)
    ensures Word(low, high) / 2 % 2 == low / 2 % 2
  {
    assert Word(low, high) / 2 == low / 2 + 0x8000 * high;
  }

  /** What the instruction set prescribes for the whole row: the flag of a comparison is the condition
      of funct3, rd receives what it should, and execution continues where that flag sends it. */
  predicate Executed(w: Row, m: Memory, op: Op, rd: Limbs, next: Limbs)
    requires InputsInRange(w, m)
  {
    && (!op.Jumps() ==> w[29] == Bit(Condition(w[3], Rs1(m), Right(op, w, m))))
    && (rd.low, rd.high) == Expected(w, m, op) && Reaches(next, Destined(w, m, op))
  }

  // ---------------------------------------------------------------------------------------
  // The enforced constraints alone: exactly when a row is right

  /** Where execution continues, for every word: a straight row goes where places 13 and 14 say, a
      jumping one where they say above the two low bits. */
  lemma NextPcReaches(w: Row, m: Memory, op: Op, rd: Limbs, next: Limbs, v: u32)
    requires w[4] == OpMask(op) && InputsInRange(w, m) && Enforced(w, m, rd, next)
    ensures Reaches(next, v) <==>
      w[14] == High(v) && (if Jumping(op, w) then w[13] - w[13] % 4 else w[13]) == Low(v)
  {
    EnforcedMeans(w, m, op, rd, next);
    LimbsOf(next.low, next.high, v);
  }

  lemma LimbsOf(low: u16, high: u16, v: u32)
    ensures Word(low, high) == v <==> low == Low(v) && high == High(v)
  {
  }

  /** Places 13 and 14 hold the target: its limbs on a straight row; on a jumping one its high limb, its
      low limb above the two low bits, and the target has bit 1 clear. */
  predicate PcHinted(w: Row, m: Memory, op: Op)
    requires InputsInRange(w, m)
  {
    var target := Prescribed(w, m, op);
    w[14] == High(target) && if Jumping(op, w) then w[13] / 4 == Low(target) / 4 && target / 2 % 2 == 0
                             else w[13] == Low(target)
  }

  /** The next program counter is the one the operation and the row's flag prescribe if and only if
      places 13 and 14 hold the target. */
  lemma NextPcExact(w: Row, m: Memory, op: Op, rd: Limbs, next: Limbs)
    requires w[4] == OpMask(op) && InputsInRange(w, m) && Enforced(w, m, rd, next)
    ensures Reaches(next, Destined(w, m, op)) <==> PcHinted(w, m, op)
  {
    var target := Prescribed(w, m, op);
    NextPcReaches(w, m, op, rd, next, Destined(w, m, op));
    if Jumping(op, w) { CleanedLimbs(w[13], target); }
  }

  lemma CleanedLimbs(low: u16, target: u32)
    ensures High(target - target % 2) == High(target)
    ensures low - low % 4 == Low(target - target % 2) <==> low / 4 == Low(target) / 4 && target / 2 % 2 == 0
  {
    var t := Low(target);
    LimbsOf(t, High(target), target);
    LimbsOf(t - t % 2, High(target), target - target % 2);
    EvenMultiple(t, High(target));
    SecondBit(t, High(target));
    TwoBits(t);
  }

  /** The flag of a comparison is right if and only if places 20 and 28 tell what funct3 looks at. */
  lemma FlagExactly(w: Row, m: Memory, op: Op, rd: Limbs, next: Limbs)
    requires w[4] == OpMask(op) && InputsInRange(w, m) && Enforced(w, m, rd, next) && !op.Jumps()
    ensures w[29] == Bit(Condition(w[3], Rs1(m), Right(op, w, m))) <==> FlagHinted(w, m, op)
    ensures w[28] == Bit(w[9] == 0 && w[10] == 0)
  {
    FlagsSound(w, op);
    FlagExact(w, m, op);
  }

  /** A jump that links has pc + 4 in places 9 and 10, and a comparison that writes has a flag its hints
      support; x0 and branches need nothing. */
  predicate RdHinted(w: Row, m: Memory, op: Op)
    requires InputsInRange(w, m)
  {
    w[0] == 1 || op.BRANCH? ||
    if op.Jumps() then w[9] == Low(Wrap32(Pc(m) + 4)) && w[10] == High(Wrap32(Pc(m) + 4)) else FlagHinted(w, m, op)
  }

  lemma RdExact(w: Row, m: Memory, op: Op, rd: Limbs, next: Limbs)
    requires w[4] == OpMask(op) && InputsInRange(w, m) && Enforced(w, m, rd, next)
    ensures (rd.low, rd.high) == Expected(w, m, op) <==> RdHinted(w, m, op)
  {
    EnforcedMeans(w, m, op, rd, next);
    WrittenSelects(w, op);
    if !op.Jumps() { FlagExactly(w, m, op, rd, next); }
  }

  /** An enforced row executes its instruction if and only if its unconstrained places hold what they
      are meant to hold, as far as the operation looks at them. */
  lemma RowExact(w: Row, m: Memory, op: Op, rd: Limbs, next: Limbs)
    requires w[4] == OpMask(op) && InputsInRange(w, m) && Enforced(w, m, rd, next)
    ensures Executed(w, m, op, rd, next) <==>
            (!op.Jumps() ==> FlagHinted(w, m, op)) && RdHinted(w, m, op) && PcHinted(w, m, op)
  {
    if !op.Jumps() { FlagExactly(w, m, op, rd, next); }
    RdExact(w, m, op, rd, next);
    NextPcExact(w, m, op, rd, next);
  }

  // Two rows that are enforced and wrong, at address 0 with offset 8 and operands 0

  predicate NoOperands(m: Memory) {
    m[2] == 0 && m[3] == 0 && m[7] == 0 && m[8] == 0 && m[18] == 0 && m[19] == 0
  }

  /** JAL with 1 in place 14. */
  predicate IsMisdirected(w: Row) {
    && w[0] == 0 && w[1] == 8 && w[2] == 0 && w[3] == 0 && w[4] == 1 && w[9] == 0 && w[10] == 0
    && w[11] == 0x8000 && w[12] == 0x8000 && w[13] == 0 && w[14] == 1 && w[15] == 1 && w[16] == 0 && w[17] == 0
    && w[18] == 0 && w[19] == 0 && w[20] == 0 && w[21] == 1 && w[22] == 1 && w[23] == 0 && w[28] == 1
    && w[29] == 1 && w[30] == 0 && w[31] == 0 && w[32] == 0 && w[33] == 1 && w[34] == 0 && w[35] == 0
    && w[36] == 0
  }

  /** BEQ with 1 in place 9. */
  predicate IsMissed(w: Row) {
    && w[0] == 0 && w[1] == 8 && w[2] == 0 && w[3] == 0 && w[4] == 16 && w[9] == 1 && w[10] == 0
    && w[11] == 0x8000 && w[12] == 0x8000 && w[13] == 4 && w[14] == 0 && w[15] == 0 && w[16] == 0 && w[17] == 0
    && w[18] == 0 && w[19] == 1 && w[20] == 0 && w[21] == 1 && w[22] == 1 && w[23] == 0 && w[28] == 0
    && w[29] == 0 && w[30] == 0 && w[31] == 4 && w[32] == 1 && w[33] == 0 && w[34] == 0 && w[35] == 1
    && w[36] == 0
  }

  /** There are such rows. */
  function MisdirectedJump(): (w: Row)
    ensures IsMisdirected(w)
  {
    seq(ROW_SIZE, i => MisdirectedPlace(i))
  }

  function MisdirectedPlace(i: int): Felt {
    if i == 1 then 8 else if i == 11 || i == 12 then 0x8000
    else Bit(i == 4 || i == 14 || i == 15 || i == 21 || i == 22 || i == 28 || i == 29 || i == 33)
  }

  function MissedBranch(): (w: Row)
    ensures IsMissed(w)
  {
    seq(ROW_SIZE, i => MissedPlace(i))
  }

  function MissedPlace(i: int): Felt {
    if i == 1 then 8 else if i == 4 then 16 else if i == 11 || i == 12 then 0x8000
    else if i == 13 || i == 31 then 4 else Bit(i == 9 || i == 19 || i == 21 || i == 22 || i == 32 || i == 35)
  }

  lemma MisdirectedFlags(w: Row, m: Memory)
    requires IsMisdirected(w) && NoOperands(m)
    ensures FlagConstraints(w, m)
  {
    assert Key(w) == 2;
  }

  lemma MisdirectedLink(w: Row, m: Memory)
    requires IsMisdirected(w) && NoOperands(m)
    ensures InputsInRange(w, m) && Prescribed(w, m, JAL) == 8 && Expected(w, m, JAL) == (4, 0)
  {
  }

  lemma MisdirectedEnforced(w: Row, m: Memory)
    requires IsMisdirected(w) && NoOperands(m)
    ensures Enforced(w, m, Limbs(0, 0), Limbs(0, 1))
  {
    MisdirectedFlags(w, m);
  }

  lemma NextBlock(next: Limbs)
    requires next.low == 0 && next.high == 1
    ensures Reaches(next, 65536)
  {
  }

  /** The jump continues at 65536 and not at 8, and links 0 and not 4. */
  lemma JumpMisdirected(w: Row, m: Memory, rd: Limbs, next: Limbs)
    requires IsMisdirected(w) && NoOperands(m) && rd == Limbs(0, 0) && next == Limbs(0, 1)
    ensures w[4] == OpMask(JAL) && InputsInRange(w, m) && Enforced(w, m, rd, next)
    ensures Reaches(next, 65536) && Prescribed(w, m, JAL) == 8 && Expected(w, m, JAL) == (4, 0)
  {
    MisdirectedEnforced(w, m);
    MisdirectedLink(w, m);
    NextBlock(next);
  }

  lemma MissedFlags(w: Row, m: Memory)
    requires IsMissed(w) && NoOperands(m)
    ensures FlagConstraints(w, m)
  {
    assert Key(w) == 0;
  }

  /** The branch compares two equal words, is not taken, and continues at 4 and not at 8. */
  lemma BranchMissed(w: Row, m: Memory, rd: Limbs, next: Limbs)
    requires IsMissed(w) && NoOperands(m) && rd == Limbs(0, 0) && next == Limbs(4, 0)
    ensures w[4] == OpMask(BRANCH) && InputsInRange(w, m) && Enforced(w, m, rd, next)
    ensures w[29] == 0 && Condition(w[3], Rs1(m), Right(BRANCH, w, m))
    ensures Reaches(next, 4) && Target(BRANCH, true, Pc(m), Rs1(m), Imm(w)) == 8
  {
    MissedFlags(w, m);
  }

  // ---------------------------------------------------------------------------------------
  // What the registered additions would add

  /** With the registered additions, any row holds what a finished row holds. */
  lemma RowFinished(w: Row, m: Memory, op: Op, rd: Limbs, next: Limbs, compareCarry: int, targetCarry: int)
    requires w[4] == OpMask(op) && InputsInRange(w, m) && Enforced(w, m, rd, next)
    requires Registered(w, m, compareCarry, targetCarry)
    ensures Finished(w, m, op)
  {
    EnforcedMeans(w, m, op, rd, next);
    ComparedSound(w, m, op, compareCarry);
    TargetedSound(w, m, op, targetCarry);
  }

  /** Were the registered additions enforced, the circuit would be sound for every operation and all
      operands: the flag is the condition of funct3; rd gets the return address, the flag or nothing;
      the next program counter is the prescribed target, with bit 0 cleared where the operation jumps,
      and never one with bit 1 set. */
  lemma CircuitSound(w: Row, m: Memory, op: Op, rd: Limbs, next: Limbs, compareCarry: int, targetCarry: int)
    requires w[4] == OpMask(op) && InputsInRange(w, m) && Enforced(w, m, rd, next)
    requires Registered(w, m, compareCarry, targetCarry)
    ensures Executed(w, m, op, rd, next)
    ensures Jumping(op, w) ==> Prescribed(w, m, op) / 2 % 2 == 0
  {
    EnforcedMeans(w, m, op, rd, next);
    RowFinished(w, m, op, rd, next, compareCarry, targetCarry);
    FinishedMeans(w, m, op);
    WrittenMeans(w, m, op);
    NextPcMeans(w, m, op);
    SecondBit(w[13], w[14]);
  }

  // ---------------------------------------------------------------------------------------
  // Completeness, and where it ends

  /** The middle carry of an addition. */
  function CarryOf(a: Addition): int { Bit(a.x.low + a.y.low >= B16) }

  lemma AdditionComplete(a: Addition, overflow: int)
    requires a.Valid() && IsBit(overflow)
    requires Word(a.x.low, a.x.high) + Word(a.y.low, a.y.high) == Word(a.z.low, a.z.high) + B32 * overflow
    ensures AdderConstraints(a.Low(), a.High(), CarryOf(a), overflow)
  {
    LowLimb(a, CarryOf(a), overflow);
  }

  lemma LowLimb(a: Addition, carry: int, overflow: int)
    requires a.Valid() && IsBit(overflow) && carry == CarryOf(a)
    requires Word(a.x.low, a.x.high) + Word(a.y.low, a.y.high) == Word(a.z.low, a.z.high) + B32 * overflow
    ensures a.Low() - B16 * carry == 0 && a.High() + carry - B16 * overflow == 0
  {
    var k := a.z.high + B16 * overflow - a.x.high - a.y.high;
    assert a.x.low + a.y.low == a.z.low + B16 * k;
  }

  lemma FlagsComplete(w: Row, op: Op)
    requires Flagged(w, op) && w[4] == OpMask(op)
    ensures MaskConstraints(w)
  {
  }

  lemma ComparisonComplete(w: Row, m: Memory, op: Op)
    requires Flagged(w, op) && InputsInRange(w, m) && Compared(w, m, op)
    ensures ComparisonConstraints(w, m, CarryOf(Comparison(w, m, op)))
  {
    ComparisonCollapses(w, m, op);
    AdditionComplete(Comparison(w, m, op), w[20]);
  }

  lemma TargetComplete(w: Row, m: Memory, op: Op, taken: bool)
    requires Flagged(w, op) && InputsInRange(w, m) && SplitBranch(w) && IsBit(w[29]) && Targeted(w, m, op)
    requires taken == (w[29] == 1)
    ensures TargetConstraints(w, m, CarryOf(Destination(w, m, op, taken)))
  {
    DestinationCollapses(w, m, op, taken);
    AdditionComplete(Destination(w, m, op, taken), w[23]);
  }

  lemma SelectionsComplete(w: Row, op: Op)
    requires Flagged(w, op) && IsBit(w[0]) && IsBit(w[29]) && SplitBranch(w) && RdSelected(w)
    ensures SplitConstraints(w) && RdConstraints(w)
  {
    BooleanGadgetsMean(w[19], w[29], w[35]);
    BooleanGadgetsMean(w[19], w[29], w[36]);
  }

  lemma OutputComplete(w: Row)
    requires RdSelected(w) && (w[33] == 0 || w[34] == 0) && IsBit(w[29])
    ensures OutputConstraints(w, Limbs(Written(w).0, Written(w).1))
  {
    MaskedLimbs(w[33], w[34], w[9], w[29]);
    MaskedLimbs(w[33], w[34], w[10], 0);
  }

  lemma LimbsSelected(jumping: int, straight: int, cleaned: int, low: int, high: int, next: Limbs)
    requires IsBit(jumping) && straight == 1 - jumping && next == Limbs(if jumping == 1 then cleaned else low, high)
    ensures Vanishes(jumping * cleaned + straight * low - next.low) && Vanishes((jumping + straight) * high - next.high)
  {
    assert jumping * cleaned + straight * low == next.low;
    assert (jumping + straight) * high == high;
  }

  lemma MaskedClear(jumping: int, bit1: int)
    requires IsBit(jumping) && IsBit(bit1)
    ensures Vanishes(jumping * bit1) <==> (jumping == 1 ==> bit1 == 0)
  {
    assert jumping * bit1 == if jumping == 1 then bit1 else 0;
  }

  lemma NextPcComplete(w: Row, op: Op, next: Limbs)
    requires Flagged(w, op) && SplitBranch(w) && IsBit(w[29]) && w[14] < B16 && InCleanupTable(w[13], w[30], w[31])
    requires next == Limbs(NextPc(w).0, NextPc(w).1)
    ensures NextPcConstraints(w, next) <==> (Jumping(op, w) ==> w[30] == 0)
  {
    var jumping, straight := w[15] + w[16] + w[36], w[17] + w[18] + w[35];
    JumpingOrStraight(w, op);
    LimbsSelected(jumping, straight, w[31], w[13], w[14], next);
    MaskedClear(jumping, w[30]);
  }

  /** A finished row, as the generator leaves it, meets both registered additions, and the enforced
      constraints exactly when it does not continue at a jump target with bit 1 set. */
  lemma RowComplete(w: Row, m: Memory, op: Op)
    requires Finished(w, m, op) && w[4] == OpMask(op)
    ensures Registered(w, m, CarryOf(Comparison(w, m, op)), CarryOf(Destination(w, m, op, w[29] == 1)))
    ensures Enforced(w, m, Limbs(Written(w).0, Written(w).1), Limbs(NextPc(w).0, NextPc(w).1)) <==>
            (Jumping(op, w) ==> Prescribed(w, m, op) / 2 % 2 == 0)
  {
    FlagsComplete(w, op);
    ComparisonComplete(w, m, op);
    TargetComplete(w, m, op, w[29] == 1);
    SelectionsComplete(w, op);
    OutputComplete(w);
    NextPcComplete(w, op, Limbs(NextPc(w).0, NextPc(w).1));
    TargetHeld(w, m, op);
    SecondBit(w[13], w[14]);
  }
}
