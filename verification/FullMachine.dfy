/** The row of the full machine, its operation families, and the adder they share: at most one of
    nine additions is active on a row, and all of them use the same two carries. */
module FullMachine {
  import opened Words
  import opened Mersenne31
  import opened Witness

  const ROW_SIZE := 197
  const MEMORY_SIZE := 22

  type Row = w: seq<int> | |w| == ROW_SIZE && Canonical(w) witness seq(ROW_SIZE, i => 0)
  type Memory = m: seq<int> | |m| == MEMORY_SIZE && Canonical(m) witness seq(MEMORY_SIZE, i => 0)

  datatype Family = ADD | SUB | AUIPC | LUI | BRANCH | JUMP | LOAD | STORE | MULTIPLY | DIVIDE | BINARY | SHIFT | CSR

  /** Exactly the flag of the family is set. */
  predicate Flagged(w: seq<int>, f: Family)
    requires |w| == ROW_SIZE
  {
    && w[42] == Bit(f.ADD?) && w[43] == Bit(f.AUIPC?) && w[44] == Bit(f.BINARY?) && w[45] == Bit(f.BRANCH?)
    && w[46] == Bit(f.CSR?) && w[47] == Bit(f.DIVIDE?) && w[48] == Bit(f.JUMP?) && w[49] == Bit(f.LUI?)
    && w[50] == Bit(f.LOAD?) && w[51] == Bit(f.MULTIPLY?) && w[52] == Bit(f.SHIFT?) && w[53] == Bit(f.SUB?)
    && w[54] == Bit(f.STORE?)
  }

  /** A register as two limbs. */
  datatype Reg = Reg(low: int, high: int) {
    predicate Valid() { 0 <= low < B16 && 0 <= high < B16 }
    function Value(): u32 requires Valid() { Word(low, high) }
  }

  // The registers of a row: program counter, first operand, second operand or immediate in its
  // place, immediate, jump base, and the two shared outputs with the checked sum of a division.

  function Pc(w: Row): Reg { Reg(w[21], w[80]) }
  function Rs1(m: Memory): Reg { Reg(m[8], m[9]) }
  function Rs2(w: Row): Reg { Reg(w[114], w[93]) }
  function Imm(w: Row): Reg { Reg(w[112], w[113]) }
  function Base(w: Row): Reg { Reg(w[154], w[155]) }
  function First(w: Row): Reg { Reg(w[23], w[24]) }
  function Second(w: Row): Reg { Reg(w[25], w[26]) }
  function Checked(w: Row): Reg { Reg(w[27], w[28]) }

  /** The limbs that lookups and memory have range-checked. */
  predicate InputsInRange(w: Row, m: Memory) {
    Pc(w).Valid() && Rs1(m).Valid() && Rs2(w).Valid() && Imm(w).Valid()
  }

  predicate OutputsInRange(w: Row) {
    First(w).Valid() && Second(w).Valid() && Checked(w).Valid() && Base(w).Valid()
  }

  // ---------------------------------------------------------------------------------------
  // The shared addition

  /** x + y = z: a subtraction has its difference as x and its first operand as z. */
  datatype Addition = Addition(x: Reg, y: Reg, z: Reg)

  /** The sum of one limb over the nine flagged additions. */
  function LowSum(w: Row, m: Memory): int {
    w[42] * (m[8] + w[114] - w[23]) + w[53] * (w[23] + w[114] - m[8]) + w[43] * (w[21] + w[112] - w[23])
    + w[135] * (w[25] + w[114] - w[27]) + w[136] * (w[27] + w[114] - w[25]) + w[45] * (w[23] + w[114] - m[8])
    + w[48] * (w[154] + w[112] - w[23]) + w[50] * (m[8] + w[112] - w[23]) + w[54] * (m[8] + w[112] - w[23])
  }

  function HighSum(w: Row, m: Memory): int {
    w[42] * (m[9] + w[93] - w[24]) + w[53] * (w[24] + w[93] - m[9]) + w[43] * (w[80] + w[113] - w[24])
    + w[135] * (w[26] + w[93] - w[28]) + w[136] * (w[28] + w[93] - w[26]) + w[45] * (w[24] + w[93] - m[9])
    + w[48] * (w[155] + w[113] - w[24]) + w[50] * (m[9] + w[113] - w[24]) + w[54] * (m[9] + w[113] - w[24])
  }

  /** Middle carry in place 63, carry out in place 58; a branch also adds its offset to the program
      counter, with the carries in places 64 and 62. */
  predicate AdderConstraints(w: Row, m: Memory) {
    && IsBit(w[63]) && IsBit(w[58]) && IsBit(w[64]) && IsBit(w[62])
    && Vanishes(LowSum(w, m) - B16 * w[63])
    && Vanishes(HighSum(w, m) + w[63] - B16 * w[58])
    && Vanishes(w[45] * (w[21] + w[112] - w[25]) - B16 * w[64])
    && Vanishes(w[45] * (w[80] + w[113] - w[26]) + w[64] - B16 * w[62])
  }

  /** A division either adds its divisor to the remainder or subtracts it: places 135 and 136 split
      its flag by place 134. */
  predicate SplitConstraints(w: Row) {
    Vanishes(w[47] * w[134] - w[135]) && Vanishes(w[47] - w[47] * w[134] - w[136])
  }

  /** The base of a jump: the program counter or the first operand. */
  predicate BaseConstraints(w: Row, m: Memory) {
    Vanishes((w[21] - m[8]) * w[55] + m[8] - w[154]) && Vanishes((w[80] - m[9]) * w[55] + m[9] - w[155])
  }

  /** The one addition that is active, if any. */
  function ActiveAddition(f: Family, w: Row, m: Memory): Addition {
    match f
    case ADD => Addition(Rs1(m), Rs2(w), First(w))
    case SUB => Addition(First(w), Rs2(w), Rs1(m))
    case BRANCH => Addition(First(w), Rs2(w), Rs1(m))
    case AUIPC => Addition(Pc(w), Imm(w), First(w))
    case JUMP => Addition(Base(w), Imm(w), First(w))
    case LOAD => Addition(Rs1(m), Imm(w), First(w))
    case STORE => Addition(Rs1(m), Imm(w), First(w))
    case DIVIDE =>
      if w[134] == 1 then Addition(Second(w), Rs2(w), Checked(w)) else Addition(Checked(w), Rs2(w), Second(w))
    case _ => Addition(Reg(0, 0), Reg(0, 0), Reg(0, 0))
  }

  ghost predicate Holds(a: Addition, carry: int, overflow: int) {
    && IsBit(carry) && IsBit(overflow)
    && a.x.low + a.y.low == a.z.low + B16 * carry
    && a.x.high + a.y.high + carry == a.z.high + B16 * overflow
  }

  lemma SplitSound(w: Row, f: Family)
    requires Flagged(w, f) && SplitConstraints(w) && IsBit(w[134])
    ensures w[135] == Bit(f.DIVIDE? && w[134] == 1) && w[136] == Bit(f.DIVIDE? && w[134] == 0)
  {
  }

  lemma SumsCollapse(w: Row, m: Memory, f: Family)
    requires Flagged(w, f) && w[135] == Bit(f.DIVIDE? && w[134] == 1) && w[136] == Bit(f.DIVIDE? && w[134] == 0)
    requires IsBit(w[134])
    ensures var a := ActiveAddition(f, w, m);
      LowSum(w, m) == a.x.low + a.y.low - a.z.low && HighSum(w, m) == a.x.high + a.y.high - a.z.high
  {
  }

  lemma AdditionVanishes(a: Addition, carry: int, overflow: int)
    requires a.x.Valid() && a.y.Valid() && a.z.Valid() && IsBit(carry) && IsBit(overflow)
    ensures Vanishes(a.x.low + a.y.low - a.z.low - B16 * carry)
         && Vanishes(a.x.high + a.y.high - a.z.high + carry - B16 * overflow)
        <==> Holds(a, carry, overflow)
  {
    var low, high := a.x.low + a.y.low - a.z.low - B16 * carry, a.x.high + a.y.high - a.z.high + carry - B16 * overflow;
    if Vanishes(low) { VanishesExactly(low); }
    if Vanishes(high) { VanishesExactly(high); }
  }

  /** Whichever family is active, its own addition holds limb by limb over the shared carries; and
      conversely, if it does, the shared constraints are satisfied. */
  lemma SharedAddition(w: Row, m: Memory, f: Family)
    requires Flagged(w, f) && IsBit(w[134]) && SplitConstraints(w) && InputsInRange(w, m) && OutputsInRange(w)
    requires IsBit(w[63]) && IsBit(w[58])
    ensures Vanishes(LowSum(w, m) - B16 * w[63]) && Vanishes(HighSum(w, m) + w[63] - B16 * w[58])
        <==> Holds(ActiveAddition(f, w, m), w[63], w[58])
  {
    SplitSound(w, f);
    SumsCollapse(w, m, f);
    AdditionVanishes(ActiveAddition(f, w, m), w[63], w[58]);
  }

  lemma AdditionMeans(a: Addition, carry: int, overflow: int)
    requires a.x.Valid() && a.y.Valid() && a.z.Valid() && Holds(a, carry, overflow)
    ensures a.x.Value() + a.y.Value() == a.z.Value() + B32 * overflow
    ensures a.z.Value() == Wrap32(a.x.Value() + a.y.Value())
    ensures a.x.Value() == Wrap32(a.z.Value() - a.y.Value()) && overflow == Bit(a.z.Value() < a.y.Value())
  {
  }

  lemma BaseSound(w: Row, m: Memory)
    requires BaseConstraints(w, m) && IsBit(w[55]) && InputsInRange(w, m)
    ensures Base(w) == if w[55] == 1 then Pc(w) else Rs1(m)
  {
  }

  /** What the shared adder computes for each family, for every choice of the hints. */
  lemma AdderSound(w: Row, m: Memory, f: Family)
    requires Flagged(w, f) && IsBit(w[134]) && SplitConstraints(w) && InputsInRange(w, m) && OutputsInRange(w)
    requires AdderConstraints(w, m)
    ensures f.ADD? ==> First(w).Value() == Wrap32(Rs1(m).Value() + Rs2(w).Value())
    ensures f.SUB? || f.BRANCH? ==> First(w).Value() == Wrap32(Rs1(m).Value() - Rs2(w).Value())
    ensures f.SUB? || f.BRANCH? ==> w[58] == Bit(Rs1(m).Value() < Rs2(w).Value())
    ensures f.AUIPC? ==> First(w).Value() == Wrap32(Pc(w).Value() + Imm(w).Value())
    ensures f.JUMP? ==> First(w).Value() == Wrap32(Base(w).Value() + Imm(w).Value())
    ensures f.LOAD? || f.STORE? ==> First(w).Value() == Wrap32(Rs1(m).Value() + Imm(w).Value())
    ensures f.DIVIDE? && w[134] == 1 ==> Second(w).Value() + Rs2(w).Value() == Checked(w).Value() + B32 * w[58]
    ensures f.DIVIDE? && w[134] == 0 ==> Second(w).Value() - Rs2(w).Value() == Checked(w).Value() - B32 * w[58]
    ensures f.BRANCH? ==> Second(w).Value() == Wrap32(Pc(w).Value() + Imm(w).Value())
  {
    SharedAddition(w, m, f);
    AdditionSound(w, m, f, ActiveAddition(f, w, m));
    if f.BRANCH? { BranchTargetSound(w, m); }
  }

  /** A jump goes to the program counter or to the first operand, plus the immediate. */
  lemma JumpTargetSound(w: Row, m: Memory)
    requires Flagged(w, JUMP) && IsBit(w[134]) && IsBit(w[55]) && InputsInRange(w, m) && OutputsInRange(w)
    requires SplitConstraints(w) && AdderConstraints(w, m) && BaseConstraints(w, m)
    ensures First(w).Value() == Wrap32((if w[55] == 1 then Pc(w).Value() else Rs1(m).Value()) + Imm(w).Value())
  {
    AdderSound(w, m, JUMP);
    BaseSound(w, m);
  }

  lemma AdditionSound(w: Row, m: Memory, f: Family, a: Addition)
    requires a == ActiveAddition(f, w, m) && InputsInRange(w, m) && OutputsInRange(w) && Holds(a, w[63], w[58])
    ensures a.x.Value() + a.y.Value() == a.z.Value() + B32 * w[58]
    ensures a.z.Value() == Wrap32(a.x.Value() + a.y.Value())
    ensures a.x.Value() == Wrap32(a.z.Value() - a.y.Value()) && w[58] == Bit(a.z.Value() < a.y.Value())
  {
    AdditionMeans(a, w[63], w[58]);
  }

  lemma BranchTargetSound(w: Row, m: Memory)
    requires w[45] == 1 && InputsInRange(w, m) && OutputsInRange(w) && AdderConstraints(w, m)
    ensures Second(w).Value() == Wrap32(Pc(w).Value() + Imm(w).Value())
  {
    var a := Addition(Pc(w), Imm(w), Second(w));
    AdditionVanishes(a, w[64], w[62]);
    AdditionMeans(a, w[64], w[62]);
  }

  /** What the instruction set prescribes for the words that the shared adder fills: sums, differences
      with their borrow, jump and branch targets, addresses. */
  predicate Summed(f: Family, w: Row, m: Memory)
    requires InputsInRange(w, m) && OutputsInRange(w)
  {
    match f
    case ADD => First(w).Value() == Wrap32(Rs1(m).Value() + Rs2(w).Value())
    case SUB => Subtracted(w, m)
    case AUIPC => First(w).Value() == Wrap32(Pc(w).Value() + Imm(w).Value())
    case BRANCH => Subtracted(w, m) && Second(w).Value() == Wrap32(Pc(w).Value() + Imm(w).Value())
    case JUMP =>
      First(w).Value() == Wrap32((if w[55] == 1 then Pc(w).Value() else Rs1(m).Value()) + Imm(w).Value())
    case LOAD => First(w).Value() == Wrap32(Rs1(m).Value() + Imm(w).Value())
    case STORE => First(w).Value() == Wrap32(Rs1(m).Value() + Imm(w).Value())
    case _ => true
  }

  predicate Subtracted(w: Row, m: Memory)
    requires InputsInRange(w, m) && OutputsInRange(w)
  {
    && First(w).Value() == Wrap32(Rs1(m).Value() - Rs2(w).Value())
    && w[58] == Bit(Rs1(m).Value() < Rs2(w).Value())
  }

  lemma SummedSound(w: Row, m: Memory, f: Family)
    requires Flagged(w, f) && IsBit(w[134]) && SplitConstraints(w) && InputsInRange(w, m) && OutputsInRange(w)
    requires AdderConstraints(w, m) && BaseConstraints(w, m) && IsBit(w[55])
    ensures Summed(f, w, m)
  {
    AdderSound(w, m, f);
    if f.JUMP? { JumpTargetSound(w, m); }
  }
}
