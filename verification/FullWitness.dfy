/** What the witness generator of the full machine leaves in its row, step by step, and why the
    finished row satisfies the constraints whatever the family of the instruction. */
module FullWitness {
  import opened Words
  import opened Mersenne31
  import opened Gadgets
  import opened LimbChain
  import opened MExtension
  import opened Witness
  import opened FullMachine
  import opened FullMulDiv
  import C = MulDivCircuit
  import M = MulDivWitness

  /** The inputs of a row: one family, its minor flags, and looked-up signs. */
  ghost predicate Prepared(w: Row, m: Memory, f: Family, op: Op) {
    && Flagged(w, f) && IsBit(w[55]) && IsBit(w[56]) && IsBit(w[57]) && InputsInRange(w, m) && SignLookups(w, m)
    && (f.MULTIPLY? || f.DIVIDE? ==> f == FamilyOf(op) && MinorFlags(w, op))
  }

  // ---------------------------------------------------------------------------------------
  // The shared outputs

  /** Nothing has been written to the shared places yet. */
  predicate Blank(w: Row) {
    First(w).Valid() && Second(w).Valid() && w[58] == 0 && w[62] == 0
  }

  predicate Balanced(a: Addition, overflow: int) {
    && a.x.Valid() && a.y.Valid() && a.z.Valid() && IsBit(overflow)
    && a.x.Value() + a.y.Value() == a.z.Value() + B32 * overflow
  }

  /** The words of a product whose operands have the signs of places 123 and 124. */
  predicate ProductComputed(w: Row, m: Memory)
    requires InputsInRange(w, m) && First(w).Valid() && Second(w).Valid()
  {
    var p := (Rs1(m).Value() - B32 * w[123]) * (Rs2(w).Value() - B32 * w[124]);
    First(w).Value() == Wrap32(p) && Second(w).Value() == Wrap32(p / B32)
  }

  /** What the active family leaves in the shared outputs. */
  predicate OutputOf(f: Family, w: Row, m: Memory, op: Op)
    requires InputsInRange(w, m)
  {
    && First(w).Valid() && Second(w).Valid()
    && (if f.DIVIDE? then (First(w).Value(), Second(w).Value()) == ResultWords(op, Rs1(m).Value(), Rs2(w).Value())
        else Balanced(ActiveAddition(f, w, m), w[58]))
    && (if f.BRANCH? then Balanced(Addition(Pc(w), Imm(w), Second(w)), w[62]) else w[62] == 0)
    && (f.MULTIPLY? ==> ProductComputed(w, m))
  }

  /** The step at which a family writes them; the families that never do count as the first. */
  function Stage(f: Family): nat {
    if f.MULTIPLY? then 2
    else if f.DIVIDE? then 4
    else if f.BRANCH? then 6
    else if f.JUMP? || f.LOAD? || f.STORE? then 7
    else 0
  }

  // ---------------------------------------------------------------------------------------
  // The other steps

  predicate FactorSignsComputed(w: Row) {
    && w[122] == Bit(w[56] == 1 || w[57] == 1)
    && w[123] == Bit(w[122] == 1 && w[91] == 1) && w[124] == Bit(w[56] == 1 && w[94] == 1)
  }

  predicate DivisionSignsComputed(w: Row, s: Scratch) {
    && w[127] == Bit(w[55] == 1 || w[57] == 1)
    && w[128] == Bit(w[94] == 1 && w[127] == 1) && s[1] == Bit(w[91] == 1 && w[127] == 1)
  }

  predicate SignsCombined(w: Row, s: Scratch) {
    w[129] == Bit(w[128] != s[1]) && w[132] == 0xffff * s[1] && w[142] == Bit(w[55] == 1 || w[56] == 1)
  }

  predicate BaseComputed(w: Row, m: Memory) {
    Base(w) == if w[55] == 1 then Pc(w) else Rs1(m)
  }

  ghost predicate ZeroTested(low: Felt, high: Felt, flag: Felt, inverse: Felt) {
    flag == Bit(low + high == 0) && inverse == InverseOrZero(Reduce(low + high))
  }

  /** The first output of a division or of a branch. */
  ghost predicate FirstTested(w: Row) {
    && w[172] == (if w[47] == 1 || w[45] == 1 then w[23] else 0)
    && w[173] == (if w[47] == 1 || w[45] == 1 then w[24] else 0)
    && ZeroTested(w[172], w[173], w[59], w[174])
  }

  ghost predicate SecondTested(w: Row) {
    && w[175] == (if w[47] == 1 then w[25] else 0) && w[176] == (if w[47] == 1 then w[26] else 0)
    && ZeroTested(w[175], w[176], w[60], w[177])
  }

  ghost predicate DivisorTested(w: Row) {
    && w[178] == (if w[47] == 1 then w[114] else 0) && w[179] == (if w[47] == 1 then w[93] else 0)
    && ZeroTested(w[178], w[179], w[61], w[180])
  }

  predicate TargetCarried(w: Row) {
    && IsBit(w[64]) && (w[45] == 1 ==> w[21] + w[112] == w[25] + B16 * w[64]) && (w[45] == 0 ==> w[64] == 0)
  }

  ghost predicate ZerosTested(w: Row) {
    FirstTested(w) && SecondTested(w) && DivisorTested(w) && TargetCarried(w)
  }

  function Chosen(w: Row, product: Felt, quotient: Felt): Felt {
    if w[51] == 1 then product else if w[47] == 1 then quotient else 0
  }

  predicate LeftPicked(w: Row, m: Memory, s: Scratch) {
    s[2] == Chosen(w, m[8], w[114]) && s[3] == Chosen(w, m[9], w[93]) && w[181] == Chosen(w, w[123], w[128])
  }

  predicate RightPicked(w: Row, s: Scratch) {
    s[4] == Chosen(w, w[114], w[23]) && s[5] == Chosen(w, w[93], w[24])
  }

  predicate FactorsPicked(w: Row, m: Memory, s: Scratch) {
    LeftPicked(w, m, s) && RightPicked(w, s)
  }

  predicate AddendPicked(w: Row) {
    w[183] == Chosen(w, 0, w[25]) && w[184] == Chosen(w, 0, w[26])
  }

  predicate ResultPicked(w: Row, m: Memory) {
    && w[186] == Chosen(w, w[23], m[8]) && w[187] == Chosen(w, w[24], m[9])
    && w[188] == Chosen(w, w[25], w[132]) && w[189] == Chosen(w, w[26], w[132])
  }

  predicate OperandsPicked(w: Row, m: Memory, s: Scratch) {
    FactorsPicked(w, m, s) && AddendPicked(w) && ResultPicked(w, m)
  }

  predicate BytesSplit(w: Row, s: Scratch) {
    && w[9] < B8 && w[10] < B8 && w[11] < B8 && w[12] < B8 && w[13] < B8 && w[14] < B8 && w[15] < B8 && w[16] < B8
    && w[9] + B8 * w[10] == s[2] && w[11] + B8 * w[12] == s[3]
    && w[13] + B8 * w[14] == s[4] && w[15] + B8 * w[16] == s[5]
  }

  /** The signs that the last selections will write, known from the zero tests on. */
  function QuotientSign(w: Row): Felt { Bit(w[129] == 1 && w[59] == 0) }

  function RemainderSign(w: Row, s: Scratch): Felt { Bit(s[1] == 1 && w[60] == 0) }

  function FinalOp2(w: Row): Factor { Factor(w[13], w[14], w[15], w[16], Chosen(w, w[124], QuotientSign(w))) }

  function FinalAddend(w: Row, s: Scratch): Addend { Addend(w[183], w[184], Chosen(w, 0, RemainderSign(w, s))) }

  function FinalCarries(w: Row, s: Scratch): Carries {
    ComputedCarries(Op1(w), FinalOp2(w), FinalAddend(w, s), Product(w))
  }

  predicate LowCarriesStored(w: Row, s: Scratch) {
    && w[17] < B8 && w[18] < B8 && IsBit(w[65]) && IsBit(w[66]) && IsBit(w[67])
    && w[17] + 0x100 * w[65] == FinalCarries(w, s).c0
    && w[18] + 0x100 * w[66] + 0x200 * w[67] == FinalCarries(w, s).c1
  }

  predicate ProductPicked(w: Row) {
    w[125] == (if w[55] == 1 then w[23] else w[25]) && w[126] == (if w[55] == 1 then w[24] else w[26])
  }

  predicate SignsPicked(w: Row, s: Scratch) {
    w[130] == QuotientSign(w) && w[131] == RemainderSign(w, s)
  }

  predicate CheckPicked(w: Row) {
    && w[133] == Bit(w[47] == 1 && w[61] == 1)
    && w[134] == Bit(w[128] != w[131]) && w[135] == Bit(w[47] == 1 && w[134] == 1)
  }

  predicate OutputPicked(w: Row, s: Scratch) {
    ProductPicked(w) && SignsPicked(w, s) && CheckPicked(w)
  }

  predicate RemainderCompared(w: Row, m: Memory, f: Family) {
    && w[136] == Bit(w[47] == 1 && w[134] == 0)
    && (f.DIVIDE? ==> Balanced(ActiveAddition(f, w, m), w[58]))
  }

  ghost predicate BoundCompared(w: Row) {
    && w[137] == Bit(w[58] != w[134])
    && ZeroTested(w[27], w[28], w[138], w[139])
    && w[140] == Bit(w[137] == 0 && w[138] == 0) && w[141] == (if w[131] == 1 then w[140] else w[137])
  }

  predicate QuotientPicked(w: Row) {
    w[143] == (if w[142] == 1 then w[23] else w[25]) && w[144] == (if w[142] == 1 then w[24] else w[26])
  }

  ghost predicate BoundTested(w: Row) {
    BoundCompared(w) && QuotientPicked(w)
  }

  ghost predicate MiddleCarried(w: Row, m: Memory, f: Family) {
    IsBit(w[63]) && Holds(ActiveAddition(f, w, m), w[63], w[58])
  }

  predicate HighCarriesStored(w: Row, s: Scratch) {
    && w[182] == Chosen(w, w[124], QuotientSign(w)) && w[185] == Chosen(w, 0, RemainderSign(w, s))
    && w[19] < B8 && w[20] < B8 && IsBit(w[68]) && IsBit(w[69]) && IsBit(w[70]) && IsBit(w[71]) && IsBit(w[72])
    && IsBit(w[73])
    && w[19] + 0x100 * w[68] + 0x200 * w[69] + 0x400 * w[70] == FinalCarries(w, s).c2
    && w[20] + 0x100 * w[71] + 0x200 * w[72] + 0x400 * w[73] == FinalCarries(w, s).c3
  }

  // ---------------------------------------------------------------------------------------
  // The order in which the row is filled

  datatype Step =
    AddFirst | FactorSigns | FillProduct | DivisionSigns | FillQuotient | CombineSigns | Compare | AddLast
    | TestZeros | PickOperands | SplitBytes | LowCarries | PickOutput | CompareRemainder | TestBound
    | MiddleCarry | HighCarries
  {
    function Order(): nat {
      match this
      case AddFirst => 0
      case FactorSigns => 1
      case FillProduct => 2
      case DivisionSigns => 3
      case FillQuotient => 4
      case CombineSigns => 5
      case Compare => 6
      case AddLast => 7
      case TestZeros => 8
      case PickOperands => 9
      case SplitBytes => 10
      case LowCarries => 11
      case PickOutput => 12
      case CompareRemainder => 13
      case TestBound => 14
      case MiddleCarry => 15
      case HighCarries => 16
    }
  }

  const STEPS := 17

  /** The step that writes a place; the shared outputs depend on the family. */
  function WrittenAt(slot: int, f: Family): int {
    if 23 <= slot <= 26 || slot == 62 then Stage(f)
    else if slot == 58 then (if f.DIVIDE? then 13 else Stage(f))
    else if slot == 27 || slot == 28 then (if f.DIVIDE? then 13 else -1)
    else if 122 <= slot <= 124 then 1
    else if slot == 127 || slot == 128 then 3
    else if slot == 129 || slot == 132 || slot == 142 then 5
    else if slot == 154 || slot == 155 then 7
    else if slot == 64 || 59 <= slot <= 61 || 172 <= slot <= 180 then 8
    else if slot == 181 || slot == 183 || slot == 184 || 186 <= slot <= 189 then 9
    else if 9 <= slot <= 16 then 10
    else if slot == 17 || slot == 18 || 65 <= slot <= 67 then 11
    else if slot == 125 || slot == 126 || slot == 130 || slot == 131 || 133 <= slot <= 135 then 12
    else if slot == 136 then 13
    else if 137 <= slot <= 141 || slot == 143 || slot == 144 then 14
    else if slot == 63 then 15
    else if slot == 182 || slot == 185 || slot == 19 || slot == 20 || 68 <= slot <= 73 then 16
    else -1
  }

  /** A step writes its own places of the row and, in two cases, of the scratch. */
  ghost predicate Writes(before: Row, after: Row, f: Family, step: Step) {
    forall i :: 0 <= i < ROW_SIZE && WrittenAt(i, f) != step.Order() ==> after[i] == before[i]
  }

  ghost predicate Scratches(before: Scratch, after: Scratch, step: Step) {
    && (step != DivisionSigns ==> after[1] == before[1])
    && (step != PickOperands ==> after[2] == before[2] && after[3] == before[3])
    && (step != PickOperands ==> after[4] == before[4] && after[5] == before[5])
  }

  /** All a step depends on. */
  datatype State = State(w: Row, m: Memory, s: Scratch, f: Family, op: Op)

  ghost predicate Computed(step: Step, t: State)
    requires InputsInRange(t.w, t.m)
  {
    match step
    case FactorSigns => FactorSignsComputed(t.w)
    case DivisionSigns => DivisionSignsComputed(t.w, t.s)
    case CombineSigns => SignsCombined(t.w, t.s)
    case AddLast => BaseComputed(t.w, t.m)
    case TestZeros => ZerosTested(t.w)
    case PickOperands => OperandsPicked(t.w, t.m, t.s)
    case SplitBytes => BytesSplit(t.w, t.s)
    case LowCarries => LowCarriesStored(t.w, t.s)
    case PickOutput => OutputPicked(t.w, t.s)
    case CompareRemainder => RemainderCompared(t.w, t.m, t.f)
    case TestBound => BoundTested(t.w)
    case MiddleCarry => MiddleCarried(t.w, t.m, t.f)
    case HighCarries => HighCarriesStored(t.w, t.s)
    case _ => true
  }

  ghost predicate OutputsAfter(t: State, n: nat)
    requires InputsInRange(t.w, t.m)
  {
    Checked(t.w).Valid() && if n <= Stage(t.f) then Blank(t.w) else OutputOf(t.f, t.w, t.m, t.op)
  }

  /** The first n steps have left what they compute. */
  ghost predicate Done(t: State, n: nat) {
    && Prepared(t.w, t.m, t.f, t.op) && OutputsAfter(t, n)
    && forall step: Step {:trigger Computed(step, t)} :: step.Order() < n ==> Computed(step, t)
  }

  ghost predicate Follows(t: State, u: State, step: Step) {
    u.m == t.m && u.f == t.f && u.op == t.op && Writes(t.w, u.w, t.f, step) && Scratches(t.s, u.s, step)
  }

  /** The places filled before the run. */
  predicate IsInput(slot: int) {
    slot == 21 || slot == 80 || slot == 91 || slot == 93 || slot == 94 || 42 <= slot <= 57 || 112 <= slot <= 114
  }

  lemma InputsKept(before: Row, after: Row, f: Family, step: Step)
    requires Writes(before, after, f, step)
    ensures forall i :: IsInput(i) ==> after[i] == before[i]
  {
    forall i | IsInput(i)
      ensures after[i] == before[i]
    {
      assert WrittenAt(i, f) == -1;
    }
  }

  lemma PreparedKept(t: State, u: State, step: Step)
    requires Prepared(t.w, t.m, t.f, t.op) && Follows(t, u, step)
    ensures Prepared(u.w, u.m, u.f, u.op)
  {
    SamePreparation(t, u, step);
  }

  lemma SamePreparation(t: State, u: State, step: Step)
    requires Follows(t, u, step)
    ensures forall g :: Flagged(u.w, g) == Flagged(t.w, g)
    ensures Pc(u.w) == Pc(t.w) && Rs2(u.w) == Rs2(t.w) && Imm(u.w) == Imm(t.w)
    ensures u.w[91] == t.w[91] && u.w[93] == t.w[93] && u.w[94] == t.w[94] && u.w[45] == t.w[45]
    ensures u.w[47] == t.w[47] && u.w[51] == t.w[51]
    ensures u.w[55] == t.w[55] && u.w[56] == t.w[56] && u.w[57] == t.w[57]
  {
    InputsKept(t.w, u.w, t.f, step);
  }

  // What a step computes depends on no place written later.

  lemma FactorSignsKept(t: State, u: State, next: Step)
    requires Follows(t, u, next) && next.Order() > 1 && FactorSignsComputed(t.w)
    ensures FactorSignsComputed(u.w)
  {
    SamePreparation(t, u, next);
  }

  lemma DivisionSignsKept(t: State, u: State, next: Step)
    requires Follows(t, u, next) && next.Order() > 3 && DivisionSignsComputed(t.w, t.s)
    ensures DivisionSignsComputed(u.w, u.s)
  {
    SamePreparation(t, u, next);
  }

  lemma SignsCombinedKept(t: State, u: State, next: Step)
    requires Follows(t, u, next) && next.Order() > 5 && SignsCombined(t.w, t.s)
    ensures SignsCombined(u.w, u.s)
  {
    SamePreparation(t, u, next);
  }

  lemma BaseKept(t: State, u: State, next: Step)
    requires Follows(t, u, next) && next.Order() > 7 && BaseComputed(t.w, t.m)
    ensures BaseComputed(u.w, u.m)
  {
    SamePreparation(t, u, next);
  }

  /** From the zero tests on, the output words are settled. */
  lemma WordsKept(t: State, u: State, next: Step)
    requires Follows(t, u, next) && next.Order() > Stage(t.f)
    ensures First(u.w) == First(t.w) && Second(u.w) == Second(t.w) && u.w[62] == t.w[62]
    ensures !t.f.DIVIDE? ==> u.w[58] == t.w[58]
  {
  }

  lemma ZerosTestedKept(t: State, u: State, next: Step)
    requires Follows(t, u, next) && next.Order() > 8 && ZerosTested(t.w)
    ensures ZerosTested(u.w)
  {
    SamePreparation(t, u, next);
    WordsKept(t, u, next);
    assert forall i :: 172 <= i <= 180 ==> WrittenAt(i, t.f) == 8;
    assert forall i :: 59 <= i <= 61 ==> WrittenAt(i, t.f) == 8;
    assert WrittenAt(64, t.f) == 8;
  }

  lemma OperandsPickedKept(t: State, u: State, next: Step)
    requires Follows(t, u, next) && next.Order() > 9 && OperandsPicked(t.w, t.m, t.s)
    ensures OperandsPicked(u.w, u.m, u.s)
  {
    SamePreparation(t, u, next);
    WordsKept(t, u, next);
    SignSlotsKept(t, u, next);
    assert forall i :: 186 <= i <= 189 || i == 181 || i == 183 || i == 184 ==> WrittenAt(i, t.f) == 9;
  }

  lemma SignSlotsKept(t: State, u: State, next: Step)
    requires Follows(t, u, next) && next.Order() > 5
    ensures u.w[123] == t.w[123] && u.w[124] == t.w[124] && u.w[128] == t.w[128] && u.w[129] == t.w[129]
    ensures u.w[132] == t.w[132] && u.w[142] == t.w[142]
  {
  }

  lemma BytesSplitKept(t: State, u: State, next: Step)
    requires Follows(t, u, next) && next.Order() > 10 && BytesSplit(t.w, t.s)
    ensures BytesSplit(u.w, u.s)
  {
    assert forall i :: 9 <= i <= 16 ==> WrittenAt(i, t.f) == 10;
  }

  lemma ZeroFlagsKept(t: State, u: State, next: Step)
    requires Follows(t, u, next) && next.Order() > 8
    ensures u.w[59] == t.w[59] && u.w[60] == t.w[60] && u.w[61] == t.w[61]
  {
  }

  lemma OutputPickedKept(t: State, u: State, next: Step)
    requires Follows(t, u, next) && next.Order() > 12 && OutputPicked(t.w, t.s)
    ensures OutputPicked(u.w, u.s)
  {
    SamePreparation(t, u, next);
    WordsKept(t, u, next);
    SignSlotsKept(t, u, next);
    ZeroFlagsKept(t, u, next);
    PickedSlotsKept(t, u, next);
  }

  lemma PickedSlotsKept(t: State, u: State, next: Step)
    requires Follows(t, u, next) && next.Order() > 12
    ensures u.w[125] == t.w[125] && u.w[126] == t.w[126] && u.w[130] == t.w[130] && u.w[131] == t.w[131]
    ensures u.w[133] == t.w[133] && u.w[134] == t.w[134] && u.w[135] == t.w[135]
  {
  }

  lemma CheckedKept(t: State, u: State, next: Step)
    requires Follows(t, u, next) && next.Order() > 13
    ensures Checked(u.w) == Checked(t.w) && u.w[58] == t.w[58] && u.w[136] == t.w[136]
  {
  }

  lemma RemainderComparedKept(t: State, u: State, next: Step)
    requires Follows(t, u, next) && next.Order() > 13 && RemainderCompared(t.w, t.m, t.f)
    ensures RemainderCompared(u.w, u.m, u.f)
  {
    SamePreparation(t, u, next);
    WordsKept(t, u, next);
    PickedSlotsKept(t, u, next);
    CheckedKept(t, u, next);
  }

  lemma BoundTestedKept(t: State, u: State, next: Step)
    requires Follows(t, u, next) && next.Order() > 14 && BoundTested(t.w)
    ensures BoundTested(u.w)
  {
    WordsKept(t, u, next);
    SignSlotsKept(t, u, next);
    PickedSlotsKept(t, u, next);
    CheckedKept(t, u, next);
    assert forall i :: 137 <= i <= 141 || i == 143 || i == 144 ==> WrittenAt(i, t.f) == 14;
  }

  lemma MiddleCarriedKept(t: State, u: State, next: Step)
    requires Follows(t, u, next) && next.Order() > 15 && MiddleCarried(t.w, t.m, t.f)
    ensures MiddleCarried(u.w, u.m, u.f)
  {
    AdditionKept(t, u, next);
    CheckedKept(t, u, next);
  }

  lemma AdditionKept(t: State, u: State, next: Step)
    requires Follows(t, u, next) && next.Order() > 13
    ensures ActiveAddition(u.f, u.w, u.m) == ActiveAddition(t.f, t.w, t.m)
  {
    SamePreparation(t, u, next);
    WordsKept(t, u, next);
    BaseSlotsKept(t, u, next);
    PickedSlotsKept(t, u, next);
    CheckedKept(t, u, next);
  }

  lemma BaseSlotsKept(t: State, u: State, next: Step)
    requires Follows(t, u, next) && next.Order() > 7
    ensures Base(u.w) == Base(t.w)
  {
  }

  lemma FinalOperandsKept(t: State, u: State, next: Step)
    requires Follows(t, u, next) && next.Order() > 10
    ensures Op1(u.w) == Op1(t.w) && FinalOp2(u.w) == FinalOp2(t.w)
    ensures FinalAddend(u.w, u.s) == FinalAddend(t.w, t.s) && Product(u.w) == Product(t.w)
  {
    SamePreparation(t, u, next);
    SignSlotsKept(t, u, next);
    ZeroFlagsKept(t, u, next);
    OperandSlotsKept(t, u, next);
  }

  lemma OperandSlotsKept(t: State, u: State, next: Step)
    requires Follows(t, u, next) && next.Order() > 10
    ensures Op1(u.w) == Op1(t.w) && Product(u.w) == Product(t.w) && u.w[183] == t.w[183] && u.w[184] == t.w[184]
    ensures u.w[13] == t.w[13] && u.w[14] == t.w[14] && u.w[15] == t.w[15] && u.w[16] == t.w[16]
  {
    assert forall i :: 9 <= i <= 16 ==> WrittenAt(i, t.f) == 10;
    assert forall i :: 186 <= i <= 189 || i == 181 || i == 183 || i == 184 ==> WrittenAt(i, t.f) == 9;
  }

  lemma LowCarriesKept(t: State, u: State, next: Step)
    requires Follows(t, u, next) && next.Order() > 11 && LowCarriesStored(t.w, t.s)
    ensures LowCarriesStored(u.w, u.s)
  {
    FinalOperandsKept(t, u, next);
  }

  lemma OutputsKept(t: State, u: State, step: Step)
    requires InputsInRange(t.w, t.m) && InputsInRange(u.w, u.m) && Follows(t, u, step)
    requires step.Order() != Stage(t.f) && OutputsAfter(t, step.Order())
    requires Checked(u.w).Valid()
    ensures OutputsAfter(u, step.Order() + 1)
  {
    if step.Order() > Stage(t.f) { OutputKept(t, u, step); } else { BlankKept(t, u, step); }
  }

  lemma OutputKept(t: State, u: State, step: Step)
    requires InputsInRange(t.w, t.m) && InputsInRange(u.w, u.m) && Follows(t, u, step)
    requires step.Order() > Stage(t.f) && OutputOf(t.f, t.w, t.m, t.op)
    ensures OutputOf(u.f, u.w, u.m, u.op)
  {
    SamePreparation(t, u, step);
    WordsKept(t, u, step);
    if t.f.JUMP? { BaseSlotsKept(t, u, step); }
    if t.f.MULTIPLY? { FactorSlotsKept(t, u, step); }
  }

  lemma FactorSlotsKept(t: State, u: State, step: Step)
    requires Follows(t, u, step) && step.Order() > 2
    ensures u.w[123] == t.w[123] && u.w[124] == t.w[124]
  {
  }

  lemma BlankKept(t: State, u: State, step: Step)
    requires Follows(t, u, step) && step.Order() < Stage(t.f) && Blank(t.w)
    ensures Blank(u.w)
  {
  }

  lemma ComputedKept(step: Step, t: State, u: State, next: Step)
    requires InputsInRange(t.w, t.m) && InputsInRange(u.w, u.m) && Follows(t, u, next) && Computed(step, t)
    requires step.Order() < next.Order()
    ensures Computed(step, u)
  {
    match step {
      case FactorSigns => FactorSignsKept(t, u, next);
      case DivisionSigns => DivisionSignsKept(t, u, next);
      case CombineSigns => SignsCombinedKept(t, u, next);
      case AddLast => BaseKept(t, u, next);
      case TestZeros => ZerosTestedKept(t, u, next);
      case PickOperands => OperandsPickedKept(t, u, next);
      case SplitBytes => BytesSplitKept(t, u, next);
      case LowCarries => LowCarriesKept(t, u, next);
      case PickOutput => OutputPickedKept(t, u, next);
      case CompareRemainder => RemainderComparedKept(t, u, next);
      case TestBound => BoundTestedKept(t, u, next);
      case MiddleCarry => MiddleCarriedKept(t, u, next);
      case _ =>
    }
  }

  lemma Advance(t: State, u: State, step: Step)
    requires Done(t, step.Order()) && Follows(t, u, step)
    requires Prepared(u.w, u.m, u.f, u.op) ==> Computed(step, u) && OutputsAfter(u, step.Order() + 1)
    ensures Done(u, step.Order() + 1)
  {
    PreparedKept(t, u, step);
    forall earlier: Step | earlier.Order() < step.Order() + 1
      ensures Computed(earlier, u)
    {
      if earlier.Order() < step.Order() {
        ComputedKept(earlier, t, u, step);
      } else {
        assert earlier == step;
      }
    }
  }

  // ---------------------------------------------------------------------------------------
  // The multiplication relation holds, whatever the family

  lemma DivisionSignsMean(t: State)
    requires Done(t, 6) && t.f.DIVIDE?
    ensures var a, b := Operand(Rs1(t.m).Value(), t.op.SignedLeft()), Operand(Rs2(t.w).Value(), t.op.SignedRight());
      && t.w[128] == Bit(b < 0) && t.s[1] == Bit(a < 0) && t.w[129] == Bit((a < 0) != (b < 0))
      && a == Rs1(t.m).Value() - B32 * t.s[1] && b == Rs2(t.w).Value() - B32 * t.w[128]
  {
    assert Computed(DivisionSigns, t);
    assert Computed(CombineSigns, t);
  }

  lemma ZerosMean(t: State)
    requires Done(t, 9) && t.f.DIVIDE?
    ensures First(t.w).Valid() && Second(t.w).Valid()
    ensures t.w[59] == Bit(First(t.w).Value() == 0) && t.w[60] == Bit(Second(t.w).Value() == 0)
    ensures t.w[61] == Bit(Rs2(t.w).Value() == 0)
  {
    assert Computed(TestZeros, t);
  }

  lemma BytesMean(t: State)
    requires Done(t, 11) && t.s[2] < B16 && t.s[3] < B16 && t.s[4] < B16 && t.s[5] < B16
    requires IsBit(t.w[181]) && IsBit(FinalOp2(t.w).sign)
    ensures Op1(t.w).Valid() && Op1(t.w).Value() == t.s[2] + B16 * t.s[3] - B32 * t.w[181]
    ensures FinalOp2(t.w).Valid() && FinalOp2(t.w).Value() == t.s[4] + B16 * t.s[5] - B32 * FinalOp2(t.w).sign
  {
    assert Computed(SplitBytes, t);
  }

  lemma MultiplyRelation(t: State)
    requires Done(t, 11) && t.f.MULTIPLY?
    ensures Op1(t.w).Valid() && FinalOp2(t.w).Valid() && FinalAddend(t.w, t.s).Valid() && Product(t.w).Valid()
    ensures (Op1(t.w).Value() * FinalOp2(t.w).Value() + FinalAddend(t.w, t.s).Value() - Product(t.w).Value()) % B64 == 0
  {
    assert Computed(PickOperands, t);
    assert Computed(FactorSigns, t);
    BytesMean(t);
    var a, b := Rs1(t.m).Value() - B32 * t.w[123], Rs2(t.w).Value() - B32 * t.w[124];
    M.ProductCongruence(Op1(t.w).Value(), FinalOp2(t.w).Value(), First(t.w).Value(), Second(t.w).Value(), a, b);
  }

  lemma DivideOperandsFinal(t: State, a: int, b: int)
    requires Done(t, 11) && t.f.DIVIDE?
    requires a == Operand(Rs1(t.m).Value(), t.op.SignedLeft()) && b == Operand(Rs2(t.w).Value(), t.op.SignedRight())
    ensures First(t.w).Valid() && Second(t.w).Valid()
    ensures Op1(t.w).Valid() && FinalOp2(t.w).Valid() && FinalAddend(t.w, t.s).Valid() && Product(t.w).Valid()
    ensures Op1(t.w).Value() == b && Product(t.w).Value() == a + B64 * t.s[1]
    ensures FinalOp2(t.w).Value() == First(t.w).Value() - B32 * Bit((a < 0) != (b < 0) && First(t.w).Value() != 0)
    ensures FinalAddend(t.w, t.s).Value() == Second(t.w).Value() - B32 * Bit(a < 0 && Second(t.w).Value() != 0)
  {
    DivisionSignsMean(t);
    ZerosMean(t);
    assert Computed(PickOperands, t);
    assert Computed(CombineSigns, t);
    BytesMean(t);
  }

  lemma DivideRelation(t: State)
    requires Done(t, 11) && t.f.DIVIDE?
    ensures Op1(t.w).Valid() && FinalOp2(t.w).Valid() && FinalAddend(t.w, t.s).Valid() && Product(t.w).Valid()
    ensures (Op1(t.w).Value() * FinalOp2(t.w).Value() + FinalAddend(t.w, t.s).Value() - Product(t.w).Value()) % B64 == 0
  {
    var a, b := Operand(Rs1(t.m).Value(), t.op.SignedLeft()), Operand(Rs2(t.w).Value(), t.op.SignedRight());
    DivideOperandsFinal(t, a, b);
    QuotientRelation(Op1(t.w).Value(), FinalOp2(t.w).Value(), FinalAddend(t.w, t.s).Value(), Product(t.w).Value(), t.op,
      Rs1(t.m).Value(), Rs2(t.w).Value(), a, b, First(t.w).Value(), Second(t.w).Value(), t.s[1]);
  }

  lemma QuotientRelation(vy: int, vq: int, vr: int, vx: int, op: Op, x: u32, y: u32, a: int, b: int, q: u32, r: u32,
                         s: int)
    requires op.IsDivision() && a == Operand(x, op.SignedLeft()) && b == Operand(y, op.SignedRight())
    requires (q, r) == ResultWords(op, x, y) && vy == b && vx == a + B64 * s
    requires vr == r - B32 * Bit(a < 0 && r != 0) && vq == q - B32 * Bit((a < 0) != (b < 0) && q != 0)
    ensures (vy * vq + vr - vx) % B64 == 0
  {
    M.DivisionRelation(vq, vy, vr, vx, a, b, q, r, s);
    SwapFactors(vq, vy);
  }

  lemma TrivialRelation(t: State)
    requires Done(t, 11) && !t.f.MULTIPLY? && !t.f.DIVIDE?
    ensures Op1(t.w) == Factor(0, 0, 0, 0, 0) && FinalOp2(t.w) == Factor(0, 0, 0, 0, 0)
    ensures FinalAddend(t.w, t.s) == Addend(0, 0, 0) && Product(t.w) == Limbs(0, 0, 0, 0)
  {
    assert Computed(PickOperands, t);
    assert Computed(SplitBytes, t);
  }

  lemma RelationHolds(t: State)
    requires Done(t, 11)
    ensures Op1(t.w).Valid() && FinalOp2(t.w).Valid() && FinalAddend(t.w, t.s).Valid() && Product(t.w).Valid()
    ensures (Op1(t.w).Value() * FinalOp2(t.w).Value() + FinalAddend(t.w, t.s).Value() - Product(t.w).Value()) % B64 == 0
  {
    if t.f.MULTIPLY? {
      MultiplyRelation(t);
    } else if t.f.DIVIDE? {
      DivideRelation(t);
    } else {
      TrivialRelation(t);
    }
  }

  // ---------------------------------------------------------------------------------------
  // The finished row satisfies the constraints

  lemma DoneEarlier(t: State, n: nat)
    requires Done(t, STEPS) && n <= STEPS && n > 7
    ensures Done(t, n)
  {
  }

  lemma AdderFacts(t: State)
    requires Done(t, STEPS)
    ensures IsBit(t.w[134]) && t.w[135] == Bit(t.f.DIVIDE? && t.w[134] == 1)
    ensures t.w[136] == Bit(t.f.DIVIDE? && t.w[134] == 0)
    ensures OutputsInRange(t.w) && IsBit(t.w[63]) && IsBit(t.w[58])
    ensures Holds(ActiveAddition(t.f, t.w, t.m), t.w[63], t.w[58])
  {
    assert Computed(PickOutput, t);
    assert Computed(CompareRemainder, t);
    assert Computed(AddLast, t);
    assert Computed(MiddleCarry, t);
  }

  lemma SplitComplete(w: Row, f: Family)
    requires Flagged(w, f) && IsBit(w[134])
    requires w[135] == Bit(f.DIVIDE? && w[134] == 1) && w[136] == Bit(f.DIVIDE? && w[134] == 0)
    ensures SplitConstraints(w)
  {
  }

  lemma AdderComplete(t: State)
    requires Done(t, STEPS)
    ensures AdderConstraints(t.w, t.m) && SplitConstraints(t.w)
  {
    AdderFacts(t);
    SplitComplete(t.w, t.f);
    SharedComplete(t.w, t.m, t.f);
    TargetComplete(t);
  }

  lemma SharedComplete(w: Row, m: Memory, f: Family)
    requires Flagged(w, f) && IsBit(w[134]) && SplitConstraints(w) && InputsInRange(w, m) && OutputsInRange(w)
    requires IsBit(w[63]) && IsBit(w[58]) && Holds(ActiveAddition(f, w, m), w[63], w[58])
    ensures Vanishes(LowSum(w, m) - B16 * w[63]) && Vanishes(HighSum(w, m) + w[63] - B16 * w[58])
  {
    SharedAddition(w, m, f);
  }

  lemma TargetComplete(t: State)
    requires Done(t, STEPS)
    ensures IsBit(t.w[64]) && IsBit(t.w[62])
    ensures Vanishes(t.w[45] * (t.w[21] + t.w[112] - t.w[25]) - B16 * t.w[64])
    ensures Vanishes(t.w[45] * (t.w[80] + t.w[113] - t.w[26]) + t.w[64] - B16 * t.w[62])
  {
    assert Computed(TestZeros, t);
    TargetVanishes(t.w[45], Addition(Pc(t.w), Imm(t.w), Second(t.w)), t.w[64], t.w[62]);
  }

  lemma TargetVanishes(flag: int, a: Addition, carry: int, overflow: int)
    requires IsBit(flag) && IsBit(carry) && (flag == 0 ==> carry == 0 && overflow == 0)
    requires flag == 1 ==> Balanced(a, overflow) && a.x.low + a.y.low == a.z.low + B16 * carry
    ensures Vanishes(flag * (a.x.low + a.y.low - a.z.low) - B16 * carry)
    ensures Vanishes(flag * (a.x.high + a.y.high - a.z.high) + carry - B16 * overflow)
  {
  }

  lemma SignComplete(t: State)
    requires Done(t, STEPS)
    ensures HoldsIn(Sign, t.w, t.m, t.s)
  {
    assert Computed(FactorSigns, t);
    assert Computed(DivisionSigns, t);
    assert Computed(CombineSigns, t);
    assert Computed(TestZeros, t);
    assert Computed(PickOutput, t);
    var w, s := t.w, t.s;
    OrMeans(w[56], w[57], w[122]);
    BooleanGadgetsMean(w[122], w[91], w[123]);
    BooleanGadgetsMean(w[56], w[94], w[124]);
    OrMeans(w[55], w[57], w[127]);
    BooleanGadgetsMean(w[94], w[127], w[128]);
    BooleanGadgetsMean(w[91], w[127], s[1]);
    BooleanGadgetsMean(w[128], s[1], w[129]);
    BooleanGadgetsMean(w[129], w[59], w[130]);
    BooleanGadgetsMean(s[1], w[60], w[131]);
  }

  lemma SelectionVanishes(a: int, b: int, x: int, out: int)
    requires IsBit(a) && IsBit(b) && a + b <= 1 && out == if a == 1 || b == 1 then x else 0
    ensures Vanishes(a * x + b * x - out)
  {
  }

  lemma ZeroSelections(t: State)
    requires Done(t, STEPS)
    ensures var w := t.w;
      && Vanishes(w[47] * w[23] + w[45] * w[23] - w[172]) && Vanishes(w[47] * w[24] + w[45] * w[24] - w[173])
      && Vanishes(w[47] * w[25] - w[175]) && Vanishes(w[47] * w[26] - w[176])
      && Vanishes(w[47] * w[114] - w[178]) && Vanishes(w[47] * w[93] - w[179])
  {
    assert Computed(TestZeros, t);
    var w := t.w;
    SelectionVanishes(w[47], w[45], w[23], w[172]);
    SelectionVanishes(w[47], w[45], w[24], w[173]);
  }

  lemma ZeroFlags(t: State)
    requires Done(t, STEPS)
    ensures var w := t.w;
      && IsZero(w[172], w[173], w[59], w[174]) && IsZero(w[175], w[176], w[60], w[177])
      && IsZero(w[178], w[179], w[61], w[180])
  {
    assert Computed(TestZeros, t);
    var w := t.w;
    IsZeroHolds(w[172], w[173]);
    IsZeroHolds(w[175], w[176]);
    IsZeroHolds(w[178], w[179]);
  }

  lemma ZeroComplete(t: State)
    requires Done(t, STEPS)
    ensures HoldsIn(Zero, t.w, t.m, t.s)
  {
    ZeroSelections(t);
    ZeroFlags(t);
  }

  lemma ChoiceComplete(w: Row, product: Felt, quotient: Felt)
    requires IsBit(w[51]) && IsBit(w[47]) && w[51] + w[47] <= 1
    ensures Choice(w, product, quotient, Chosen(w, product, quotient))
  {
  }

  lemma OperandsComplete(t: State)
    requires Done(t, STEPS)
    ensures HoldsIn(Operands, t.w, t.m, t.s)
  {
    assert Computed(PickOperands, t);
    assert Computed(PickOutput, t);
    assert Computed(HighCarries, t);
    var w, m, s := t.w, t.m, t.s;
    ChoiceComplete(w, m[8], w[114]);
    ChoiceComplete(w, m[9], w[93]);
    ChoiceComplete(w, w[123], w[128]);
    ChoiceComplete(w, w[114], w[23]);
    ChoiceComplete(w, w[93], w[24]);
    ChoiceComplete(w, w[124], w[130]);
    ChoiceComplete(w, 0, w[25]);
    ChoiceComplete(w, 0, w[26]);
    ChoiceComplete(w, 0, w[131]);
    ChoiceComplete(w, w[23], m[8]);
    ChoiceComplete(w, w[24], m[9]);
    ChoiceComplete(w, w[25], w[132]);
    ChoiceComplete(w, w[26], w[132]);
  }

  lemma BytesComplete(t: State)
    requires Done(t, STEPS)
    ensures HoldsIn(Bytes, t.w, t.m, t.s)
  {
    assert Computed(SplitBytes, t);
  }

  lemma ChainedComplete(t: State)
    requires Done(t, STEPS)
    ensures HoldsIn(Chained, t.w, t.m, t.s)
  {
    DoneEarlier(t, 11);
    RelationHolds(t);
    assert Computed(LowCarries, t);
    assert Computed(HighCarries, t);
    assert FinalOp2(t.w) == Op2(t.w) && FinalAddend(t.w, t.s) == Additive(t.w);
    ChainComplete(Op1(t.w), Op2(t.w), Additive(t.w), Product(t.w));
    ChainVanishes(Op1(t.w), Op2(t.w), Additive(t.w), Product(t.w), FinalCarries(t.w, t.s));
    assert RowCarries(t.w) == FinalCarries(t.w, t.s);
  }

  lemma OutputComplete(t: State)
    requires Done(t, STEPS)
    ensures HoldsIn(Output, t.w, t.m, t.s)
  {
    assert Computed(PickOutput, t);
    assert Computed(CombineSigns, t);
    assert Computed(TestBound, t);
    var w := t.w;
    ChooseMeans(w[55], w[23], w[25], w[125]);
    ChooseMeans(w[55], w[24], w[26], w[126]);
    OrMeans(w[55], w[56], w[142]);
    ChooseMeans(w[142], w[23], w[25], w[143]);
    ChooseMeans(w[142], w[24], w[26], w[144]);
  }

  lemma CheckBits(t: State)
    requires Done(t, STEPS)
    ensures IsBit(t.w[47]) && IsBit(t.w[61]) && IsBit(t.w[128]) && IsBit(t.w[131]) && IsBit(t.w[58])
    ensures t.w[133] == Bit(t.w[47] == 1 && t.w[61] == 1) && t.w[134] == Bit(t.w[128] != t.w[131])
    ensures Checked(t.w).Valid()
  {
    assert Computed(DivisionSigns, t);
    assert Computed(TestZeros, t);
    assert Computed(PickOutput, t);
    assert Computed(MiddleCarry, t);
  }

  lemma CheckGadgets(t: State)
    requires Done(t, STEPS)
    ensures And(t.w[47], t.w[61], t.w[133]) && Xor(t.w[128], t.w[131], t.w[134])
    ensures Xor(t.w[58], t.w[134], t.w[137]) && IsZero(t.w[27], t.w[28], t.w[138], t.w[139])
    ensures Nor(t.w[137], t.w[138], t.w[140]) && Choose(t.w[131], t.w[140], t.w[137], t.w[141])
  {
    CheckBits(t);
    assert Computed(TestBound, t);
    var w := t.w;
    BooleanGadgetsMean(w[47], w[61], w[133]);
    BooleanGadgetsMean(w[128], w[131], w[134]);
    BooleanGadgetsMean(w[58], w[134], w[137]);
    IsZeroHolds(w[27], w[28]);
    BooleanGadgetsMean(w[137], w[138], w[140]);
    ChooseMeans(w[131], w[140], w[137], w[141]);
  }

  /** In a division by a nonzero divisor the comparison comes out true; by zero the quotient is all
      ones. */
  lemma BoundComplete(t: State)
    requires Done(t, STEPS)
    ensures Vanishes((t.w[47] - t.w[133]) * (1 - t.w[141]))
    ensures Vanishes(t.w[133] * (t.w[23] - 0xffff)) && Vanishes(t.w[133] * (t.w[24] - 0xffff))
  {
    CheckBits(t);
    if t.f.DIVIDE? {
      DoneEarlier(t, 11);
      ZerosMean(t);
      if t.w[61] == 0 { BoundHolds(t); } else { AllOnes(t); }
    }
    BoundVanishes(t.w[47], t.w[133], t.w[141], t.w[23], t.w[24]);
  }

  lemma BoundVanishes(flag: int, zero: int, smaller: int, low: int, high: int)
    requires flag == zero || smaller == 1
    requires zero == 0 || (zero == 1 && low == 0xffff && high == 0xffff)
    ensures Vanishes((flag - zero) * (1 - smaller)) && Vanishes(zero * (low - 0xffff))
    ensures Vanishes(zero * (high - 0xffff))
  {
  }

  lemma AllOnes(t: State)
    requires Done(t, STEPS) && t.f.DIVIDE? && Rs2(t.w).Value() == 0
    ensures t.w[23] == 0xffff && t.w[24] == 0xffff
  {
  }

  lemma BoundHolds(t: State)
    requires Done(t, STEPS) && t.f.DIVIDE? && Rs2(t.w).Value() != 0
    ensures t.w[141] == 1
  {
    var w := t.w;
    var a, b := Operand(Rs1(t.m).Value(), t.op.SignedLeft()), Operand(Rs2(w).Value(), t.op.SignedRight());
    DoneEarlier(t, 6 + 3);
    DivisionSignsMeanLate(t);
    ZerosMean(t);
    M.SignedQuotient(a, b, First(w).Value(), Second(w).Value());
    TruncatedDivisionExists(a, b);
    CheckOutcome(t);
    C.MagnitudesCompared(Second(w).Value(), w[131], Rs2(w).Value(), w[128], Checked(w).Value(), w[58]);
  }

  lemma DivisionSignsMeanLate(t: State)
    requires Done(t, STEPS) && t.f.DIVIDE?
    ensures var a, b := Operand(Rs1(t.m).Value(), t.op.SignedLeft()), Operand(Rs2(t.w).Value(), t.op.SignedRight());
      t.w[128] == Bit(b < 0) && b == Rs2(t.w).Value() - B32 * t.w[128]
      && t.w[131] == Bit(a < 0 && Second(t.w).Valid() && Second(t.w).Value() != 0)
  {
    assert Computed(DivisionSigns, t);
    assert Computed(PickOutput, t);
    DoneEarlier(t, 9);
    ZerosMean(t);
  }

  lemma CheckOutcome(t: State)
    requires Done(t, STEPS) && t.f.DIVIDE?
    ensures var w := t.w; First(w).Valid() && Second(w).Valid() && IsBit(w[58])
    ensures var w := t.w;
      && (w[131] != w[128] ==> Second(w).Value() + Rs2(w).Value() == Checked(w).Value() + B32 * w[58])
      && (w[131] == w[128] ==> Second(w).Value() - Rs2(w).Value() == Checked(w).Value() - B32 * w[58])
    ensures var w := t.w; var condition := (w[131] != w[128]) != (w[58] == 1);
      w[141] == Bit(if w[131] == 1 then !condition && Checked(w).Value() != 0 else condition)
  {
    assert Computed(PickOutput, t);
    assert Computed(CompareRemainder, t);
    assert Computed(TestBound, t);
  }

  lemma CheckComplete(t: State)
    requires Done(t, STEPS)
    ensures HoldsIn(Check, t.w, t.m, t.s)
  {
    CheckGadgets(t);
    AdderComplete(t);
    BoundComplete(t);
  }

  lemma BaseComplete(t: State)
    requires Done(t, STEPS)
    ensures BaseConstraints(t.w, t.m)
  {
    assert Computed(AddLast, t);
    ChooseMeans(t.w[55], t.w[21], t.m[8], t.w[154]);
    ChooseMeans(t.w[55], t.w[80], t.m[9], t.w[155]);
  }

  /** For every family, all operands and all minor flags, the finished row satisfies the circuit. */
  lemma RowComplete(t: State)
    requires Done(t, STEPS)
    ensures Satisfied(t.w, t.m, t.s)
  {
    AdderComplete(t);
    BaseComplete(t);
    SignComplete(t);
    ZeroComplete(t);
    OperandsComplete(t);
    BytesComplete(t);
    ChainedComplete(t);
    CheckComplete(t);
    OutputComplete(t);
    forall g: Group
      ensures HoldsIn(g, t.w, t.m, t.s)
    {
    }
  }
}
