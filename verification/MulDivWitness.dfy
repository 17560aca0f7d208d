/** What the generator of the signed multiply/divide circuit leaves in a row, step by step, and the
    proof that a finished row satisfies every constraint. */
module MulDivWitness {
  import opened Words
  import opened Mersenne31
  import opened Gadgets
  import opened LimbChain
  import opened MExtension
  import opened MulDivCircuit
  import opened Witness

  // ---------------------------------------------------------------------------------------
  // What the generator leaves in the row, slot by slot

  predicate FlagsComputed(w: Row, op: Op) {
    && w[29] == Bit(op.IsDivision()) && w[30] == Bit(op.FirstWord())
    && w[31] == Bit(op.SignedLeft()) && w[32] == Bit(op.SignedRight())
  }

  predicate SignsComputed(w: Row, m: Memory) {
    && w[33] == Bit(w[31] == 1 && m[3] >= 0x8000) && w[21] == Wrap16(m[3] - 0x8000 * w[31])
    && w[34] == Bit(w[32] == 1 && m[8] >= 0x8000) && w[22] == Wrap16(m[8] - 0x8000 * w[32])
  }

  predicate WordsComputed(w: Row, m: Memory, op: Op)
    requires OperandsInRange(m)
  {
    && w[23] < B16 && w[24] < B16 && w[25] < B16 && w[26] < B16
    && (Word(w[23], w[24]), Word(w[25], w[26])) == ResultWords(op, Rs1(m), Rs2(m))
  }

  ghost predicate QuotientSignComputed(w: Row) {
    && w[52] == Bit(w[33] != w[34])
    && w[53] == Bit(w[23] + w[24] == 0) && w[54] == InverseOrZero(Reduce(w[23] + w[24]))
    && w[55] == Bit(w[52] == 1 && w[53] == 0)
  }

  ghost predicate RemainderSignComputed(w: Row) {
    && w[56] == Bit(w[25] + w[26] == 0) && w[57] == InverseOrZero(Reduce(w[25] + w[26]))
    && w[58] == Bit(w[33] == 1 && w[56] == 0)
  }

  ghost predicate OutcomeSignsComputed(w: Row) {
    QuotientSignComputed(w) && RemainderSignComputed(w)
  }

  predicate FactorsSelected(w: Row) {
    && w[59] == (if w[29] == 1 then w[55] else w[33])
    && w[60] == (if w[29] == 1 then w[25] else 0)
    && w[61] == (if w[29] == 1 then w[26] else 0)
    && w[62] == (if w[29] == 1 then w[58] else 0)
  }

  predicate ProductSelected(w: Row, m: Memory) {
    && w[63] == (if w[29] == 1 then m[2] else w[23])
    && w[64] == (if w[29] == 1 then m[3] else w[24])
    && w[65] == (if w[29] == 1 then 0xffff * w[33] else w[25])
    && w[66] == (if w[29] == 1 then 0xffff * w[33] else w[26])
  }

  /** The bytes of the first factor (quotient or rs1) and of rs2. */
  predicate BytesComputed(w: Row, m: Memory) {
    && w[9] < B8 && w[10] < B8 && w[11] < B8 && w[12] < B8
    && w[13] < B8 && w[14] < B8 && w[15] < B8 && w[16] < B8
    && w[9] + B8 * w[10] == (if w[29] == 1 then w[23] else m[2])
    && w[11] + B8 * w[12] == (if w[29] == 1 then w[24] else m[3])
    && w[13] + B8 * w[14] == m[7] && w[15] + B8 * w[16] == m[8]
  }

  /** The carries are stored without loss. */
  predicate CarriesComputed(w: Row) {
    CarryRanges(w) && RowCarries(w) == ComputedCarries(Op1(w), Op2(w), Additive(w), Product(w))
  }

  ghost predicate DivisorTested(w: Row, m: Memory) {
    && w[69] == Bit(m[7] + m[8] == 0) && w[70] == InverseOrZero(Reduce(m[7] + m[8]))
    && w[71] == Bit(w[29] == 1 && w[69] == 1)
    && w[72] == Bit(w[34] != w[58])
  }

  predicate MagnitudesAdded(w: Row, m: Memory) {
    && w[25] < B16 && w[26] < B16 && w[27] < B16 && w[28] < B16 && IsBit(w[44]) && IsBit(w[45])
    && (w[72] == 1 ==> w[25] + m[7] == w[27] + B16 * w[44] && w[26] + m[8] + w[44] == w[28] + B16 * w[45])
    && (w[72] == 0 ==> w[25] - m[7] == w[27] - B16 * w[44] && w[26] - m[8] - w[44] == w[28] - B16 * w[45])
  }

  ghost predicate BoundTested(w: Row) {
    && w[73] == Bit(w[72] != w[45])
    && w[74] == Bit(w[27] + w[28] == 0) && w[75] == InverseOrZero(Reduce(w[27] + w[28]))
    && w[76] == Bit(w[73] == 0 && w[74] == 0)
    && w[77] == (if w[58] == 1 then w[76] else w[73])
  }

  ghost predicate TrapsComputed(w: Row, m: Memory) {
    DivisorTested(w, m) && MagnitudesAdded(w, m) && BoundTested(w)
  }

  predicate OutputComputed(w: Row) {
    && w[67] == (if w[30] == 1 then w[23] else w[25])
    && w[68] == (if w[30] == 1 then w[24] else w[26])
  }

  // ---------------------------------------------------------------------------------------
  // The order in which the row is filled

  datatype Step =
    SplitFlags | SplitSigns | FillWords | DeriveSigns | PickFactors | PickProduct | SplitBytes
    | FillCarries | PickOutput | TestDivisor | AddDivisor | TestBound
  {
    function Order(): nat {
      match this
      case SplitFlags => 0
      case SplitSigns => 1
      case FillWords => 2
      case DeriveSigns => 3
      case PickFactors => 4
      case PickProduct => 5
      case SplitBytes => 6
      case FillCarries => 7
      case PickOutput => 8
      case TestDivisor => 9
      case AddDivisor => 10
      case TestBound => 11
    }
  }

  const STEPS := 12

  /** The step that writes a slot; the decoder fills the rest beforehand. */
  function WrittenAt(slot: int): int {
    if 29 <= slot <= 32 then 0
    else if slot == 21 || slot == 22 || slot == 33 || slot == 34 then 1
    else if 23 <= slot <= 26 then 2
    else if 52 <= slot <= 58 then 3
    else if 59 <= slot <= 62 then 4
    else if 63 <= slot <= 66 then 5
    else if 9 <= slot <= 16 then 6
    else if 17 <= slot <= 20 || 35 <= slot <= 43 then 7
    else if slot == 67 || slot == 68 then 8
    else if 69 <= slot <= 72 then 9
    else if slot == 27 || slot == 28 || slot == 44 || slot == 45 then 10
    else if 73 <= slot <= 77 then 11
    else -1
  }

  /** A step writes its own slots and no others. */
  ghost predicate Writes(before: Row, after: Row, step: Step) {
    forall i :: 0 <= i < ROW_SIZE && WrittenAt(i) != step.Order() ==> after[i] == before[i]
  }

  ghost predicate Computed(step: Step, w: Row, m: Memory, op: Op)
    requires OperandsInRange(m)
  {
    match step
    case SplitFlags => FlagsComputed(w, op)
    case SplitSigns => SignsComputed(w, m)
    case FillWords => WordsComputed(w, m, op)
    case DeriveSigns => OutcomeSignsComputed(w)
    case PickFactors => FactorsSelected(w)
    case PickProduct => ProductSelected(w, m)
    case SplitBytes => BytesComputed(w, m)
    case FillCarries => CarriesComputed(w)
    case PickOutput => OutputComputed(w)
    case TestDivisor => DivisorTested(w, m)
    case AddDivisor => MagnitudesAdded(w, m)
    case TestBound => BoundTested(w)
  }

  /** The first n steps have left what they compute. */
  ghost predicate Done(w: Row, m: Memory, op: Op, n: nat) {
    OperandsInRange(m) && w[4] == OpMask(op)
    && forall step: Step {:trigger Computed(step, w, m, op)} :: step.Order() < n ==> Computed(step, w, m, op)
  }

  /** What a step computes depends on no slot written later. */
  lemma ComputedKept(step: Step, before: Row, after: Row, m: Memory, op: Op, next: Step)
    requires OperandsInRange(m) && step.Order() < next.Order()
    requires Writes(before, after, next) && Computed(step, before, m, op)
    ensures Computed(step, after, m, op)
  {
    if step == FillCarries { CarriesKept(before, after, next); }
  }

  lemma OperandsKept(before: Row, after: Row, next: Step)
    requires FillCarries.Order() <= next.Order() && Writes(before, after, next)
    ensures Op1(after) == Op1(before) && Op2(after) == Op2(before)
    ensures Additive(after) == Additive(before) && Product(after) == Product(before)
  {
  }

  lemma CarrySlotsKept(before: Row, after: Row, next: Step)
    requires FillCarries.Order() < next.Order() && Writes(before, after, next)
    ensures RowCarries(after) == RowCarries(before) && (CarryRanges(before) ==> CarryRanges(after))
  {
  }

  lemma CarriesKept(before: Row, after: Row, next: Step)
    requires FillCarries.Order() < next.Order()
    requires Writes(before, after, next) && CarriesComputed(before)
    ensures CarriesComputed(after)
  {
    OperandsKept(before, after, next);
    CarrySlotsKept(before, after, next);
  }

  lemma Advance(before: Row, after: Row, m: Memory, op: Op, step: Step)
    requires Done(before, m, op, step.Order())
    requires Writes(before, after, step) && Computed(step, after, m, op)
    ensures Done(after, m, op, step.Order() + 1)
  {
    forall earlier: Step | earlier.Order() < step.Order() + 1
      ensures Computed(earlier, after, m, op)
    {
      if earlier.Order() < step.Order() {
        ComputedKept(earlier, before, after, m, op, step);
      } else {
        assert earlier == step;
      }
    }
  }

  // ---------------------------------------------------------------------------------------
  // The computed row satisfies the circuit

  lemma FlagsComplete(w: Row, m: Memory, op: Op)
    requires w[4] == OpMask(op) && FlagsComputed(w, op)
    ensures Holds(Flags, w, m)
  {
    assert w[29] + 2 * w[30] + 4 * w[31] + 8 * w[32] - w[4] == 0;
  }

  lemma SignsComplete(w: Row, m: Memory, op: Op)
    requires OperandsInRange(m) && FlagsComputed(w, op) && SignsComputed(w, m)
    requires WordsComputed(w, m, op) && OutcomeSignsComputed(w)
    ensures Holds(Signs, w, m)
  {
    SignBitMeans(m[3], w[31], w[33], w[21]);
    SignBitMeans(m[8], w[32], w[34], w[22]);
    OutcomeSignsComplete(w);
  }

  lemma OutcomeSignsComplete(w: Row)
    requires IsBit(w[33]) && IsBit(w[34]) && OutcomeSignsComputed(w)
    requires w[23] < B16 && w[24] < B16 && w[25] < B16 && w[26] < B16
    ensures Xor(w[33], w[34], w[52]) && AndNot(w[52], w[53], w[55]) && AndNot(w[33], w[56], w[58])
    ensures IsZero(w[23], w[24], w[53], w[54]) && IsZero(w[25], w[26], w[56], w[57])
  {
    IsZeroHolds(w[23], w[24]);
    IsZeroHolds(w[25], w[26]);
    BooleanGadgetsMean(w[33], w[34], w[52]);
    BooleanGadgetsMean(w[52], w[53], w[55]);
    BooleanGadgetsMean(w[33], w[56], w[58]);
  }

  lemma SelectionComplete(w: Row, m: Memory, op: Op)
    requires OperandsInRange(m) && FlagsComputed(w, op) && SignsComputed(w, m)
    requires WordsComputed(w, m, op) && OutcomeSignsComputed(w)
    requires FactorsSelected(w) && ProductSelected(w, m) && BytesComputed(w, m)
    ensures Holds(Selection, w, m)
  {
    ChooseMeans(w[29], w[23], m[2], w[9] + B8 * w[10]);
    ChooseMeans(w[29], w[24], m[3], w[11] + B8 * w[12]);
    ChooseMeans(w[29], w[55], w[33], w[59]);
    ChooseMeans(w[29], w[25], 0, w[60]);
    ChooseMeans(w[29], w[26], 0, w[61]);
    BooleanGadgetsMean(w[29], w[58], w[62]);
    ChooseMeans(w[29], m[2], w[23], w[63]);
    ChooseMeans(w[29], m[3], w[24], w[64]);
    ChooseMeans(w[29], 0xffff * w[33], w[25], w[65]);
    ChooseMeans(w[29], 0xffff * w[33], w[26], w[66]);
  }

  lemma OutputComplete(w: Row, m: Memory, op: Op)
    requires FlagsComputed(w, op) && OutputComputed(w)
    ensures Holds(Output, w, m)
  {
    ChooseMeans(w[30], w[23], w[25], w[67]);
    ChooseMeans(w[30], w[24], w[26], w[68]);
  }

  /** The computed quotient and remainder, read with the signs the row derives for them, are the
      truncated quotient and remainder. */
  lemma SignedQuotient(a: int, b: int, q: u32, r: u32)
    requires b != 0 && Abs(a) < B32 && Abs(b) < B32
    requires q == Wrap32(Quotient(a, b)) && r == Wrap32(Remainder(a, b))
    ensures q - B32 * Bit((a < 0) != (b < 0) && q != 0) == Quotient(a, b)
    ensures r - B32 * Bit(a < 0 && r != 0) == Remainder(a, b)
    ensures a == b * Quotient(a, b) + Remainder(a, b)
  {
    TruncatedDivisionExists(a, b);
    QuotientNotLarger(Abs(a), Abs(b));
  }

  lemma QuotientNotLarger(x: nat, y: int)
    requires y > 0
    ensures 0 <= x / y <= x && 0 <= x % y < y
  {
    QuotientBounds(x, y, x / y, x % y);
  }

  lemma QuotientBounds(x: int, y: int, q: int, r: int)
    requires x >= 0 && x == y * q + r && 0 <= r < y
    ensures 0 <= q <= x
  {
    assert q < 0 ==> y * q <= -y;
    assert q >= 0 ==> y * q >= q;
  }

  lemma ProductCongruence(x: int, y: int, low: int, high: int, a: int, b: int)
    requires low == Wrap32(a * b) && high == Wrap32(a * b / B32) && x == a && y == b
    ensures (x * y + 0 - (low + B32 * high)) % B64 == 0
  {
    WordsOfProduct(a * b, low, high);
  }

  lemma WordsOfProduct(p: int, low: int, high: int)
    requires low == Wrap32(p) && high == Wrap32(p / B32)
    ensures (p - (low + B32 * high)) % B64 == 0
  {
    var k := p / B32 / B32;
    assert p - (low + B32 * high) == B64 * k;
  }

  lemma DivisionRelation(vq: int, vy: int, vr: int, vx: int, a: int, b: int, q: u32, r: u32, s: int)
    requires vy == b && vx == a + B64 * s && Abs(a) < B32 && Abs(b) < B32
    requires vr == r - B32 * Bit(a < 0 && r != 0) && vq == q - B32 * Bit((a < 0) != (b < 0) && q != 0)
    requires b == 0 ==> vr == a
    requires b != 0 ==> q == Wrap32(Quotient(a, b)) && r == Wrap32(Remainder(a, b))
    ensures (vq * vy + vr - vx) % B64 == 0
  {
    if b == 0 {
      assert vq * vy == 0;
    } else {
      SignedQuotient(a, b, q, r);
      assert vq * vy == b * Quotient(a, b);
    }
    assert vq * vy + vr - vx == B64 * (-s);
  }

  /** The multiplication relation holds of the selected operands. */
  lemma RelationHolds(w: Row, m: Memory, op: Op)
    requires OperandsInRange(m) && FlagsComputed(w, op) && SignsComputed(w, m) && WordsComputed(w, m, op)
    requires OutcomeSignsComputed(w) && FactorsSelected(w) && ProductSelected(w, m) && BytesComputed(w, m)
    ensures Op1(w).Valid() && Op2(w).Valid() && Additive(w).Valid() && Product(w).Valid()
    ensures (Op1(w).Value() * Op2(w).Value() + Additive(w).Value() - Product(w).Value()) % B64 == 0
  {
    OperandSigns(w, m, op);
    var a, b := Operand(Rs1(m), op.SignedLeft()), Operand(Rs2(m), op.SignedRight());
    if op.IsDivision() {
      DivisionOperands(w, m, a, b);
      DivisionRelation(Op1(w).Value(), Op2(w).Value(), Additive(w).Value(), Product(w).Value(),
        a, b, Word(w[23], w[24]), Word(w[25], w[26]), w[33]);
    } else {
      ProductOperands(w, m, a, b);
      ProductCongruence(Op1(w).Value(), Op2(w).Value(), Word(w[23], w[24]), Word(w[25], w[26]), a, b);
    }
  }

  lemma DivisionOperands(w: Row, m: Memory, a: int, b: int)
    requires OperandsInRange(m) && w[29] == 1 && OutcomeSignsComputed(w)
    requires FactorsSelected(w) && ProductSelected(w, m) && BytesComputed(w, m)
    requires w[23] < B16 && w[24] < B16 && w[25] < B16 && w[26] < B16
    requires a == Rs1(m) - B32 * w[33] && b == Rs2(m) - B32 * w[34]
    requires w[33] == Bit(a < 0) && w[34] == Bit(b < 0)
    ensures Op1(w).Valid() && Op2(w).Valid() && Additive(w).Valid() && Product(w).Valid()
    ensures Op1(w).Value() == Word(w[23], w[24]) - B32 * Bit((a < 0) != (b < 0) && Word(w[23], w[24]) != 0)
    ensures Op2(w).Value() == b && Product(w).Value() == a + B64 * w[33]
    ensures Additive(w).Value() == Word(w[25], w[26]) - B32 * Bit(a < 0 && Word(w[25], w[26]) != 0)
  {
  }

  lemma ProductOperands(w: Row, m: Memory, a: int, b: int)
    requires OperandsInRange(m) && w[29] == 0
    requires FactorsSelected(w) && ProductSelected(w, m) && BytesComputed(w, m)
    requires w[23] < B16 && w[24] < B16 && w[25] < B16 && w[26] < B16
    requires a == Rs1(m) - B32 * w[33] && b == Rs2(m) - B32 * w[34] && IsBit(w[33]) && IsBit(w[34])
    ensures Op1(w).Valid() && Op2(w).Valid() && Additive(w).Valid() && Product(w).Valid()
    ensures Op1(w).Value() == a && Op2(w).Value() == b && Additive(w).Value() == 0
    ensures Product(w).Value() == Word(w[23], w[24]) + B32 * Word(w[25], w[26])
  {
  }

  lemma OperandSigns(w: Row, m: Memory, op: Op)
    requires OperandsInRange(m) && FlagsComputed(w, op) && SignsComputed(w, m)
    ensures Operand(Rs1(m), op.SignedLeft()) == Rs1(m) - B32 * w[33]
    ensures Operand(Rs2(m), op.SignedRight()) == Rs2(m) - B32 * w[34]
    ensures w[33] == Bit(Operand(Rs1(m), op.SignedLeft()) < 0)
    ensures w[34] == Bit(Operand(Rs2(m), op.SignedRight()) < 0)
    ensures Abs(Operand(Rs1(m), op.SignedLeft())) < B32 && Abs(Operand(Rs2(m), op.SignedRight())) < B32
  {
  }

  lemma CarryingComplete(w: Row, m: Memory)
    requires CarriesComputed(w)
    requires Op1(w).Valid() && Op2(w).Valid() && Additive(w).Valid() && Product(w).Valid()
    requires (Op1(w).Value() * Op2(w).Value() + Additive(w).Value() - Product(w).Value()) % B64 == 0
    ensures Holds(Carrying, w, m)
  {
    ChainComplete(Op1(w), Op2(w), Additive(w), Product(w));
    ChainVanishes(Op1(w), Op2(w), Additive(w), Product(w), RowCarries(w));
  }

  lemma TrapsComplete(w: Row, m: Memory, op: Op)
    requires OperandsInRange(m) && FlagsComputed(w, op) && SignsComputed(w, m) && WordsComputed(w, m, op)
    requires OutcomeSignsComputed(w) && TrapsComputed(w, m)
    ensures Holds(Traps, w, m)
  {
    ZeroDivisorComplete(w, m);
    AddSubComplete(w, m);
    ConditionComplete(w, m);
    DivisorTrap(w, m, op);
  }

  lemma ZeroDivisorComplete(w: Row, m: Memory)
    requires OperandsInRange(m) && IsBit(w[29]) && TrapsComputed(w, m)
    ensures IsZero(m[7], m[8], w[69], w[70]) && And(w[29], w[69], w[71])
  {
    IsZeroHolds(m[7], m[8]);
    BooleanGadgetsMean(w[29], w[69], w[71]);
  }

  lemma AddSubComplete(w: Row, m: Memory)
    requires OperandsInRange(m) && TrapsComputed(w, m)
    ensures AddSub(w[72], w[25], w[26], m[7], m[8], w[27], w[28], w[44], w[45])
  {
    AddSubHolds(w[72], w[25], w[26], m[7], m[8], w[27], w[28], w[44], w[45]);
  }

  lemma ConditionComplete(w: Row, m: Memory)
    requires OperandsInRange(m) && IsBit(w[34]) && IsBit(w[58]) && TrapsComputed(w, m)
    ensures Xor(w[34], w[58], w[72]) && Xor(w[72], w[45], w[73]) && Nor(w[73], w[74], w[76])
    ensures IsZero(w[27], w[28], w[74], w[75]) && Choose(w[58], w[76], w[73], w[77])
  {
    BooleanGadgetsMean(w[34], w[58], w[72]);
    BooleanGadgetsMean(w[72], w[45], w[73]);
    IsZeroHolds(w[27], w[28]);
    BooleanGadgetsMean(w[73], w[74], w[76]);
    ChooseMeans(w[58], w[76], w[73], w[77]);
  }

  lemma DivisorTrap(w: Row, m: Memory, op: Op)
    requires OperandsInRange(m) && FlagsComputed(w, op) && SignsComputed(w, m) && WordsComputed(w, m, op)
    requires OutcomeSignsComputed(w) && TrapsComputed(w, m)
    ensures w[71] * (w[23] - 0xffff) == 0 && w[71] * (w[24] - 0xffff) == 0
    ensures (w[29] - w[71]) * (1 - w[77]) == 0
  {
    if op.IsDivision() && Rs2(m) == 0 {
      assert w[23] == 0xffff && w[24] == 0xffff;
    } else if op.IsDivision() {
      BoundHolds(w, m, op);
    }
  }

  lemma BoundHolds(w: Row, m: Memory, op: Op)
    requires OperandsInRange(m) && FlagsComputed(w, op) && SignsComputed(w, m) && WordsComputed(w, m, op)
    requires RemainderSignComputed(w) && TrapsComputed(w, m)
    requires op.IsDivision() && Rs2(m) != 0
    ensures w[71] == 0 && w[77] == 1
  {
    var a, b := Operand(Rs1(m), op.SignedLeft()), Operand(Rs2(m), op.SignedRight());
    OperandSigns(w, m, op);
    RemainderSmall(w, a, b);
    MagnitudesCompared(Word(w[25], w[26]), w[58], Rs2(m), w[34], Word(w[27], w[28]), w[45]);
  }

  lemma RemainderSmall(w: Row, a: int, b: int)
    requires w[25] < B16 && w[26] < B16 && RemainderSignComputed(w) && w[33] == Bit(a < 0)
    requires b != 0 && Abs(a) < B32 && Abs(b) < B32 && Word(w[25], w[26]) == Wrap32(Remainder(a, b))
    ensures w[58] == 1 ==> Word(w[25], w[26]) != 0
    ensures Abs(Word(w[25], w[26]) - B32 * w[58]) < Abs(b)
  {
    SignedQuotient(a, b, Wrap32(Quotient(a, b)), Word(w[25], w[26]));
    TruncatedDivisionExists(a, b);
  }

  /** Completeness: whatever the operands, the generated row satisfies every constraint. */
  lemma CircuitComplete(w: Row, m: Memory, op: Op)
    requires Done(w, m, op, STEPS)
    ensures Satisfied(w, m)
  {
    ResultsDone(w, m, op);
    OperandsDone(w, m, op);
    ChecksDone(w, m, op);
    TrapsDone(w, m, op);
    AllComplete(w, m, op);
  }

  lemma ResultsDone(w: Row, m: Memory, op: Op)
    requires Done(w, m, op, 4)
    ensures FlagsComputed(w, op) && SignsComputed(w, m) && WordsComputed(w, m, op) && OutcomeSignsComputed(w)
  {
    assert Computed(SplitFlags, w, m, op) && Computed(SplitSigns, w, m, op);
    assert Computed(FillWords, w, m, op) && Computed(DeriveSigns, w, m, op);
  }

  lemma OperandsDone(w: Row, m: Memory, op: Op)
    requires Done(w, m, op, 7)
    ensures FactorsSelected(w) && ProductSelected(w, m) && BytesComputed(w, m)
  {
    assert Computed(PickFactors, w, m, op) && Computed(PickProduct, w, m, op) && Computed(SplitBytes, w, m, op);
  }

  lemma ChecksDone(w: Row, m: Memory, op: Op)
    requires Done(w, m, op, STEPS)
    ensures CarriesComputed(w) && OutputComputed(w)
  {
    assert Computed(FillCarries, w, m, op) && Computed(PickOutput, w, m, op);
  }

  lemma TrapsDone(w: Row, m: Memory, op: Op)
    requires Done(w, m, op, STEPS)
    ensures TrapsComputed(w, m)
  {
    assert Computed(TestDivisor, w, m, op) && Computed(AddDivisor, w, m, op) && Computed(TestBound, w, m, op);
  }

  lemma AllComplete(w: Row, m: Memory, op: Op)
    requires OperandsInRange(m) && w[4] == OpMask(op)
    requires FlagsComputed(w, op) && SignsComputed(w, m) && WordsComputed(w, m, op) && OutcomeSignsComputed(w)
    requires FactorsSelected(w) && ProductSelected(w, m) && BytesComputed(w, m)
    requires CarriesComputed(w) && OutputComputed(w) && TrapsComputed(w, m)
    ensures Satisfied(w, m)
  {
    forall g
      ensures Holds(g, w, m)
    {
      match g
      case Flags => FlagsComplete(w, m, op);
      case Signs => SignsComplete(w, m, op);
      case Selection => SelectionComplete(w, m, op);
      case Carrying =>
        RelationHolds(w, m, op);
        CarryingComplete(w, m);
      case Traps => TrapsComplete(w, m, op);
      case Output => OutputComplete(w, m, op);
    }
  }
}
