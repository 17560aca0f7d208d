/** The witness generator of the unsigned multiply/divide circuit, and the proof that the row it
    leaves satisfies the circuit for all operands. */
module UnsignedGenerator {
  import opened Words
  import opened Mersenne31
  import opened Gadgets
  import opened LimbChain
  import opened MExtension
  import opened Witness
  import opened UnsignedMulDiv
  import G = MulDivGenerator

  // ---------------------------------------------------------------------------------------
  // What each step leaves in the row

  predicate FlagsComputed(w: Row, op: Op) {
    w[26] == Bit(op.IsDivision()) && w[27] == Bit(op.FirstWord())
  }

  predicate WordsComputed(w: Row, m: Memory, op: Op)
    requires OperandsInRange(m)
  {
    && WordsInRange(w) && Related(op.IsDivision(), Rs1(m), Rs2(m), First(w), Second(w))
    && (op.IsDivision() ==> Trapped(Rs1(m), Rs2(m), First(w), Second(w)))
  }

  predicate OperandsComputed(w: Row, m: Memory) {
    && w[39] == (if w[26] == 1 then w[22] else 0) && w[40] == (if w[26] == 1 then w[23] else 0)
    && w[41] == (if w[26] == 1 then m[2] else w[20]) && w[42] == (if w[26] == 1 then m[3] else w[21])
    && w[43] == (if w[26] == 1 then 0 else w[22]) && w[44] == (if w[26] == 1 then 0 else w[23])
  }

  predicate BytesComputed(w: Row, m: Memory) {
    && w[9] < B8 && w[10] < B8 && w[11] < B8 && w[12] < B8
    && w[13] < B8 && w[14] < B8 && w[15] < B8 && w[16] < B8
    && w[9] + B8 * w[10] == (if w[26] == 1 then w[20] else m[2])
    && w[11] + B8 * w[12] == (if w[26] == 1 then w[21] else m[3])
    && w[13] + B8 * w[14] == m[7] && w[15] + B8 * w[16] == m[8]
  }

  predicate CarriesComputed(w: Row) {
    CarryRanges(w) && Chain(Op1(w), Op2(w), Additive(w), Product(w), RowCarries(w))
  }

  predicate OutputComputed(w: Row) {
    && w[45] == (if w[27] == 1 then w[20] else w[22])
    && w[46] == (if w[27] == 1 then w[21] else w[23])
  }

  ghost predicate DivisorTested(w: Row, m: Memory) {
    && w[47] == Bit(m[7] + m[8] == 0) && w[48] == InverseOrZero(Reduce(m[7] + m[8]))
    && w[49] == Bit(w[26] == 1 && w[47] == 1)
  }

  predicate DivisorSubtracted(w: Row, m: Memory)
    requires OperandsInRange(m)
  {
    && w[22] < B16 && w[23] < B16 && w[24] < B16 && w[25] < B16 && IsBit(w[32])
    && Word(w[22], w[23]) - Rs2(m) == Word(w[24], w[25]) - B32 * w[32]
  }

  /** The order of the generated functions. */
  datatype Step =
    SplitFlags | FillWords | PickOperands | SplitBytes | FillCarries | PickOutput | TestDivisor | SubtractDivisor
  {
    function Order(): nat {
      match this
      case SplitFlags => 0
      case FillWords => 1
      case PickOperands => 2
      case SplitBytes => 3
      case FillCarries => 4
      case PickOutput => 5
      case TestDivisor => 6
      case SubtractDivisor => 7
    }
  }

  /** The step that writes a place; the decoder fills the rest beforehand. */
  function WrittenAt(place: int): int {
    if place == 26 || place == 27 then 0
    else if 20 <= place <= 23 then 1
    else if 39 <= place <= 44 then 2
    else if 9 <= place <= 16 then 3
    else if 17 <= place <= 19 || 28 <= place <= 31 then 4
    else if place == 45 || place == 46 then 5
    else if 47 <= place <= 49 then 6
    else if place == 24 || place == 25 || place == 32 then 7
    else -1
  }

  /** A step writes its own places and no others. */
  ghost predicate Writes(before: Row, after: Row, step: Step) {
    forall i :: 0 <= i < ROW_SIZE && WrittenAt(i) != step.Order() ==> after[i] == before[i]
  }

  const STEPS := 8

  ghost predicate Computed(step: Step, w: Row, m: Memory, op: Op)
    requires OperandsInRange(m)
  {
    match step
    case SplitFlags => FlagsComputed(w, op)
    case FillWords => WordsComputed(w, m, op)
    case PickOperands => OperandsComputed(w, m)
    case SplitBytes => BytesComputed(w, m)
    case FillCarries => CarriesComputed(w)
    case PickOutput => OutputComputed(w)
    case TestDivisor => DivisorTested(w, m)
    case SubtractDivisor => DivisorSubtracted(w, m)
  }

  /** The first n steps have left what they compute. */
  ghost predicate Done(w: Row, m: Memory, op: Op, n: nat) {
    OperandsInRange(m) && w[4] == OpMask(op)
    && forall step: Step {:trigger Computed(step, w, m, op)} :: step.Order() < n ==> Computed(step, w, m, op)
  }

  lemma ComputedKept(step: Step, before: Row, after: Row, m: Memory, op: Op, next: Step)
    requires OperandsInRange(m) && step.Order() < next.Order()
    requires Writes(before, after, next) && Computed(step, before, m, op)
    ensures Computed(step, after, m, op)
  {
    if step == FillCarries { ChainKept(before, after, next); }
  }

  lemma ChainKept(before: Row, after: Row, next: Step)
    requires FillCarries.Order() < next.Order() && Writes(before, after, next)
    ensures Op1(after) == Op1(before) && Op2(after) == Op2(before) && Additive(after) == Additive(before)
    ensures Product(after) == Product(before) && RowCarries(after) == RowCarries(before)
    ensures CarryRanges(before) ==> CarryRanges(after)
  {
  }

  lemma Advance(before: Row, after: Row, m: Memory, op: Op, step: Step)
    requires Done(before, m, op, step.Order())
    requires Writes(before, after, step) && Computed(step, after, m, op)
    ensures Done(after, m, op, step.Order() + 1)
  {
    forall earlier: Step | earlier.Order() < step.Order() + 1
      ensures Computed(earlier, after, m, op)
    {
      if earlier.Order() < step.Order() {
        ComputedKept(earlier, before, after, m, op, step);
      } else {
        assert earlier == step;
      }
    }
  }

  // ---------------------------------------------------------------------------------------
  // The computed row satisfies the circuit

  lemma SelectionComplete(w: Row, m: Memory)
    requires OperandsInRange(m) && IsBit(w[26]) && WordsInRange(w) && OperandsComputed(w, m) && BytesComputed(w, m)
    ensures SelectionConstraints(w, m)
  {
    ChooseMeans(w[26], w[20], m[2], w[9] + B8 * w[10]);
    ChooseMeans(w[26], w[21], m[3], w[11] + B8 * w[12]);
    ChooseMeans(w[26], w[22], 0, w[39]);
    ChooseMeans(w[26], w[23], 0, w[40]);
    ChooseMeans(w[26], m[2], w[20], w[41]);
    ChooseMeans(w[26], m[3], w[21], w[42]);
    ChooseMeans(w[26], 0, w[22], w[43]);
    ChooseMeans(w[26], 0, w[23], w[44]);
  }

  lemma OutputComplete(w: Row)
    requires IsBit(w[27]) && OutputComputed(w)
    ensures OutputConstraints(w)
  {
    ChooseMeans(w[27], w[20], w[22], w[45]);
    ChooseMeans(w[27], w[21], w[23], w[46]);
  }

  lemma TrapsComplete(w: Row, m: Memory, op: Op)
    requires OperandsInRange(m) && FlagsComputed(w, op) && WordsComputed(w, m, op)
    requires DivisorTested(w, m) && DivisorSubtracted(w, m)
    ensures TrapConstraints(w, m)
  {
    IsZeroHolds(m[7], m[8]);
    BooleanGadgetsMean(w[26], w[47], w[49]);
    SubtractionMeans(w[22], w[23], m[7], m[8], w[24], w[25], w[32]);
    if op.IsDivision() && Rs2(m) == 0 {
      assert w[20] == 0xffff && w[21] == 0xffff;
    } else if op.IsDivision() {
      assert w[49] == 0 && w[32] == 1;
    }
    assert w[49] * (w[20] - 0xffff) == 0 && w[49] * (w[21] - 0xffff) == 0;
    assert (w[26] - w[49]) * (1 - w[32]) == 0;
  }

  lemma FlagsComplete(w: Row, op: Op)
    requires FlagsComputed(w, op) && w[4] == OpMask(op)
    ensures FlagConstraints(w)
  {
  }

  /** Completeness: a finished row satisfies every constraint. */
  lemma CircuitComplete(w: Row, m: Memory, op: Op)
    requires Done(w, m, op, STEPS)
    ensures Satisfied(w, m)
  {
    assert Computed(SplitFlags, w, m, op) && Computed(FillWords, w, m, op);
    assert Computed(PickOperands, w, m, op) && Computed(SplitBytes, w, m, op);
    assert Computed(FillCarries, w, m, op) && Computed(PickOutput, w, m, op);
    assert Computed(TestDivisor, w, m, op) && Computed(SubtractDivisor, w, m, op);
    FlagsComplete(w, op);
    SelectionComplete(w, m);
    ChainVanishes(Op1(w), Op2(w), Additive(w), Product(w), RowCarries(w));
    TrapsComplete(w, m, op);
    OutputComplete(w);
  }

  // ---------------------------------------------------------------------------------------
  // The generator

  ghost predicate Ready(row: WitnessRow)
    reads row.m
  {
    row.Valid() && row.w.Length == ROW_SIZE && row.m.Length == MEMORY_SIZE && row.s.Length == 2
    && OperandsInRange(row.m[..])
  }

  ghost predicate Progress(row: WitnessRow, op: Op, n: nat)
    reads row.w, row.m
  {
    Ready(row) && Done(row.w[..], row.m[..], op, n)
  }

  /** eval_fn_1. */
  method WriteFlags(row: WitnessRow, ghost op: Op)
    requires Progress(row, op, 0)
    modifies row.w
    ensures Progress(row, op, 1)
  {
    ghost var before: Row := row.w[..];
    var w, mask := row.w, row.w[4];
    w[26], w[27] := mask % 2, mask / 2 % 2;
    Advance(before, w[..], row.m[..], op, SplitFlags);
  }

  /** The words: a widening product, or a division whose zero divisor is replaced first. */
  method GenerateWords(division: bool, x: u32, y: u32) returns (first: u32, second: u32)
    ensures Related(division, x, y, first, second) && (division ==> Trapped(x, y, first, second))
  {
    var p := x * y;
    ProductBound(x, y);
    var divisor: u32 := if y == 0 then 0x7ff_ffff else y;
    SmallQuotient(x, divisor);
    var quotient: u32, remainder: u32 := x / divisor, x % divisor;
    if !division {
      first, second := p % B32, p / B32;
    } else {
      first := if y == 0 then B32 - 1 else quotient;
      second := if y == 0 then x else remainder;
      DividedWords(x, y, divisor, first, second);
    }
  }

  lemma DividedWords(x: u32, y: u32, divisor: u32, first: u32, second: u32)
    requires divisor != 0 && (y != 0 ==> divisor == y)
    requires first == (if y == 0 then B32 - 1 else x / divisor) && second == (if y == 0 then x else x % divisor)
    ensures Related(true, x, y, first, second) && Trapped(x, y, first, second)
  {
    if y == 0 {
      assert first * y == 0;
    } else {
      assert x == divisor * (x / divisor) + x % divisor;
    }
  }

  lemma ProductBound(x: u32, y: u32)
    ensures 0 <= x * y && (x * y) / B32 < B32
  {
    NonNegativeProduct(x, y);
    NonNegativeProduct(B32 - 1 - x, y);
    HighWordBelow(x * y);
  }

  lemma HighWordBelow(p: int)
    requires 0 <= p <= (B32 - 1) * (B32 - 1)
    ensures p / B32 < B32
  {
  }

  /** eval_fn_4. */
  method WriteWords(row: WitnessRow, ghost op: Op)
    requires Progress(row, op, 1)
    modifies row.w
    ensures Progress(row, op, 2)
  {
    ghost var before: Row := row.w[..];
    assert Computed(SplitFlags, before, row.m[..], op);
    var w, m := row.w, row.m;
    var first, second := GenerateWords(w[26] == 1, Word(m[2], m[3]), Word(m[7], m[8]));
    w[20], w[21], w[22], w[23] := Low(first), High(first), Low(second), High(second);
    Advance(before, w[..], m[..], op, FillWords);
  }

  /** The limbs of quotient or rs1 wait in two scratch places. */
  ghost predicate FactorInScratch(row: WitnessRow)
    requires Ready(row)
    reads row.w, row.m, row.s
  {
    && row.s[0] == (if row.w[26] == 1 then row.w[20] else row.m[2]) < B16
    && row.s[1] == (if row.w[26] == 1 then row.w[21] else row.m[3]) < B16
  }

  /** eval_fn_5 to eval_fn_12: the factor, in scratch places, the addend, and the product or the
      dividend. */
  method FillOperands(row: WitnessRow)
    requires Ready(row) && row.w[20] < B16 && row.w[21] < B16
    modifies row.w, row.s
    ensures Ready(row) && FactorInScratch(row) && OperandsComputed(row.w[..], row.m[..])
    ensures Writes(old(row.w[..]), row.w[..], PickOperands)
  {
    var w, m, s := row.w, row.m, row.s;
    var divide := w[26] == 1;
    s[0], s[1] := if divide then w[20] else m[2], if divide then w[21] else m[3];
    w[39], w[40] := if divide then w[22] else 0, if divide then w[23] else 0;
    w[41], w[42] := if divide then m[2] else w[20], if divide then m[3] else w[21];
    w[43], w[44] := if divide then 0 else w[22], if divide then 0 else w[23];
  }

  method WriteOperands(row: WitnessRow, ghost op: Op)
    requires Progress(row, op, 2)
    modifies row.w, row.s
    ensures Progress(row, op, 3) && FactorInScratch(row)
  {
    ghost var before: Row := row.w[..];
    assert Computed(FillWords, before, row.m[..], op);
    FillOperands(row);
    Advance(before, row.w[..], row.m[..], op, PickOperands);
  }

  method SplitLimb(x: Felt) returns (low: Felt, high: Felt)
    requires x < B16
    ensures low < B8 && high < B8 && low + B8 * high == x
  {
    low, high := x % B8, x / B8 % B8;
  }

  /** eval_fn_13 and eval_fn_14. */
  method WriteBytes(row: WitnessRow, ghost op: Op)
    requires Progress(row, op, 3) && FactorInScratch(row)
    modifies row.w
    ensures Progress(row, op, 4)
  {
    ghost var before: Row := row.w[..];
    var w, m, s := row.w, row.m, row.s;
    var b0, b1 := SplitLimb(s[0]);
    var b2, b3 := SplitLimb(s[1]);
    w[9], w[10], w[11], w[12] := b0, b1, b2, b3;
    b0, b1 := SplitLimb(m[7]);
    b2, b3 := SplitLimb(m[8]);
    w[13], w[14], w[15], w[16] := b0, b1, b2, b3;
    Advance(before, w[..], m[..], op, SplitBytes);
  }

  lemma RelationReady(w: Row, m: Memory, op: Op)
    requires Done(w, m, op, 4)
    ensures Op1(w).Valid() && Op2(w).Valid() && Additive(w).Valid() && Product(w).Valid()
    ensures Op1(w).Value() * Op2(w).Value() + Additive(w).Value() == Product(w).Value()
  {
    assert Computed(SplitFlags, w, m, op) && Computed(FillWords, w, m, op);
    assert Computed(PickOperands, w, m, op) && Computed(SplitBytes, w, m, op);
    SelectionComplete(w, m);
    OperandsSelected(w, m);
  }

  /** The three carries, each from the stored form of the one before: 9, 10 and 9 bits. */
  method ComputeCarries(a: Factor, b: Factor, r: Addend, p: Limbs)
    returns (k0: G.StoredCarry, k1: G.StoredCarry, k2: G.StoredCarry)
    requires a.Valid() && b.Valid() && r.Valid() && p.Valid() && a.sign == 0 && b.sign == 0 && r.sign == 0
    requires a.Value() * b.Value() + r.Value() == p.Value()
    ensures k0.Valid() && k1.Valid() && k2.Valid() && k0.bit1 == k0.bit2 == k1.bit2 == k2.bit1 == k2.bit2 == 0
    ensures Chain(a, b, r, p, Carries(k0.Value(), k1.Value(), k2.Value(), 0))
  {
    ThreeCarries(a, b, r, p);
    ghost var c := ComputedCarries(a, b, r, p);
    k0 := G.SplitCarry(Sum0(a, b, r), p.l0, c.c0);
    k1 := G.SplitCarry(k0.Value() + Sum1(a, b, r), p.l1, c.c1);
    k2 := G.SplitCarry(k1.Value() + Sum2(a, b, r), p.l2, c.c2);
  }

  /** eval_fn_15 to eval_fn_17. */
  method WriteCarries(row: WitnessRow, ghost op: Op)
    requires Progress(row, op, 4)
    modifies row.w
    ensures Progress(row, op, 5)
  {
    ghost var before: Row := row.w[..];
    RelationReady(before, row.m[..], op);
    var w := row.w;
    var k0, k1, k2 := ComputeCarries(Op1(w[..]), Op2(w[..]), Additive(w[..]), Product(w[..]));
    w[28], w[17] := k0.bit0, k0.byte;
    w[29], w[30], w[18] := k1.bit0, k1.bit1, k1.byte;
    w[31], w[19] := k2.bit0, k2.byte;
    CarriesStored(before, w[..], k0, k1, k2);
    Advance(before, w[..], row.m[..], op, FillCarries);
  }

  lemma CarriesStored(before: Row, after: Row, k0: G.StoredCarry, k1: G.StoredCarry, k2: G.StoredCarry)
    requires Writes(before, after, FillCarries) && k0.Valid() && k1.Valid() && k2.Valid()
    requires k0.bit1 == k0.bit2 == k1.bit2 == k2.bit1 == k2.bit2 == 0
    requires after[28] == k0.bit0 && after[17] == k0.byte && after[29] == k1.bit0 && after[30] == k1.bit1
    requires after[18] == k1.byte && after[31] == k2.bit0 && after[19] == k2.byte
    requires Chain(
      Op1(before), Op2(before), Additive(before), Product(before), Carries(k0.Value(), k1.Value(), k2.Value(), 0))
    ensures CarriesComputed(after)
  {
    assert Op1(after) == Op1(before) && Op2(after) == Op2(before);
    assert Additive(after) == Additive(before) && Product(after) == Product(before);
    assert RowCarries(after) == Carries(k0.Value(), k1.Value(), k2.Value(), 0);
  }

  /** eval_fn_18 and eval_fn_19. */
  method WriteOutput(row: WitnessRow, ghost op: Op)
    requires Progress(row, op, 5)
    modifies row.w
    ensures Progress(row, op, 6)
  {
    ghost var before: Row := row.w[..];
    var w := row.w;
    w[45] := if w[27] == 1 then w[20] else w[22];
    w[46] := if w[27] == 1 then w[21] else w[23];
    Advance(before, w[..], row.m[..], op, PickOutput);
  }

  /** eval_fn_20 and eval_fn_21. */
  method WriteDivisorTest(row: WitnessRow, ghost op: Op)
    requires Progress(row, op, 6)
    modifies row.w
    ensures Progress(row, op, 7)
  {
    ghost var before: Row := row.w[..];
    assert Computed(SplitFlags, before, row.m[..], op);
    row.EvalIsZero(row.m[7], row.m[8], 47, 48);
    row.EvalAnd(26, 47, 49);
    Advance(before, row.w[..], row.m[..], op, TestDivisor);
  }

  /** eval_fn_22. */
  method WriteDifference(row: WitnessRow, ghost op: Op)
    requires Progress(row, op, 7)
    modifies row.w
    ensures Progress(row, op, 8)
  {
    ghost var before: Row := row.w[..];
    assert Computed(FillWords, before, row.m[..], op);
    var w, m := row.w, row.m;
    var difference, underflow := OverflowingSub(Word(w[22], w[23]), Word(m[7], m[8]));
    w[24], w[25], w[32] := Low(difference), High(difference), underflow;
    Advance(before, w[..], m[..], op, SubtractDivisor);
  }

  /** The whole generator: for every unsigned operation and all operands the row satisfies the circuit,
      and the output is the result of the instruction. */
  method Evaluate(row: WitnessRow, ghost op: Op)
    requires Ready(row) && Supported(op) && row.w[4] == OpMask(op)
    modifies row.w, row.s
    ensures Ready(row) && row.w[4] == OpMask(op) && Satisfied(row.w[..], row.m[..])
    ensures row.w[45] < B16 && row.w[46] < B16
    ensures Word(row.w[45], row.w[46]) == Result(op, Rs1(row.m[..]), Rs2(row.m[..]))
  {
    WriteFlags(row, op);
    WriteWords(row, op);
    WriteOperands(row, op);
    WriteBytes(row, op);
    WriteCarries(row, op);
    WriteOutput(row, op);
    WriteDivisorTest(row, op);
    WriteDifference(row, op);
    CircuitComplete(row.w[..], row.m[..], op);
    CircuitSound(row.w[..], row.m[..], op);
  }
}
