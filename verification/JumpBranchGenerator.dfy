/** The witness generator of jumps, branches and set-less-than. */
module JumpBranchGenerator {
  import opened Words
  import opened Mersenne31
  import opened Gadgets
  import opened Witness
  import opened JumpBranch
  import opened JumpBranchCircuit

  ghost predicate Ready(row: WitnessRow)
    reads row.w, row.m
  {
    row.Valid() && row.w.Length == ROW_SIZE && row.m.Length == MEMORY_SIZE && InputsInRange(row.w[..], row.m[..])
  }

  /** eval_fn_1: the five flags. */
  method WriteFlags(row: WitnessRow, ghost op: Op)
    requires Ready(row) && row.w[4] == OpMask(op)
    modifies row.w
    ensures Ready(row) && Flagged(row.w[..], op) && Only(old(row.w[..]), row.w[..], {15, 16, 17, 18, 19})
  {
    var w, mask := row.w, row.w[4];
    w[15], w[16], w[17], w[18], w[19] := mask % 2, mask / 2 % 2, mask / 4 % 2, mask / 8 % 2, mask / 16 % 2;
  }

  /** eval_fn_4 to eval_fn_8: one of five masked writes takes effect. */
  method WriteComparison(row: WitnessRow, ghost op: Op)
    requires Ready(row) && Flagged(row.w[..], op)
    modifies row.w
    ensures Ready(row) && Flagged(row.w[..], op) && Compared(row.w[..], row.m[..], op)
    ensures Only(old(row.w[..]), row.w[..], {9, 10, 20})
  {
    var w, m := row.w, row.m;
    row.MaskedSub(19, Word(m[2], m[3]), Word(m[7], m[8]), 9, 20);
    row.MaskedSub(17, Word(m[2], m[3]), Word(m[7], m[8]), 9, 20);
    row.MaskedSub(18, Word(m[2], m[3]), Word(w[1], w[2]), 9, 20);
    row.MaskedAdd(15, Word(m[18], m[19]), 4, 9, 20);
    row.MaskedAdd(16, Word(m[18], m[19]), 4, 9, 20);
  }

  /** eval_fn_9: equality. */
  method WriteZeroTest(row: WitnessRow, ghost op: Op)
    requires Ready(row) && Flagged(row.w[..], op) && row.w[9] < B16 && row.w[10] < B16
    modifies row.w
    ensures Ready(row) && Flagged(row.w[..], op) && ZeroTested(row.w[..]) && Only(old(row.w[..]), row.w[..], {28, 32})
  {
    var w := row.w;
    IsZeroHolds(w[9], w[10]);
    row.EvalIsZero(w[9], w[10], 28, 32);
  }

  predicate ZeroTested(w: Row) {
    IsZero(w[9], w[10], w[28], w[32]) && IsBit(w[28])
  }

  predicate SignsTested(w: Row, m: Memory) {
    SignOf(LeftHigh(w, m), w[21], w[11]) && SignOf(RightHigh(w, m), w[22], w[12])
  }

  /** eval_fn_10 and eval_fn_11: the two signs. */
  method WriteSigns(row: WitnessRow, ghost op: Op)
    requires Ready(row) && Flagged(row.w[..], op)
    modifies row.w
    ensures Ready(row) && Flagged(row.w[..], op) && SignsTested(row.w[..], row.m[..])
    ensures Only(old(row.w[..]), row.w[..], {21, 11, 22, 12})
  {
    var w, m := row.w, row.m;
    var left: int := if w[16] == 1 then m[19] else if w[15] == 1 then m[19] else if w[18] == 1 then m[3]
                     else if w[17] == 1 then m[3] else if w[19] == 1 then m[3] else 0;
    w[21], w[11] := Bit(left < 0x8000), Wrap16(left - 0x8000);
    var right: int := if w[18] == 1 then w[2] else if w[17] == 1 then m[8] else if w[19] == 1 then m[8] else 0;
    w[22], w[12] := Bit(right < 0x8000), Wrap16(right - 0x8000);
    SignOfMeans(left, w[21], w[11]);
    SignOfMeans(right, w[22], w[12]);
    HighsCollapse(w[..], m[..], op);
  }

  method WriteTests(row: WitnessRow, ghost op: Op)
    requires Ready(row) && Flagged(row.w[..], op) && row.w[9] < B16 && row.w[10] < B16
    modifies row.w
    ensures Ready(row) && Flagged(row.w[..], op) && ZeroTested(row.w[..]) && SignsTested(row.w[..], row.m[..])
    ensures Only(old(row.w[..]), row.w[..], {28, 32, 21, 11, 22, 12})
  {
    WriteZeroTest(row, op);
    ghost var a: Row := row.w[..];
    WriteSigns(row, op);
    ZeroTestStays(a, row.w[..]);
  }

  lemma ZeroTestStays(before: Row, after: Row)
    requires ZeroTested(before) && Only(before, after, {21, 11, 22, 12})
    ensures ZeroTested(after)
  {
  }

  /** The index, summed in the field. */
  method ComputeKey(a: Felt, b: Felt, c: Felt, d: Felt) returns (key: Felt)
    requires IsBit(a) && IsBit(b) && IsBit(c) && IsBit(d)
    ensures key == a + 2 * b + 4 * (1 - c) + 8 * (1 - d)
  {
    key := Add(Add(Add(Add(12, Mul(1, a)), Mul(2, b)), Mul(P - 4, c)), Mul(P - 8, d));
    KeySum(a, b, c, d);
  }

  lemma KeyOfBits(w: Row, key: Felt)
    requires IsBit(w[20]) && IsBit(w[28]) && IsBit(w[21]) && IsBit(w[22])
    requires key == w[20] + 2 * w[28] + 4 * (1 - w[21]) + 8 * (1 - w[22])
    ensures Key(w) == key < 16
  {
  }

  /** eval_fn_12: the index is looked up with funct3. */
  method WriteCondition(row: WitnessRow)
    requires Ready(row) && IsBit(row.w[20]) && IsBit(row.w[28]) && IsBit(row.w[21]) && IsBit(row.w[22])
    modifies row.w
    ensures Ready(row) && InConditionTable(Key(row.w[..]), row.w[3], row.w[29])
    ensures Only(old(row.w[..]), row.w[..], {29})
  {
    var w := row.w;
    var key := ComputeKey(w[20], w[28], w[21], w[22]);
    KeyOfBits(w[..], key);
    w[29] := Bit(Resolve(key, w[3]));
    KeyOfBits(w[..], key);
  }

  lemma KeySum(a: int, b: int, c: int, d: int)
    requires IsBit(a) && IsBit(b) && IsBit(c) && IsBit(d)
    ensures Add(Add(Add(Add(12, Mul(1, a)), Mul(2, b)), Mul(P - 4, c)), Mul(P - 8, d))
         == a + 2 * b + 4 * (1 - c) + 8 * (1 - d)
  {
    WeightAdded(12, 1, a);
    WeightAdded(12 + a, 2, b);
    WeightTaken(12 + a + 2 * b, 4, c);
    WeightTaken(12 + a + 2 * b - 4 * c, 8, d);
  }

  lemma WeightAdded(x: Felt, k: Felt, b: int)
    requires IsBit(b) && x + k < P
    ensures Add(x, Mul(k, b)) == x + k * b
  {
    assert k * b == if b == 1 then k else 0;
  }

  lemma WeightTaken(x: Felt, k: Felt, b: int)
    requires IsBit(b) && 0 < k <= x
    ensures Add(x, Mul(P - k, b)) == x - k * b
  {
    assert (P - k) * b == if b == 1 then P - k else 0;
  }

  /** eval_fn_13 and eval_fn_14: what rd receives, unless it is x0. */
  method WriteRd(row: WitnessRow, ghost op: Op)
    requires Ready(row) && Flagged(row.w[..], op)
    modifies row.w
    ensures Ready(row) && Flagged(row.w[..], op) && RdSelected(row.w[..]) && Only(old(row.w[..]), row.w[..], {33, 34})
    ensures row.w[4] == old(row.w[4])
  {
    var w := row.w;
    var address := ComputeUnmasked(w[0], w[15], w[16]);
    w[33] := address;
    var flag := ComputeUnmasked(w[0], w[17], w[18]);
    w[34] := flag;
  }

  /** (1 - zero) * (a + b), term by term. */
  method ComputeUnmasked(zero: Felt, a: Felt, b: Felt) returns (out: Felt)
    requires IsBit(zero) && IsBit(a) && IsBit(b) && a + b <= 1
    ensures out == Bit(zero == 0 && (a == 1 || b == 1))
  {
    ProductOfBits(zero, a);
    ProductOfBits(zero, b);
    var masked1, masked2 := Mul(zero, a), Mul(zero, b);
    out := Add(Add(Sub(Sub(0, masked1), masked2), a), b);
    SmallSum(masked1, masked2, a, b);
  }

  lemma SmallSum(x: int, y: int, a: int, b: int)
    requires IsBit(x) && IsBit(y) && IsBit(a) && IsBit(b) && x <= a && y <= b
    ensures Add(Add(Sub(Sub(0, x), y), a), b) == a + b - x - y
  {
  }

  /** eval_fn_18 to eval_fn_21: unless the row is a branch, one of four masked writes takes
      effect. */
  method WriteStraightTarget(row: WitnessRow, ghost op: Op)
    requires Ready(row) && Flagged(row.w[..], op)
    modifies row.w
    ensures Ready(row) && Flagged(row.w[..], op) && (!op.BRANCH? ==> Targeted(row.w[..], row.m[..], op))
    ensures Only(old(row.w[..]), row.w[..], {13, 14, 23})
  {
    var w, m := row.w, row.m;
    row.MaskedAdd(17, Word(m[18], m[19]), 4, 13, 23);
    row.MaskedAdd(18, Word(m[18], m[19]), 4, 13, 23);
    row.MaskedAdd(15, Word(m[18], m[19]), Word(w[1], w[2]), 13, 23);
    row.MaskedAdd(16, Word(m[2], m[3]), Word(w[1], w[2]), 13, 23);
  }

  /** eval_fn_22 to eval_fn_25: a branch that is not taken, and one that is. */
  method WriteBranchTarget(row: WitnessRow, ghost op: Op)
    requires Ready(row) && Flagged(row.w[..], op) && IsBit(row.w[29])
    requires (!op.BRANCH? ==> Targeted(row.w[..], row.m[..], op))
    modifies row.w
    ensures Ready(row) && Flagged(row.w[..], op) && SplitBranch(row.w[..]) && Targeted(row.w[..], row.m[..], op)
    ensures Only(old(row.w[..]), row.w[..], {13, 14, 23, 35, 36})
  {
    var w, m := row.w, row.m;
    row.EvalAndNot(19, 29, 35);
    row.MaskedAdd(35, Word(m[18], m[19]), 4, 13, 23);
    row.EvalAnd(19, 29, 36);
    row.MaskedAdd(36, Word(m[18], m[19]), Word(w[1], w[2]), 13, 23);
  }

  method WriteTarget(row: WitnessRow, ghost op: Op)
    requires Ready(row) && Flagged(row.w[..], op) && IsBit(row.w[29])
    modifies row.w
    ensures Ready(row) && Flagged(row.w[..], op) && SplitBranch(row.w[..]) && Targeted(row.w[..], row.m[..], op)
    ensures Only(old(row.w[..]), row.w[..], {13, 14, 23, 35, 36})
  {
    WriteStraightTarget(row, op);
    WriteBranchTarget(row, op);
  }

  /** eval_fn_26: the two low bits of the target. */
  method WriteCleanup(row: WitnessRow)
    requires Ready(row) && row.w[13] < B16
    modifies row.w
    ensures Ready(row) && InCleanupTable(row.w[13], row.w[30], row.w[31]) && Only(old(row.w[..]), row.w[..], {30, 31})
  {
    var w := row.w;
    w[30], w[31] := w[13] / 2 % 2, w[13] - w[13] % 4;
  }

  lemma ComparedStays(before: Row, after: Row, m: Memory, op: Op)
    requires InputsInRange(before, m) && Compared(before, m, op)
    requires Only(before, after, {28, 32, 21, 11, 22, 12, 29, 33, 34, 13, 14, 23, 35, 36, 30, 31})
    ensures InputsInRange(after, m) && Compared(after, m, op)
  {
  }

  lemma FlagsStay(before: Row, after: Row, m: Memory, op: Op)
    requires FlagConstraints(before, m) && Flagged(before, op) && InputsInRange(before, m)
    requires Only(before, after, {33, 34, 13, 14, 23, 35, 36, 30, 31})
    ensures FlagConstraints(after, m) && after[29] == before[29]
  {
  }

  lemma TestsBecomeFlags(before: Row, after: Row, m: Memory)
    requires ZeroTested(before) && SignsTested(before, m) && Only(before, after, {29})
    requires InConditionTable(Key(after), after[3], after[29])
    ensures FlagConstraints(after, m)
  {
  }

  method EvalComparison(row: WitnessRow, ghost op: Op)
    requires Ready(row) && row.w[4] == OpMask(op)
    modifies row.w
    ensures Ready(row) && Flagged(row.w[..], op) && Compared(row.w[..], row.m[..], op)
    ensures IsBit(row.w[20]) && row.w[9] < B16 && row.w[10] < B16
    ensures row.w[4] == old(row.w[4])
  {
    WriteFlags(row, op);
    WriteComparison(row, op);
  }

  method EvalCondition(row: WitnessRow, ghost op: Op)
    requires Ready(row) && Flagged(row.w[..], op) && IsBit(row.w[20]) && row.w[9] < B16 && row.w[10] < B16
    modifies row.w
    ensures Ready(row) && Flagged(row.w[..], op) && FlagConstraints(row.w[..], row.m[..])
    ensures Only(old(row.w[..]), row.w[..], {28, 32, 21, 11, 22, 12, 29})
  {
    WriteTests(row, op);
    ghost var b: Row := row.w[..];
    WriteCondition(row);
    TestsBecomeFlags(b, row.w[..], row.m[..]);
  }

  method EvalFlags(row: WitnessRow, ghost op: Op)
    requires Ready(row) && row.w[4] == OpMask(op)
    modifies row.w
    ensures Ready(row) && Flagged(row.w[..], op) && Compared(row.w[..], row.m[..], op)
    ensures FlagConstraints(row.w[..], row.m[..])
    ensures row.w[4] == old(row.w[4])
  {
    EvalComparison(row, op);
    ghost var a: Row := row.w[..];
    EvalCondition(row, op);
    ComparedStays(a, row.w[..], row.m[..], op);
  }

  method WriteDestination(row: WitnessRow, ghost op: Op)
    requires Ready(row) && Flagged(row.w[..], op) && IsBit(row.w[29]) && RdSelected(row.w[..])
    modifies row.w
    ensures Ready(row) && Flagged(row.w[..], op) && RdSelected(row.w[..]) && SplitBranch(row.w[..])
    ensures Targeted(row.w[..], row.m[..], op) && InCleanupTable(row.w[13], row.w[30], row.w[31])
    ensures Only(old(row.w[..]), row.w[..], {13, 14, 23, 35, 36, 30, 31})
    ensures row.w[4] == old(row.w[4])
  {
    ghost var b: Row := row.w[..];
    WriteTarget(row, op);
    ghost var c: Row := row.w[..];
    WriteCleanup(row);
    RestStays(b, c, row.w[..], row.m[..], op);
  }

  method EvalTarget(row: WitnessRow, ghost op: Op)
    requires Ready(row) && Flagged(row.w[..], op) && Compared(row.w[..], row.m[..], op)
    requires FlagConstraints(row.w[..], row.m[..])
    modifies row.w
    ensures Ready(row) && Finished(row.w[..], row.m[..], op)
    ensures row.w[4] == old(row.w[4])
  {
    ghost var a: Row := row.w[..];
    WriteRd(row, op);
    WriteDestination(row, op);
    ComparedStays(a, row.w[..], row.m[..], op);
    FlagsStay(a, row.w[..], row.m[..], op);
  }

  lemma RestStays(b: Row, c: Row, after: Row, m: Memory, op: Op)
    requires Only(b, c, {13, 14, 23, 35, 36}) && Only(c, after, {30, 31}) && InputsInRange(c, m)
    requires RdSelected(b) && Flagged(c, op) && SplitBranch(c) && Targeted(c, m, op)
    ensures InputsInRange(after, m) && RdSelected(after) && Flagged(after, op) && SplitBranch(after)
    ensures Targeted(after, m, op)
  {
  }

  /** The whole generator: for every operation and all operands a comparison holds the condition of
      its funct3, the target is the one the operation and the outcome prescribe, the row meets both
      registered additions, and the enforced constraints too unless it continues at a jump target with
      bit 1 set. */
  method Evaluate(row: WitnessRow, ghost op: Op)
    requires Ready(row) && row.w[4] == OpMask(op)
    modifies row.w
    ensures Ready(row) && Finished(row.w[..], row.m[..], op)
    ensures !op.Jumps() ==> row.w[29] == Bit(Condition(row.w[3], Rs1(row.m[..]), Right(op, row.w[..], row.m[..])))
    ensures row.w[13] < B16 && row.w[14] < B16
    ensures Word(row.w[13], row.w[14]) == Target(op, row.w[29] == 1, Pc(row.m[..]), Rs1(row.m[..]), Imm(row.w[..]))
    ensures MeetsAdditions(row.w[..], row.m[..], op)
    ensures Accepted(row.w[..], row.m[..]) <==>
            (Jumping(op, row.w[..]) ==> Word(row.w[13], row.w[14]) / 2 % 2 == 0)
  {
    EvalFlags(row, op);
    EvalTarget(row, op);
    FinishedMeans(row.w[..], row.m[..], op);
    RowComplete(row.w[..], row.m[..], op);
  }

  /** The row meets the enforced constraints, with rd and the next program counter that follow from
      it. */
  predicate Accepted(w: Row, m: Memory) {
    Enforced(w, m, Limbs(Written(w).0, Written(w).1), Limbs(NextPc(w).0, NextPc(w).1))
  }

  /** The row meets the registered additions, with the carries that follow from it. */
  predicate MeetsAdditions(w: Row, m: Memory, op: Op) {
    Registered(w, m, CarryOf(Comparison(w, m, op)), CarryOf(Destination(w, m, op, w[29] == 1)))
  }
}
