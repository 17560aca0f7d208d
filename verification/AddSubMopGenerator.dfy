/** The witness generator of addition, subtraction, LUI, AUIPC and the modular operations. */
module AddSubMopGenerator {
  import opened Words
  import opened Mersenne31
  import opened Witness
  import opened AddSubMop
  import N = NumberTheory
  import B = PcBump

  ghost predicate Ready(row: WitnessRow)
    reads row.w, row.m
  {
    row.Valid() && row.w.Length == ROW_SIZE && row.m.Length == MEMORY_SIZE && InputsInRange(row.w[..], row.m[..])
  }

  /** eval_fn_1: the eight flags. */
  method WriteFlags(row: WitnessRow, ghost op: Op)
    requires Ready(row) && row.w[4] == OpMask(op)
    modifies row.w
    ensures Ready(row) && Flagged(row.w[..], op) && FlagConstraints(row.w[..]) && row.w[4] == OpMask(op)
  {
    var w, mask := row.w, row.w[4];
    w[12], w[13], w[14], w[15] := mask % 2, mask / 2 % 2, mask / 4 % 2, mask / 8 % 2;
    w[16], w[17], w[18], w[19] := mask / 16 % 2, mask / 32 % 2, mask / 64 % 2, mask / 128 % 2;
  }

  predicate ProductStored(w: Row, m: Memory) {
    Vanishes(Joined(m[2], m[3]) * Joined(m[7], m[8]) - w[28])
  }

  /** eval_fn_4: the product of the operands in the field, with 2^32 replaced by 2. */
  method WriteProduct(row: WitnessRow, ghost op: Op)
    requires Ready(row) && Flagged(row.w[..], op) && FlagConstraints(row.w[..])
    modifies row.w
    ensures Ready(row) && Flagged(row.w[..], op) && FlagConstraints(row.w[..]) && ProductStored(row.w[..], row.m[..])
    ensures row.w[4] == old(row.w[4])
  {
    var w, m := row.w, row.m;
    var product := LimbwiseProduct(m[2], m[3], m[7], m[8]);
    w[28] := product;
  }

  method LimbwiseProduct(a0: u16, a1: u16, b0: u16, b1: u16) returns (r: Felt)
    ensures Vanishes(Joined(a0, a1) * Joined(b0, b1) - r)
  {
    r := Add(0, Mul(a0, b0));
    r := Add(r, Mul(Mul(a0, B16), b1));
    r := Add(r, Mul(Mul(a1, B16), b0));
    r := Add(r, Mul(Mul(a1, 2), b1));
    SumOfProducts(a0, a1, b0, b1, r);
    LimbProduct(a0, a1, b0, b1);
    Transitive(Joined(a0, a1) * Joined(b0, b1), a0 * b0 + a0 * B16 * b1 + a1 * B16 * b0 + a1 * 2 * b1, r);
  }

  lemma SumOfProducts(a0: u16, a1: u16, b0: u16, b1: u16, r: Felt)
    requires r == Add(Add(Add(Add(0, Mul(a0, b0)), Mul(Mul(a0, B16), b1)), Mul(Mul(a1, B16), b0)), Mul(Mul(a1, 2), b1))
    ensures Vanishes(r - (a0 * b0 + a0 * B16 * b1 + a1 * B16 * b0 + a1 * 2 * b1))
  {
    N.ModMulLeft(a0 * B16, b1, P);
    N.ModMulLeft(a1 * B16, b0, P);
    N.ModMulLeft(a1 * 2, b1, P);
    SumReduced(a0 * b0, a0 * B16 * b1, a1 * B16 * b0, a1 * 2 * b1);
    DifferenceVanishes(a0 * b0 + a0 * B16 * b1 + a1 * B16 * b0 + a1 * 2 * b1);
  }

  lemma SumReduced(x: int, y: int, z: int, t: int)
    ensures Add(Add(Add(Add(0, Reduce(x)), Reduce(y)), Reduce(z)), Reduce(t)) == Reduce(x + y + z + t)
  {
    PairReduced(x, y);
    PairReduced(x + y, z);
    PairReduced(x + y + z, t);
  }

  lemma PairReduced(x: int, y: int)
    ensures Add(Reduce(x), Reduce(y)) == Reduce(x + y)
  {
  }

  lemma DifferenceVanishes(x: int)
    ensures Vanishes(Reduce(x) - x)
  {
  }

  /** Result, its excess over the modulus, and the carry out, by the flag that is set. */
  predicate OutputsBalanced(w: Row, m: Memory, op: Op)
    requires InputsInRange(w, m)
  {
    && OutputsInRange(w) && IsBit(w[20])
    && if op.Modular() then Out(w) == Excess(w) + P - B32 && w[20] == 1
       else Balances(op, Rs1(m), Rs2(m), Imm(w), Pc(m), Out(w), w[20])
  }

  predicate ResultStored(w: Row, m: Memory, op: Op)
    requires InputsInRange(w, m)
  {
    OutputsInRange(w) && Out(w) == Result(op, Rs1(m), Rs2(m), Imm(w), Pc(m))
  }

  predicate Balances(op: Op, x: u32, y: u32, imm: u32, pc: u32, out: u32, overflow: int) {
    match op
    case ADD => x + y == out + B32 * overflow
    case ADDI => x + imm == out + B32 * overflow
    case SUB => out + y == x + B32 * overflow
    case LUI => imm == out && overflow == 0
    case AUIPC => pc + imm == out + B32 * overflow
    case _ => true
  }

  /** The three field results, of the operands reduced first. */
  method FieldResults(x: u32, y: u32) returns (product: Felt, difference: Felt, sum: Felt)
    ensures product == Reduce(x * y) && difference == Reduce(x - y) && sum == Reduce(x + y)
  {
    var fx, fy := Reduce(x), Reduce(y);
    N.ModMul(x, y, P);
    DifferenceReduced(x, y);
    PairReduced(x, y);
    product, difference, sum := Mul(fx, fy), Sub(fx, fy), Add(fx, fy);
  }

  lemma DifferenceReduced(x: int, y: int)
    ensures Sub(Reduce(x), Reduce(y)) == Reduce(x - y)
  {
    N.ModAddMultiple(Reduce(x) - Reduce(y), x / P - y / P, P);
  }

  function ResultAmong(op: Op, x: u32, y: u32, imm: u32, pc: u32, product: Felt, difference: Felt, sum: Felt): u32 {
    match op
    case ADDMOD => sum
    case SUBMOD => difference
    case MULMOD => product
    case ADD => Wrap32(x + y)
    case ADDI => Wrap32(x + imm)
    case SUB => Wrap32(x - y)
    case LUI => imm
    case AUIPC => Wrap32(pc + imm)
  }

  /** Which of the results the flags keep. */
  method SelectResult(w: Row, x: u32, y: u32, imm: u32, pc: u32, product: Felt, difference: Felt, sum: Felt,
                      ghost op: Op)
    returns (out: u32)
    requires Flagged(w, op)
    ensures out == ResultAmong(op, x, y, imm, pc, product, difference, sum)
  {
    out := if w[12] == 1 then Wrap32(x + y) else 0;
    out := if w[13] == 1 then Wrap32(x + imm) else out;
    out := if w[14] == 1 then Wrap32(x - y) else out;
    out := if w[15] == 1 then imm else out;
    out := if w[16] == 1 then Wrap32(pc + imm) else out;
    out := if w[17] == 1 then sum else out;
    out := if w[18] == 1 then difference else out;
    out := if w[19] == 1 then product else out;
  }

  method SelectExcess(w: Row, product: Felt, difference: Felt, sum: Felt, ghost op: Op) returns (excess: u32)
    requires Flagged(w, op)
    ensures op.Modular() ==> excess == ResultAmong(op, 0, 0, 0, 0, product, difference, sum) - P + B32
  {
    excess := if w[17] == 1 then Wrap32(sum - P) else 0;
    excess := if w[18] == 1 then Wrap32(difference - P) else excess;
    excess := if w[19] == 1 then Wrap32(product - P) else excess;
  }

  method SelectOverflow(w: Row, x: u32, y: u32, imm: u32, pc: u32, product: Felt, difference: Felt, sum: Felt,
                        ghost op: Op)
    returns (overflow: Felt)
    requires Flagged(w, op)
    ensures IsBit(overflow) && (op.Modular() ==> overflow == 1)
    ensures Balances(op, x, y, imm, pc, ResultAmong(op, x, y, imm, pc, product, difference, sum), overflow)
  {
    overflow := if w[12] == 1 then Bit(x + y >= B32) else 0;
    overflow := if w[13] == 1 then Bit(x + imm >= B32) else overflow;
    overflow := if w[14] == 1 then Bit(x < y) else overflow;
    overflow := if w[15] == 1 then 0 else overflow;
    overflow := if w[16] == 1 then Bit(pc + imm >= B32) else overflow;
    overflow := if w[17] == 1 then Bit(sum < P) else overflow;
    overflow := if w[18] == 1 then Bit(difference < P) else overflow;
    overflow := if w[19] == 1 then Bit(product < P) else overflow;
  }

  lemma ResultOf(op: Op, x: u32, y: u32, imm: u32, pc: u32, product: Felt, difference: Felt, sum: Felt)
    requires product == Reduce(x * y) && difference == Reduce(x - y) && sum == Reduce(x + y)
    ensures ResultAmong(op, x, y, imm, pc, product, difference, sum) == Result(op, x, y, imm, pc)
  {
  }

  /** eval_fn_5 on words: all eight results are computed and one is kept. */
  method SelectOutputs(w: Row, x: u32, y: u32, imm: u32, pc: u32, ghost op: Op)
    returns (out: u32, excess: u32, overflow: Felt)
    requires Flagged(w, op)
    ensures out == Result(op, x, y, imm, pc)
    ensures IsBit(overflow) && Balances(op, x, y, imm, pc, out, overflow)
    ensures op.Modular() ==> overflow == 1 && out == excess + P - B32
  {
    var product, difference, sum := FieldResults(x, y);
    out := SelectResult(w, x, y, imm, pc, product, difference, sum, op);
    excess := SelectExcess(w, product, difference, sum, op);
    overflow := SelectOverflow(w, x, y, imm, pc, product, difference, sum, op);
    ResultOf(op, x, y, imm, pc, product, difference, sum);
  }

  /** eval_fn_5. */
  method WriteOutputs(row: WitnessRow, ghost op: Op)
    requires Ready(row) && Flagged(row.w[..], op)
    modifies row.w
    ensures Ready(row) && Only(old(row.w[..]), row.w[..], {8, 9, 10, 11, 20})
    ensures OutputsBalanced(row.w[..], row.m[..], op) && ResultStored(row.w[..], row.m[..], op)
  {
    var w, m := row.w, row.m;
    var out, excess, overflow := SelectOutputs(
      w[..], Word(m[2], m[3]), Word(m[7], m[8]), Word(w[1], w[2]), Word(m[18], m[19]), op);
    ghost var before: Row := w[..];
    w[8], w[9] := Low(out), High(out);
    w[10], w[11] := Low(excess), High(excess);
    w[20] := overflow;
    OutputsInPlace(before, w[..], m[..], op, out, excess, overflow);
  }

  lemma OutputsInPlace(before: Row, w: Row, m: Memory, op: Op, out: u32, excess: u32, overflow: Felt)
    requires InputsInRange(before, m) && Only(before, w, {8, 9, 10, 11, 20})
    requires w[8] == Low(out) && w[9] == High(out) && w[10] == Low(excess) && w[11] == High(excess) && w[20] == overflow
    requires IsBit(overflow) && Balances(op, Rs1(m), Rs2(m), Imm(before), Pc(m), out, overflow)
    requires out == Result(op, Rs1(m), Rs2(m), Imm(before), Pc(m))
    requires op.Modular() ==> overflow == 1 && out == excess + P - B32
    ensures InputsInRange(w, m) && OutputsBalanced(w, m, op) && ResultStored(w, m, op)
  {
    JoinLimbs(out);
    JoinLimbs(excess);
    assert Out(w) == out && Excess(w) == excess && Imm(w) == Imm(before);
  }

  lemma JoinLimbs(x: u32)
    ensures Word(Low(x), High(x)) == x
  {
  }

  /** The next program counter, with its flags and inverses in places 21, 22, 29 and 30. */
  predicate BumpStored(w: Row, m: Memory, next: (int, int))
    requires InputsInRange(w, m) && 0 <= next.0 < P && 0 <= next.1 < P
  {
    B.BumpConstraints(m[18], m[19], B.Bump(w[21], w[29], w[22], w[30], next.0, next.1))
  }

  /** eval_fn_9 and eval_fn_10. */
  method WriteBump(row: WitnessRow) returns (nextLow: Felt, nextHigh: Felt)
    requires Ready(row)
    modifies row.w
    ensures Ready(row) && Only(old(row.w[..]), row.w[..], {21, 29, 22, 30})
    ensures BumpStored(row.w[..], row.m[..], (nextLow, nextHigh)) <==> row.m[18] <= B16 - 4
    ensures row.m[18] <= B16 - 4 ==> B.IsNext(row.m[18], row.m[19], nextLow, nextHigh)
  {
    var w, m := row.w, row.m;
    var b := B.ComputeBump(m[18], m[19]);
    w[21], w[29], w[22], w[30] := b.lowFlag, b.lowInverse, b.highFlag, b.highInverse;
    nextLow, nextHigh := b.nextLow, b.nextHigh;
  }

  /** Bit 16 of a limb sum less its result. */
  function LimbCarry(x: int, y: int, z: int): Felt {
    Wrap32(x + y - z) / B16 % 2
  }

  lemma LimbCarryMeans(a: Limbs, overflow: int)
    requires a.Valid() && IsBit(overflow)
    requires Word(a.xLow, a.xHigh) + Word(a.yLow, a.yHigh) == Word(a.zLow, a.zHigh) + B32 * overflow
    ensures IsBit(LimbCarry(a.xLow, a.yLow, a.zLow)) && a.Holds(LimbCarry(a.xLow, a.yLow, a.zLow), overflow)
  {
    var c := (a.xLow + a.yLow - a.zLow) / B16;
    assert a.xLow + a.yLow - a.zLow == B16 * (a.zHigh + B16 * overflow - a.xHigh - a.yHigh);
    assert a.xLow + a.yLow - a.zLow == B16 * c && (c == 0 || c == 1);
  }

  lemma OutputsAreActive(op: Op, w: Row, m: Memory)
    requires InputsInRange(w, m) && OutputsBalanced(w, m, op)
    ensures var a := Active(op, w, m);
      a.Valid() && Word(a.xLow, a.xHigh) + Word(a.yLow, a.yHigh) == Word(a.zLow, a.zHigh) + B32 * w[20]
  {
  }

  /** The middle carry of the active operation, by the flag that is set. */
  method SelectCarry(w: Row, m: Memory, ghost op: Op) returns (carry: Felt)
    requires Flagged(w, op)
    ensures var a := Active(op, w, m); carry == LimbCarry(a.xLow, a.yLow, a.zLow)
  {
    var modular := LimbCarry(w[10], 0xffff, w[8]);
    carry := if w[12] == 1 then LimbCarry(m[2], m[7], w[8]) else 0;
    carry := if w[13] == 1 then LimbCarry(m[2], w[1], w[8]) else carry;
    carry := if w[14] == 1 then LimbCarry(w[8], m[7], m[2]) else carry;
    carry := if w[15] == 1 then LimbCarry(0, w[1], w[8]) else carry;
    carry := if w[16] == 1 then LimbCarry(m[18], w[1], w[8]) else carry;
    carry := if w[17] == 1 then modular else carry;
    carry := if w[18] == 1 then modular else carry;
    carry := if w[19] == 1 then modular else carry;
  }

  lemma ActiveStays(op: Op, before: Row, after: Row, m: Memory)
    requires Only(before, after, {23})
    ensures Active(op, after, m) == Active(op, before, m) && after[20] == before[20]
  {
  }

  /** eval_fn_11: the middle carry. */
  method WriteCarry(row: WitnessRow, ghost op: Op)
    requires Ready(row) && Flagged(row.w[..], op) && OutputsBalanced(row.w[..], row.m[..], op)
    modifies row.w
    ensures Only(old(row.w[..]), row.w[..], {23})
    ensures IsBit(row.w[23]) && Active(op, row.w[..], row.m[..]).Holds(row.w[23], row.w[20])
  {
    var w, m := row.w, row.m;
    ghost var before: Row := w[..];
    OutputsAreActive(op, before, m[..]);
    LimbCarryMeans(Active(op, before, m[..]), before[20]);
    var carry := SelectCarry(w[..], m[..], op);
    w[23] := carry;
    ActiveStays(op, before, w[..], m[..]);
  }

  lemma ModularComplete(op: Op, w: Row, m: Memory)
    requires InputsInRange(w, m) && Flagged(w, op) && ProductStored(w, m) && ResultStored(w, m, op)
    requires op.Modular() ==> w[20] == 1
    ensures ModularConstraints(w, m)
  {
    match op {
      case ADDMOD => ResidueVanishes(Out(w), Rs1(m) + Rs2(m));
      case SUBMOD => ResidueVanishes(Out(w), Rs1(m) - Rs2(m));
      case MULMOD =>
        ResidueVanishes(Out(w), Rs1(m) * Rs2(m));
        Chained(Out(w), Rs1(m) * Rs2(m), w[28]);
      case _ =>
    }
  }

  lemma ResidueVanishes(out: int, x: int)
    requires out == Reduce(x)
    ensures Vanishes(out - x)
  {
  }

  lemma Chained(x: int, y: int, z: int)
    requires Vanishes(x - y) && Vanishes(y - z)
    ensures Vanishes(x - z)
  {
  }

  method EvalOutputs(row: WitnessRow, ghost op: Op)
    requires Ready(row) && row.w[4] == OpMask(op)
    modifies row.w
    ensures Ready(row) && row.w[4] == OpMask(op) && Computed(row.w[..], row.m[..], op)
  {
    WriteFlags(row, op);
    WriteProduct(row, op);
    ghost var a: Row := row.w[..];
    WriteOutputs(row, op);
    FlagsStay(a, row.w[..], row.m[..], op);
  }

  /** What the last three generated functions leave alone. */
  predicate Computed(w: Row, m: Memory, op: Op) {
    && InputsInRange(w, m) && FlagConstraints(w) && Flagged(w, op) && ProductStored(w, m)
    && OutputsBalanced(w, m, op) && ResultStored(w, m, op)
  }

  /** The whole generator: for every operation and all words the row satisfies the circuit and holds
      the result; the increment of the program counter is right whenever its low limb is at most
      2^16 - 4, which alignment implies. */
  method Evaluate(row: WitnessRow, ghost op: Op) returns (nextLow: Felt, nextHigh: Felt)
    requires Ready(row) && row.w[4] == OpMask(op)
    modifies row.w
    ensures Ready(row) && row.w[4] == OpMask(op) && Satisfied(row.w[..], row.m[..])
    ensures Out(row.w[..]) == Result(op, Rs1(row.m[..]), Rs2(row.m[..]), Imm(row.w[..]), Pc(row.m[..]))
    ensures BumpStored(row.w[..], row.m[..], (nextLow, nextHigh)) <==> row.m[18] <= B16 - 4
    ensures row.m[18] <= B16 - 4 ==> B.IsNext(row.m[18], row.m[19], nextLow, nextHigh)
  {
    EvalOutputs(row, op);
    ghost var b: Row := row.w[..];
    nextLow, nextHigh := WriteBump(row);
    ghost var c: Row := row.w[..];
    OutputsStay(b, c, row.m[..], op);
    WriteCarry(row, op);
    OutputsStay(c, row.w[..], row.m[..], op);
    BumpStays(c, row.w[..], row.m[..], (nextLow, nextHigh));
    RowComplete(row.w[..], row.m[..], op);
  }

  lemma FlagsStay(before: Row, after: Row, m: Memory, op: Op)
    requires FlagConstraints(before) && Flagged(before, op) && ProductStored(before, m)
    requires Only(before, after, {8, 9, 10, 11, 20, 21, 22, 23, 29, 30})
    ensures FlagConstraints(after) && Flagged(after, op) && ProductStored(after, m)
  {
  }

  lemma OutputsStay(before: Row, after: Row, m: Memory, op: Op)
    requires Computed(before, m, op) && Only(before, after, {21, 22, 23, 29, 30})
    ensures Computed(after, m, op)
  {
    FlagsStay(before, after, m, op);
    assert OutputsInRange(after) && Out(after) == Out(before) && Excess(after) == Excess(before);
    assert Imm(after) == Imm(before);
  }

  lemma BumpStays(before: Row, after: Row, m: Memory, next: (int, int))
    requires InputsInRange(before, m) && InputsInRange(after, m) && Only(before, after, {23})
    requires 0 <= next.0 < P && 0 <= next.1 < P
    ensures BumpStored(before, m, next) == BumpStored(after, m, next)
  {
  }

  lemma RowComplete(w: Row, m: Memory, op: Op)
    requires Computed(w, m, op)
    requires IsBit(w[23]) && Active(op, w, m).Holds(w[23], w[20])
    ensures Satisfied(w, m)
  {
    AdderMeans(op, w, m);
    ModularComplete(op, w, m);
  }
}
