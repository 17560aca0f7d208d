/** The witness generator of the full machine's arithmetic: every family runs every step, and the
    shared places are written through the flag of the family. */
module FullGenerator {
  import opened Words
  import opened Mersenne31
  import opened Gadgets
  import opened LimbChain
  import opened MExtension
  import opened Witness
  import opened FullMachine
  import opened FullMulDiv
  import opened FullWitness
  import G = MulDivGenerator
  import M = MulDivWitness

  ghost predicate Ready(row: WitnessRow) {
    row.Valid() && row.w.Length == ROW_SIZE && row.m.Length == MEMORY_SIZE && row.s.Length == SCRATCH_SIZE
  }

  ghost function Snapshot(row: WitnessRow, f: Family, op: Op): State
    requires Ready(row)
    reads row.w, row.m, row.s
  {
    State(row.w[..], row.m[..], row.s[..], f, op)
  }

  ghost predicate Progress(row: WitnessRow, f: Family, op: Op, n: nat)
    reads row.w, row.m, row.s
  {
    Ready(row) && Done(Snapshot(row, f, op), n)
  }

  predicate AddsFirst(f: Family) { f.ADD? || f.SUB? || f.AUIPC? }

  predicate AddsLast(f: Family) { f.JUMP? || f.LOAD? || f.STORE? }

  predicate SumDone(f: Family, w: Row, m: Memory) {
    InputsInRange(w, m) && First(w).Valid() && Balanced(ActiveAddition(f, w, m), w[58])
  }

  /** eval_fn_23 to eval_fn_25: rs1 + rs2, rs1 - rs2, pc + imm. */
  method WriteFirstSums(row: WitnessRow, ghost f: Family)
    requires Ready(row) && Flagged(row.w[..], f) && InputsInRange(row.w[..], row.m[..])
    modifies row.w
    ensures !AddsFirst(f) ==> row.w[..] == old(row.w[..])
    ensures Only(old(row.w[..]), row.w[..], {23, 24, 58})
    ensures AddsFirst(f) ==> SumDone(f, row.w[..], row.m[..])
  {
    var w, m := row.w, row.m;
    row.MaskedAdd(42, Word(m[8], m[9]), Word(w[114], w[93]), 23, 58);
    row.MaskedSub(53, Word(m[8], m[9]), Word(w[114], w[93]), 23, 58);
    row.MaskedAdd(43, Word(w[21], w[80]), Word(w[112], w[113]), 23, 58);
  }

  /** eval_fn_30 to eval_fn_32: which operand of a multiplication is negative. */
  method WriteFactorSigns(row: WitnessRow)
    requires Ready(row) && IsBit(row.w[56]) && IsBit(row.w[57]) && IsBit(row.w[91]) && IsBit(row.w[94])
    modifies row.w
    ensures FactorSignsComputed(row.w[..]) && Only(old(row.w[..]), row.w[..], {122, 123, 124})
  {
    var w := row.w;
    var either := ComputeOr(w[56], w[57]);
    w[122] := either;
    w[123] := if w[122] == 1 then w[91] else 0;
    w[124] := if w[56] == 1 then w[94] else 0;
  }

  method ComputeOr(a: Felt, b: Felt) returns (out: Felt)
    requires IsBit(a) && IsBit(b)
    ensures out == Bit(a == 1 || b == 1)
  {
    out := Add(Add(Sub(0, Mul(a, b)), a), b);
  }

  predicate IsProduct(p: int, a: int, b: int) { p == a * b }

  /** The two words of a product. */
  ghost predicate HoldsProduct(low: u32, high: u32, a: int, b: int) {
    forall p :: IsProduct(p, a, b) ==> low == Wrap32(p) && high == Wrap32(p / B32)
  }

  /** The widening product, by the signs of its operands. */
  method WideningProduct(negative1: bool, negative2: bool, x: u32, y: u32) returns (low: u32, high: u32)
    requires (negative1 ==> x >= 0x8000_0000) && (negative2 ==> y >= 0x8000_0000)
    ensures HoldsProduct(low, high, x - B32 * Bit(negative1), y - B32 * Bit(negative2))
  {
    var p := if !negative1 && negative2 then x * Signed(y)
             else if negative1 && !negative2 then Signed(x) * y
             else if negative1 && negative2 then Signed(x) * Signed(y)
             else x * y;
    low, high := Wrap32(p), Wrap32(p / B32);
  }

  predicate ProductDone(w: Row, m: Memory) {
    InputsInRange(w, m) && First(w).Valid() && Second(w).Valid() && ProductComputed(w, m)
  }

  /** eval_fn_33, which runs again as eval_fn_34. */
  method WriteProduct(row: WitnessRow, ghost f: Family)
    requires Ready(row) && Flagged(row.w[..], f) && InputsInRange(row.w[..], row.m[..])
    requires IsBit(row.w[123]) && IsBit(row.w[124])
    requires (row.w[123] == 1 ==> row.m[9] >= 0x8000) && (row.w[124] == 1 ==> row.w[93] >= 0x8000)
    modifies row.w
    ensures !f.MULTIPLY? ==> row.w[..] == old(row.w[..])
    ensures Only(old(row.w[..]), row.w[..], {23, 24, 25, 26}) && (f.MULTIPLY? ==> ProductDone(row.w[..], row.m[..]))
  {
    var low, high := RowProduct(row.w[..], row.m[..]);
    ghost var before: Row := row.w[..];
    WriteWords(row, 51, low, high);
    if f.MULTIPLY? { ProductInPlace(before, row.w[..], row.m[..], low, high); }
  }

  method RowProduct(w: Row, m: Memory) returns (low: u32, high: u32)
    requires InputsInRange(w, m) && IsBit(w[123]) && IsBit(w[124])
    requires (w[123] == 1 ==> m[9] >= 0x8000) && (w[124] == 1 ==> w[93] >= 0x8000)
    ensures HoldsProduct(low, high, Rs1(m).Value() - B32 * w[123], Rs2(w).Value() - B32 * w[124])
  {
    low, high := WideningProduct(w[123] == 1, w[124] == 1, Word(m[8], m[9]), Word(w[114], w[93]));
  }

  lemma ProductInPlace(before: Row, w: Row, m: Memory, low: u32, high: u32)
    requires InputsInRange(before, m) && Only(before, w, {23, 24, 25, 26})
    requires First(w) == Reg(Low(low), High(low)) && Second(w) == Reg(Low(high), High(high))
    requires HoldsProduct(low, high, Rs1(m).Value() - B32 * before[123], Rs2(before).Value() - B32 * before[124])
    ensures ProductDone(w, m)
  {
    var a, b := Rs1(m).Value() - B32 * w[123], Rs2(w).Value() - B32 * w[124];
    assert IsProduct(a * b, a, b);
  }

  method WriteWords(row: WitnessRow, flag: nat, first: u32, second: u32)
    requires Ready(row) && flag < ROW_SIZE && IsBit(row.w[flag]) && !(23 <= flag <= 26)
    modifies row.w
    ensures Only(old(row.w[..]), row.w[..], {23, 24, 25, 26})
    ensures old(row.w[flag]) == 0 ==> row.w[..] == old(row.w[..])
    ensures old(row.w[flag]) == 1 ==> First(row.w[..]) == Reg(Low(first), High(first))
    ensures old(row.w[flag]) == 1 ==> Second(row.w[..]) == Reg(Low(second), High(second))
  {
    var w, mask := row.w, row.w[flag] == 1;
    w[23] := if mask then Low(first) else w[23];
    w[24] := if mask then High(first) else w[24];
    w[25] := if mask then Low(second) else w[25];
    w[26] := if mask then High(second) else w[26];
  }

  /** eval_fn_35 to eval_fn_37: which operand of a division is negative. */
  method WriteDivisionSigns(row: WitnessRow)
    requires Ready(row) && IsBit(row.w[55]) && IsBit(row.w[57]) && IsBit(row.w[91]) && IsBit(row.w[94])
    modifies row.w, row.s
    ensures DivisionSignsComputed(row.w[..], row.s[..])
    ensures Only(old(row.w[..]), row.w[..], {127, 128}) && Only(old(row.s[..]), row.s[..], {1})
  {
    var w, s := row.w, row.s;
    var either := ComputeOr(w[55], w[57]);
    w[127] := either;
    var negative2 := ComputeAnd(w[94], w[127]);
    w[128] := negative2;
    var negative1 := ComputeAnd(w[91], w[127]);
    s[1] := negative1;
  }

  // ---------------------------------------------------------------------------------------
  // Division

  /** The division primitives.  Neither accepts a zero divisor, and the signed one not the pair
      whose quotient overflows. */
  method UnsignedDivRem(x: u32, y: u32) returns (q: u32, r: u32)
    requires y != 0
    ensures q == Wrap32(Quotient(x, y)) && r == Wrap32(Remainder(x, y))
  {
    q, r := G.UnsignedDivRem(x, y);
  }

  method SignedDivRem(a: int, b: int) returns (q: int, r: int)
    requires -0x8000_0000 <= a < 0x8000_0000 && -0x8000_0000 <= b < 0x8000_0000
    requires b != 0 && !(a == -0x8000_0000 && b == -1)
    ensures q == Quotient(a, b) && r == Remainder(a, b)
    ensures -0x8000_0000 <= q < 0x8000_0000 && -0x8000_0000 <= r < 0x8000_0000
  {
    q, r := Quotient(a, b), Remainder(a, b);
    QuotientFits(a, b);
  }

  /** The only quotient of two 32-bit integers that does not fit is that of the excluded pair. */
  lemma QuotientFits(a: int, b: int)
    requires -0x8000_0000 <= a < 0x8000_0000 && b != 0 && !(a == -0x8000_0000 && b == -1)
    ensures -0x8000_0000 <= Quotient(a, b) < 0x8000_0000 && Abs(Remainder(a, b)) <= Abs(a)
  {
    M.QuotientNotLarger(Abs(a), Abs(b));
    M.QuotientNotLarger(Abs(a) % Abs(b), Abs(b));
    RemainderNotLarger(Abs(a), Abs(b));
    if Abs(a) == 0x8000_0000 && b != 1 && b != -1 { HalvedQuotient(Abs(a), Abs(b), Abs(a) / Abs(b)); }
  }

  lemma RemainderNotLarger(x: nat, y: int)
    requires y > 0
    ensures x % y <= x
  {
    M.QuotientNotLarger(x, y);
    NonNegativeProduct(y, x / y);
  }

  lemma HalvedQuotient(x: nat, y: int, q: int)
    requires y >= 2 && q == x / y && 0 <= q
    ensures 2 * q <= x
  {
    assert y * q >= 2 * q;
    assert x == y * q + x % y;
  }

  /** eval_fn_38: both divisions run on guarded divisors; the answers are selected afterwards. */
  method DivideWords(signed: bool, x: u32, y: u32) returns (quotient: u32, remainder: u32)
    ensures (quotient, remainder) == ResultWords(if signed then DIV else DIVU, x, y)
  {
    var overflows := x == 0x8000_0000 && y == B32 - 1;
    var divisor: u32 := if y != 0 then y else 1;
    var uq, ur := UnsignedDivRem(x, divisor);
    var sq, sr := SignedDivRem(Signed(x), Signed(if overflows then 1 else divisor));
    if signed {
      OverflowingPair();
      quotient := if y == 0 then B32 - 1 else if overflows then 0x8000_0000 else Wrap32(sq);
      remainder := if y == 0 then x else if overflows then 0 else Wrap32(sr);
    } else {
      quotient := if y == 0 then B32 - 1 else uq;
      remainder := if y == 0 then x else ur;
    }
  }

  /** The quotient that does not fit wraps back to the dividend. */
  lemma OverflowingPair()
    ensures Wrap32(Quotient(-0x8000_0000, -1)) == 0x8000_0000 && Remainder(-0x8000_0000, -1) == 0
  {
  }

  predicate QuotientComputed(w: Row, m: Memory, op: Op)
    requires InputsInRange(w, m)
  {
    && First(w).Valid() && Second(w).Valid()
    && (First(w).Value(), Second(w).Value()) == ResultWords(op, Rs1(m).Value(), Rs2(w).Value())
  }

  method WriteQuotient(row: WitnessRow, ghost f: Family, ghost op: Op)
    requires Ready(row) && Flagged(row.w[..], f) && InputsInRange(row.w[..], row.m[..])
    requires IsBit(row.w[127]) && (f.DIVIDE? ==> op.IsDivision() && row.w[127] == Bit(op.SignedLeft()))
    modifies row.w
    ensures !f.DIVIDE? ==> row.w[..] == old(row.w[..])
    ensures Only(old(row.w[..]), row.w[..], {23, 24, 25, 26})
    ensures InputsInRange(row.w[..], row.m[..]) && (f.DIVIDE? ==> QuotientComputed(row.w[..], row.m[..], op))
  {
    var w, m := row.w, row.m;
    var q, r := DivideWords(w[127] == 1, Word(m[8], m[9]), Word(w[114], w[93]));
    WriteWords(row, 47, q, r);
    if f.DIVIDE? { SameWords(op, Word(m[8], m[9]), Word(w[114], w[93])); }
  }

  /** Quotient and remainder only depend on how the operands are read. */
  lemma SameWords(op: Op, x: u32, y: u32)
    requires op.IsDivision()
    ensures ResultWords(op, x, y) == ResultWords(if op.SignedLeft() then DIV else DIVU, x, y)
  {
  }

  /** eval_fn_39 to eval_fn_41. */
  method WriteCombinedSigns(row: WitnessRow)
    requires Ready(row) && IsBit(row.w[128]) && IsBit(row.s[1]) && IsBit(row.w[55]) && IsBit(row.w[56])
    modifies row.w
    ensures SignsCombined(row.w[..], row.s[..]) && Only(old(row.w[..]), row.w[..], {129, 132, 142})
  {
    var w := row.w;
    var differ := ComputeXor(w[128], row.s[1]);
    w[129] := differ;
    var extension := ComputeExtension(row.s[1]);
    w[132] := extension;
    var first := ComputeOr(w[55], w[56]);
    w[142] := first;
  }

  /** eval_fn_42: the comparison of a branch. */
  method WriteComparison(row: WitnessRow, ghost f: Family)
    requires Ready(row) && Flagged(row.w[..], f) && InputsInRange(row.w[..], row.m[..])
    modifies row.w
    ensures !f.BRANCH? ==> row.w[..] == old(row.w[..])
    ensures Only(old(row.w[..]), row.w[..], {23, 24, 58})
    ensures f.BRANCH? ==> First(row.w[..]).Valid() && Balanced(ActiveAddition(f, row.w[..], row.m[..]), row.w[58])
  {
    var w, m := row.w, row.m;
    row.MaskedSub(45, Word(m[8], m[9]), Word(w[114], w[93]), 23, 58);
  }

  /** eval_fn_43: and its target. */
  method WriteTarget(row: WitnessRow, ghost f: Family)
    requires Ready(row) && Flagged(row.w[..], f) && InputsInRange(row.w[..], row.m[..])
    modifies row.w
    ensures !f.BRANCH? ==> row.w[..] == old(row.w[..])
    ensures Only(old(row.w[..]), row.w[..], {25, 26, 62})
    ensures f.BRANCH? ==> Balanced(Addition(Pc(row.w[..]), Imm(row.w[..]), Second(row.w[..])), row.w[62])
  {
    var w := row.w;
    row.MaskedAdd(45, Word(w[21], w[80]), Word(w[112], w[113]), 25, 62);
  }

  /** eval_fn_46 and eval_fn_47: the base of a jump. */
  method WriteBase(row: WitnessRow)
    requires Ready(row) && IsBit(row.w[55])
    modifies row.w
    ensures BaseComputed(row.w[..], row.m[..]) && Only(old(row.w[..]), row.w[..], {154, 155})
  {
    var w, m := row.w, row.m;
    w[154] := if w[55] == 1 then w[21] else m[8];
    w[155] := if w[55] == 1 then w[80] else m[9];
  }

  /** eval_fn_48, eval_fn_51 and eval_fn_55: jump targets and memory addresses. */
  method WriteLastSums(row: WitnessRow, ghost f: Family)
    requires Ready(row) && Flagged(row.w[..], f) && InputsInRange(row.w[..], row.m[..]) && Base(row.w[..]).Valid()
    modifies row.w
    ensures Only(old(row.w[..]), row.w[..], {23, 24, 58})
    ensures !AddsLast(f) ==> row.w[..] == old(row.w[..])
    ensures AddsLast(f) ==> SumDone(f, row.w[..], row.m[..])
  {
    var w, m := row.w, row.m;
    row.MaskedAdd(48, Word(w[154], w[155]), Word(w[112], w[113]), 23, 58);
    row.MaskedAdd(50, Word(m[8], m[9]), Word(w[112], w[113]), 23, 58);
    row.MaskedAdd(54, Word(m[8], m[9]), Word(w[112], w[113]), 23, 58);
  }

  // ---------------------------------------------------------------------------------------
  // Zero tests, selections and carries

  /** x under the first flag, y under the second, zero under neither. */
  method Select(first: Felt, x: Felt, second: Felt, y: Felt) returns (out: Felt)
    requires IsBit(first) && IsBit(second) && first + second <= 1
    ensures out == if first == 1 then x else if second == 1 then y else 0
  {
    out := if first == 1 then Add(0, x) else 0;
    out := if second == 1 then Add(out, y) else out;
  }

  /** The carry out of a 16-bit limb addition, from its 16-bit result. */
  function LimbCarry(x: u16, y: u16, z: u16): Felt {
    Wrap32(x + y - z) / B16 % 2
  }

  lemma LimbCarryMeans(a: Addition, overflow: int)
    requires Balanced(a, overflow)
    ensures IsBit(LimbCarry(a.x.low, a.y.low, a.z.low)) && Holds(a, LimbCarry(a.x.low, a.y.low, a.z.low), overflow)
  {
    var c := (a.x.low + a.y.low - a.z.low) / B16;
    assert a.x.low + a.y.low - a.z.low == B16 * (a.z.high + B16 * overflow - a.x.high - a.y.high);
    assert a.x.low + a.y.low - a.z.low == B16 * c && (c == 0 || c == 1);
  }

  predicate Selectable(w: Row, f: Family) {
    Flagged(w, f) && First(w).Valid() && Second(w).Valid() && Rs2(w).Valid()
  }

  /** eval_fn_61: the middle carry of a branch target. */
  method WriteTargetCarry(row: WitnessRow, ghost f: Family)
    requires Ready(row) && Selectable(row.w[..], f)
    requires row.w[45] == 1 ==> Balanced(Addition(Pc(row.w[..]), Imm(row.w[..]), Second(row.w[..])), row.w[62])
    modifies row.w
    ensures Selectable(row.w[..], f)
    ensures TargetCarried(row.w[..]) && Only(old(row.w[..]), row.w[..], {64})
  {
    var w := row.w;
    if w[45] == 1 { LimbCarryMeans(Addition(Pc(w[..]), Imm(w[..]), Second(w[..])), w[62]); }
    w[64] := if w[45] == 1 then Wrap32(w[21] + w[112] - w[25]) / B16 % 2 else 0;
  }

  method TestZero(row: WitnessRow, low: u16, high: u16, slot: nat, flag: nat, inverse: nat)
    requires Ready(row) && slot + 1 < ROW_SIZE && flag < ROW_SIZE && inverse < ROW_SIZE
    requires flag != slot && flag != slot + 1 && inverse != slot && inverse != slot + 1 && flag != inverse
    modifies row.w
    ensures row.w[slot] == low && row.w[slot + 1] == high && ZeroTested(low, high, row.w[flag], row.w[inverse])
    ensures Only(old(row.w[..]), row.w[..], {slot, slot + 1, flag, inverse})
  {
    row.w[slot] := low;
    row.w[slot + 1] := high;
    row.EvalIsZero(low, high, flag, inverse);
  }

  /** eval_fn_62 to eval_fn_64: zero test of a quotient or of the difference of a branch. */
  method WriteFirstTest(row: WitnessRow, ghost f: Family)
    requires Ready(row) && Selectable(row.w[..], f)
    modifies row.w
    ensures Selectable(row.w[..], f)
    ensures FirstTested(row.w[..]) && Only(old(row.w[..]), row.w[..], {59, 172, 173, 174})
  {
    var w := row.w;
    var low := Select(w[47], w[23], w[45], w[23]);
    var high := Select(w[47], w[24], w[45], w[24]);
    TestZero(row, low, high, 172, 59, 174);
  }

  /** eval_fn_65 to eval_fn_67: of a remainder. */
  method WriteSecondTest(row: WitnessRow, ghost f: Family)
    requires Ready(row) && Selectable(row.w[..], f)
    modifies row.w
    ensures Selectable(row.w[..], f)
    ensures SecondTested(row.w[..]) && Only(old(row.w[..]), row.w[..], {60, 175, 176, 177})
  {
    var w := row.w;
    var low := Select(w[47], w[25], 0, 0);
    var high := Select(w[47], w[26], 0, 0);
    TestZero(row, low, high, 175, 60, 177);
  }

  /** eval_fn_68 to eval_fn_70: of a divisor. */
  method WriteDivisorTest(row: WitnessRow, ghost f: Family)
    requires Ready(row) && Selectable(row.w[..], f)
    modifies row.w
    ensures Selectable(row.w[..], f)
    ensures DivisorTested(row.w[..]) && Only(old(row.w[..]), row.w[..], {61, 178, 179, 180})
  {
    var w := row.w;
    var low := Select(w[47], w[114], 0, 0);
    var high := Select(w[47], w[93], 0, 0);
    TestZero(row, low, high, 178, 61, 180);
  }

  /** eval_fn_74 to eval_fn_76: the first factor of the multiplication relation. */
  method WriteLeft(row: WitnessRow, ghost f: Family)
    requires Ready(row) && Selectable(row.w[..], f)
    modifies row.w, row.s
    ensures Selectable(row.w[..], f) && LeftPicked(row.w[..], row.m[..], row.s[..])
    ensures Only(old(row.w[..]), row.w[..], {181}) && Only(old(row.s[..]), row.s[..], {2, 3})
  {
    var w, m, s := row.w, row.m, row.s;
    var a0 := Select(w[51], m[8], w[47], w[114]);
    var a1 := Select(w[51], m[9], w[47], w[93]);
    var sign := Select(w[51], w[123], w[47], w[128]);
    s[2], s[3], w[181] := a0, a1, sign;
  }

  /** eval_fn_77 and eval_fn_78: the second. */
  method WriteRight(row: WitnessRow, ghost f: Family)
    requires Ready(row) && Selectable(row.w[..], f)
    modifies row.s
    ensures RightPicked(row.w[..], row.s[..]) && Only(old(row.s[..]), row.s[..], {4, 5})
  {
    var w, s := row.w, row.s;
    var b0 := Select(w[51], w[114], w[47], w[23]);
    var b1 := Select(w[51], w[93], w[47], w[24]);
    s[4], s[5] := b0, b1;
  }

  /** eval_fn_79 and eval_fn_80: its addend. */
  method WriteAddend(row: WitnessRow, ghost f: Family)
    requires Ready(row) && Selectable(row.w[..], f)
    modifies row.w
    ensures Selectable(row.w[..], f)
    ensures AddendPicked(row.w[..]) && Only(old(row.w[..]), row.w[..], {183, 184})
  {
    var w := row.w;
    var r0 := Select(w[47], w[25], w[51], 0);
    var r1 := Select(w[47], w[26], w[51], 0);
    w[183], w[184] := r0, r1;
  }

  /** eval_fn_81 to eval_fn_84: its result. */
  method WriteResult(row: WitnessRow, ghost f: Family)
    requires Ready(row) && Selectable(row.w[..], f)
    modifies row.w
    ensures Selectable(row.w[..], f)
    ensures ResultPicked(row.w[..], row.m[..]) && Only(old(row.w[..]), row.w[..], {186, 187, 188, 189})
  {
    ghost var before: Row := row.w[..];
    var w, m := row.w, row.m;
    var p0 := Select(w[51], w[23], w[47], m[8]);
    var p1 := Select(w[51], w[24], w[47], m[9]);
    var p2 := Select(w[51], w[25], w[47], w[132]);
    var p3 := Select(w[51], w[26], w[47], w[132]);
    StoreResult(row, p0, p1, p2, p3);
    ResultInPlace(before, row.w[..], row.m[..], f);
  }

  lemma ResultInPlace(before: Row, after: Row, m: Memory, f: Family)
    requires Selectable(before, f) && Only(before, after, {186, 187, 188, 189})
    requires after[186] == (if before[51] == 1 then before[23] else if before[47] == 1 then m[8] else 0)
    requires after[187] == (if before[51] == 1 then before[24] else if before[47] == 1 then m[9] else 0)
    requires after[188] == (if before[51] == 1 then before[25] else if before[47] == 1 then before[132] else 0)
    requires after[189] == (if before[51] == 1 then before[26] else if before[47] == 1 then before[132] else 0)
    ensures Selectable(after, f) && ResultPicked(after, m)
  {
  }

  method StoreResult(row: WitnessRow, p0: Felt, p1: Felt, p2: Felt, p3: Felt)
    requires Ready(row)
    modifies row.w
    ensures row.w[186] == p0 && row.w[187] == p1 && row.w[188] == p2 && row.w[189] == p3
    ensures Only(old(row.w[..]), row.w[..], {186, 187, 188, 189})
  {
    var w := row.w;
    w[186], w[187], w[188], w[189] := p0, p1, p2, p3;
  }

  /** eval_fn_85 and eval_fn_86: their bytes. */
  method WriteBytes(row: WitnessRow)
    requires Ready(row) && row.s[2] < B16 && row.s[3] < B16 && row.s[4] < B16 && row.s[5] < B16
    modifies row.w
    ensures BytesSplit(row.w[..], row.s[..]) && Only(old(row.w[..]), row.w[..], {9, 10, 11, 12, 13, 14, 15, 16})
  {
    var w, s := row.w, row.s;
    w[9], w[10], w[11], w[12] := s[2] % B8, s[2] / B8 % B8, s[3] % B8, s[3] / B8 % B8;
    w[13], w[14], w[15], w[16] := s[4] % B8, s[4] / B8 % B8, s[5] % B8, s[5] / B8 % B8;
  }

  /** The carries of the two low limbs. */
  method ComputeLowCarries(a: Factor, b: Factor, r: Addend, p: Limbs) returns (k0: G.StoredCarry, k1: G.StoredCarry)
    requires a.Valid() && b.Valid() && r.Valid() && p.Valid()
    requires (a.Value() * b.Value() + r.Value() - p.Value()) % B64 == 0
    ensures k0.Valid() && k0.bit1 == k0.bit2 == 0 && k0.Value() == ComputedCarries(a, b, r, p).c0
    ensures k1.Valid() && k1.bit2 == 0 && k1.Value() == ComputedCarries(a, b, r, p).c1
  {
    ChainComplete(a, b, r, p);
    ghost var c := ComputedCarries(a, b, r, p);
    k0 := G.SplitCarry(Sum0(a, b, r), p.l0, c.c0);
    k1 := G.SplitCarry(k0.Value() + Sum1(a, b, r), p.l1, c.c1);
  }

  predicate LowCarriesAt(w: Row, c0: int, c1: int) {
    && w[17] < B8 && w[18] < B8 && IsBit(w[65]) && IsBit(w[66]) && IsBit(w[67])
    && w[17] + 0x100 * w[65] == c0 && w[18] + 0x100 * w[66] + 0x200 * w[67] == c1
  }

  method StoreLowCarries(row: WitnessRow, k0: G.StoredCarry, k1: G.StoredCarry)
    requires Ready(row) && k0.Valid() && k1.Valid() && k0.bit1 == k0.bit2 == 0 && k1.bit2 == 0
    modifies row.w
    ensures LowCarriesAt(row.w[..], k0.Value(), k1.Value()) && Only(old(row.w[..]), row.w[..], {17, 65, 18, 66, 67})
  {
    var w := row.w;
    w[17], w[65] := k0.byte, k0.bit0;
    w[18], w[66], w[67] := k1.byte, k1.bit0, k1.bit1;
  }

  /** eval_fn_96 and eval_fn_97: the output of a multiplication. */
  method WriteProductOutput(row: WitnessRow)
    requires Ready(row)
    modifies row.w
    ensures ProductPicked(row.w[..]) && Only(old(row.w[..]), row.w[..], {125, 126})
  {
    var w := row.w;
    w[125] := if w[55] == 1 then w[23] else w[25];
    w[126] := if w[55] == 1 then w[24] else w[26];
  }

  /** eval_fn_98 and eval_fn_99: the signs of quotient and remainder. */
  method WriteResultSigns(row: WitnessRow)
    requires Ready(row) && IsBit(row.w[129]) && IsBit(row.w[59]) && IsBit(row.s[1]) && IsBit(row.w[60])
    modifies row.w
    ensures SignsPicked(row.w[..], row.s[..]) && Only(old(row.w[..]), row.w[..], {130, 131})
  {
    var w, s := row.w, row.s;
    var quotientSign := ComputeAndNot(w[129], w[59]);
    w[130] := quotientSign;
    var remainderSign := ComputeAndNot(s[1], w[60]);
    w[131] := remainderSign;
  }

  /** eval_fn_100 to eval_fn_102: division by zero, and the sum or difference of the check. */
  method WriteCheckFlags(row: WitnessRow)
    requires Ready(row) && IsBit(row.w[47]) && IsBit(row.w[61]) && IsBit(row.w[128]) && IsBit(row.w[131])
    modifies row.w
    ensures CheckPicked(row.w[..]) && Only(old(row.w[..]), row.w[..], {133, 134, 135})
  {
    var w := row.w;
    var zero := ComputeAnd(w[47], w[61]);
    w[133] := zero;
    var differ := ComputeXor(w[128], w[131]);
    w[134] := differ;
    var add := ComputeAnd(w[47], w[134]);
    w[135] := add;
  }

  /** eval_fn_103 to eval_fn_105: the divisor is added to the remainder or subtracted from it. */
  method WriteRemainderCheck(row: WitnessRow, ghost f: Family)
    requires Ready(row) && Flagged(row.w[..], f) && InputsInRange(row.w[..], row.m[..]) && Second(row.w[..]).Valid()
    requires Checked(row.w[..]).Valid() && IsBit(row.w[134]) && row.w[135] == Bit(row.w[47] == 1 && row.w[134] == 1)
    modifies row.w
    ensures RemainderCompared(row.w[..], row.m[..], f) && Checked(row.w[..]).Valid()
    ensures Only(old(row.w[..]), row.w[..], if f.DIVIDE? then {27, 28, 58, 136} else {136})
  {
    var w := row.w;
    row.MaskedAdd(135, Word(w[25], w[26]), Word(w[114], w[93]), 27, 58);
    var subtract := ComputeAndNot(w[47], w[134]);
    w[136] := subtract;
    row.MaskedSub(136, Word(w[25], w[26]), Word(w[114], w[93]), 27, 58);
  }

  /** eval_fn_106 to eval_fn_109: the comparison of remainder and divisor. */
  method WriteBoundTest(row: WitnessRow)
    requires Ready(row) && IsBit(row.w[58]) && IsBit(row.w[134]) && Checked(row.w[..]).Valid()
    modifies row.w
    ensures BoundCompared(row.w[..]) && Only(old(row.w[..]), row.w[..], {137, 138, 139, 140, 141})
  {
    var w := row.w;
    var condition := ComputeXor(w[58], w[134]);
    w[137] := condition;
    row.EvalIsZero(w[27], w[28], 138, 139);
    var reversed := ComputeNor(w[137], w[138]);
    w[140] := reversed;
    w[141] := if w[131] == 1 then w[140] else w[137];
  }

  /** eval_fn_110 and eval_fn_111: the output of a division. */
  method WriteDivisionOutput(row: WitnessRow)
    requires Ready(row)
    modifies row.w
    ensures QuotientPicked(row.w[..]) && Only(old(row.w[..]), row.w[..], {143, 144})
  {
    var w := row.w;
    w[143] := if w[142] == 1 then w[23] else w[25];
    w[144] := if w[142] == 1 then w[24] else w[26];
  }

  /** eval_fn_123: the middle carry of whichever addition is active. */
  method WriteMiddleCarry(row: WitnessRow, ghost f: Family)
    requires Ready(row) && Flagged(row.w[..], f) && InputsInRange(row.w[..], row.m[..]) && OutputsInRange(row.w[..])
    requires IsBit(row.w[134]) && row.w[135] == Bit(f.DIVIDE? && row.w[134] == 1)
    requires row.w[136] == Bit(f.DIVIDE? && row.w[134] == 0)
    requires Balanced(ActiveAddition(f, row.w[..], row.m[..]), row.w[58])
    modifies row.w
    ensures MiddleCarried(row.w[..], row.m[..], f) && Only(old(row.w[..]), row.w[..], {63})
  {
    var w, m := row.w, row.m;
    ghost var a := ActiveAddition(f, w[..], m[..]);
    LimbCarryMeans(a, w[58]);
    var carry := if w[42] == 1 then LimbCarry(m[8], w[114], w[23]) else 0;
    carry := if w[53] == 1 then LimbCarry(w[23], w[114], m[8]) else carry;
    carry := if w[43] == 1 then LimbCarry(w[21], w[112], w[23]) else carry;
    carry := if w[135] == 1 then LimbCarry(w[25], w[114], w[27]) else carry;
    carry := if w[136] == 1 then LimbCarry(w[27], w[114], w[25]) else carry;
    carry := if w[45] == 1 then LimbCarry(w[23], w[114], m[8]) else carry;
    carry := if w[48] == 1 then LimbCarry(w[154], w[112], w[23]) else carry;
    carry := if w[50] == 1 then LimbCarry(m[8], w[112], w[23]) else carry;
    carry := if w[54] == 1 then LimbCarry(m[8], w[112], w[23]) else carry;
    assert carry == LimbCarry(a.x.low, a.y.low, a.z.low);
    w[63] := carry;
    assert ActiveAddition(f, w[..], m[..]) == a;
  }

  /** The carries of the two high limbs, from the stored form of the one below. */
  method ComputeHighCarries(a: Factor, b: Factor, r: Addend, p: Limbs, below: int)
    returns (k2: G.StoredCarry, k3: G.StoredCarry)
    requires a.Valid() && b.Valid() && r.Valid() && p.Valid() && below == ComputedCarries(a, b, r, p).c1
    requires (a.Value() * b.Value() + r.Value() - p.Value()) % B64 == 0
    ensures k2.Valid() && k2.Value() == ComputedCarries(a, b, r, p).c2
    ensures k3.Valid() && k3.Value() == ComputedCarries(a, b, r, p).c3
  {
    ChainComplete(a, b, r, p);
    ghost var c := ComputedCarries(a, b, r, p);
    k2 := G.SplitCarry(below + Sum2(a, b, r), p.l2, c.c2);
    k3 := G.SplitCarry(k2.Value() + Sum3(a, b, r), p.l3, c.c3);
  }

  /** eval_fn_128 and eval_fn_129: the last two signs. */
  method WriteLastSigns(row: WitnessRow)
    requires Ready(row) && IsBit(row.w[51]) && IsBit(row.w[47]) && row.w[51] + row.w[47] <= 1
    requires SignsPicked(row.w[..], row.s[..])
    modifies row.w
    ensures row.w[182] == FinalOp2(row.w[..]).sign && row.w[185] == FinalAddend(row.w[..], row.s[..]).sign
    ensures Only(old(row.w[..]), row.w[..], {182, 185})
  {
    var w := row.w;
    var sign2 := Select(w[51], w[124], w[47], w[130]);
    var sign := Select(w[47], w[131], w[51], 0);
    w[182], w[185] := sign2, sign;
  }

  predicate HighCarriesAt(w: Row, c2: int, c3: int) {
    && w[19] < B8 && w[20] < B8 && IsBit(w[68]) && IsBit(w[69]) && IsBit(w[70]) && IsBit(w[71]) && IsBit(w[72])
    && IsBit(w[73])
    && w[19] + 0x100 * w[68] + 0x200 * w[69] + 0x400 * w[70] == c2
    && w[20] + 0x100 * w[71] + 0x200 * w[72] + 0x400 * w[73] == c3
  }

  method StoreHighCarries(row: WitnessRow, k2: G.StoredCarry, k3: G.StoredCarry)
    requires Ready(row) && k2.Valid() && k3.Valid()
    modifies row.w
    ensures HighCarriesAt(row.w[..], k2.Value(), k3.Value())
    ensures Only(old(row.w[..]), row.w[..], {19, 68, 69, 70, 20, 71, 72, 73})
  {
    var w := row.w;
    w[19], w[68], w[69], w[70] := k2.byte, k2.bit0, k2.bit1, k2.bit2;
    w[20], w[71], w[72], w[73] := k3.byte, k3.bit0, k3.bit1, k3.bit2;
  }

  // ---------------------------------------------------------------------------------------
  // Groups of writes that complete one step

  method WriteJumpsAndAddresses(row: WitnessRow, ghost f: Family)
    requires Ready(row) && Flagged(row.w[..], f) && InputsInRange(row.w[..], row.m[..]) && IsBit(row.w[55])
    modifies row.w
    ensures BaseComputed(row.w[..], row.m[..])
    ensures Only(old(row.w[..]), row.w[..], if AddsLast(f) then {154, 155, 23, 24, 58} else {154, 155})
    ensures AddsLast(f) ==> SumDone(f, row.w[..], row.m[..])
  {
    ghost var t: Row := row.w[..];
    WriteBase(row);
    ghost var v: Row := row.w[..];
    BaseOnly(t, v, row.m[..], f);
    WriteLastSums(row, f);
    SumsOnly(t, v, row.w[..], row.m[..], f);
  }

  lemma BaseOnly(t: Row, v: Row, m: Memory, f: Family)
    requires Flagged(t, f) && InputsInRange(t, m) && Only(t, v, {154, 155}) && BaseComputed(v, m)
    ensures Flagged(v, f) && InputsInRange(v, m) && Base(v).Valid()
  {
  }

  lemma SumsOnly(t: Row, v: Row, u: Row, m: Memory, f: Family)
    requires InputsInRange(v, m) && Only(t, v, {154, 155}) && BaseComputed(v, m)
    requires Only(v, u, {23, 24, 58}) && (!AddsLast(f) ==> u == v)
    ensures BaseComputed(u, m) && InputsInRange(u, m)
    ensures Only(t, u, if AddsLast(f) then {154, 155, 23, 24, 58} else {154, 155})
  {
  }

  method WriteEarlyTests(row: WitnessRow, ghost f: Family)
    requires Ready(row) && Selectable(row.w[..], f)
    requires row.w[45] == 1 ==> Balanced(Addition(Pc(row.w[..]), Imm(row.w[..]), Second(row.w[..])), row.w[62])
    modifies row.w
    ensures Selectable(row.w[..], f) && TargetCarried(row.w[..]) && FirstTested(row.w[..])
    ensures Only(old(row.w[..]), row.w[..], {64, 59, 172, 173, 174})
  {
    WriteTargetCarry(row, f);
    ghost var t: Row := row.w[..];
    WriteFirstTest(row, f);
    TargetStays(t, row.w[..]);
  }

  method WriteLateTests(row: WitnessRow, ghost f: Family)
    requires Ready(row) && Selectable(row.w[..], f)
    modifies row.w
    ensures SecondTested(row.w[..]) && DivisorTested(row.w[..])
    ensures Only(old(row.w[..]), row.w[..], {60, 175, 176, 177, 61, 178, 179, 180})
  {
    WriteSecondTest(row, f);
    ghost var t: Row := row.w[..];
    WriteDivisorTest(row, f);
    SecondTestStays(t, row.w[..]);
  }

  method WriteZeroTests(row: WitnessRow, ghost f: Family)
    requires Ready(row) && Selectable(row.w[..], f)
    requires row.w[45] == 1 ==> Balanced(Addition(Pc(row.w[..]), Imm(row.w[..]), Second(row.w[..])), row.w[62])
    modifies row.w
    ensures ZerosTested(row.w[..])
    ensures Only(old(row.w[..]), row.w[..], {64, 59, 172, 173, 174, 60, 175, 176, 177, 61, 178, 179, 180})
  {
    ghost var before: Row := row.w[..];
    WriteEarlyTests(row, f);
    ghost var t: Row := row.w[..];
    WriteLateTests(row, f);
    TestsTogether(before, t, row.w[..]);
  }

  lemma TestsTogether(before: Row, t: Row, u: Row)
    requires Only(before, t, {64, 59, 172, 173, 174}) && TargetCarried(t) && FirstTested(t)
    requires Only(t, u, {60, 175, 176, 177, 61, 178, 179, 180}) && SecondTested(u) && DivisorTested(u)
    ensures ZerosTested(u) && Only(before, u, {64, 59, 172, 173, 174, 60, 175, 176, 177, 61, 178, 179, 180})
  {
    TargetStays(t, u);
    FirstTestStays(t, u);
  }

  lemma TargetStays(before: Row, after: Row)
    requires TargetCarried(before)
    requires Only(before, after, {59, 172, 173, 174}) || Only(before, after, {60, 175, 176, 177, 61, 178, 179, 180})
    ensures TargetCarried(after)
  {
  }

  lemma FirstTestStays(before: Row, after: Row)
    requires FirstTested(before) && Only(before, after, {60, 175, 176, 177, 61, 178, 179, 180})
    ensures FirstTested(after)
  {
  }

  lemma SecondTestStays(before: Row, after: Row)
    requires SecondTested(before) && Only(before, after, {61, 178, 179, 180})
    ensures SecondTested(after)
  {
  }

  method WriteOperands(row: WitnessRow, ghost f: Family)
    requires Ready(row) && Selectable(row.w[..], f)
    modifies row.w, row.s
    ensures OperandsPicked(row.w[..], row.m[..], row.s[..])
    ensures Only(old(row.w[..]), row.w[..], {181, 183, 184, 186, 187, 188, 189})
    ensures Only(old(row.s[..]), row.s[..], {2, 3, 4, 5})
  {
    WriteLeft(row, f);
    WriteRight(row, f);
    ghost var t1: Row := row.w[..];
    WriteAddend(row, f);
    ghost var t2: Row := row.w[..];
    WriteResult(row, f);
    OperandsTogether(t1, t2, row.w[..], row.m[..], row.s[..]);
  }

  lemma OperandsTogether(t1: Row, t2: Row, u: Row, m: Memory, s: Scratch)
    requires FactorsPicked(t1, m, s) && AddendPicked(t2) && ResultPicked(u, m)
    requires Only(t1, t2, {183, 184}) && Only(t2, u, {186, 187, 188, 189})
    ensures OperandsPicked(u, m, s)
  {
  }

  method WritePicked(row: WitnessRow)
    requires Ready(row) && IsBit(row.w[129]) && IsBit(row.w[59]) && IsBit(row.s[1]) && IsBit(row.w[60])
    requires IsBit(row.w[47]) && IsBit(row.w[61]) && IsBit(row.w[128])
    modifies row.w
    ensures OutputPicked(row.w[..], row.s[..]) && Only(old(row.w[..]), row.w[..], {125, 126, 130, 131, 133, 134, 135})
  {
    WriteProductOutput(row);
    ghost var t1: Row := row.w[..];
    WriteResultSigns(row);
    ghost var t2: Row := row.w[..];
    WriteCheckFlags(row);
    PicksTogether(t1, t2, row.w[..], row.s[..]);
  }

  lemma PicksTogether(t1: Row, t2: Row, u: Row, s: Scratch)
    requires ProductPicked(t1) && SignsPicked(t2, s) && CheckPicked(u)
    requires Only(t1, t2, {130, 131}) && Only(t2, u, {133, 134, 135})
    ensures OutputPicked(u, s)
  {
  }

  method WriteBound(row: WitnessRow)
    requires Ready(row) && IsBit(row.w[58]) && IsBit(row.w[134]) && Checked(row.w[..]).Valid()
    modifies row.w
    ensures BoundTested(row.w[..]) && Only(old(row.w[..]), row.w[..], {137, 138, 139, 140, 141, 143, 144})
  {
    WriteBoundTest(row);
    ghost var t1: Row := row.w[..];
    WriteDivisionOutput(row);
    BoundStays(t1, row.w[..]);
  }

  lemma BoundStays(before: Row, after: Row)
    requires BoundCompared(before) && Only(before, after, {143, 144})
    ensures BoundCompared(after)
  {
  }

  method WriteHighCarries(row: WitnessRow)
    requires Ready(row) && IsBit(row.w[51]) && IsBit(row.w[47]) && row.w[51] + row.w[47] <= 1
    requires SignsPicked(row.w[..], row.s[..]) && LowCarriesStored(row.w[..], row.s[..])
    requires var w, s := row.w[..], row.s[..]; RelatesFinally(w, s)
    modifies row.w
    ensures HighCarriesStored(row.w[..], row.s[..])
    ensures Only(old(row.w[..]), row.w[..], {182, 185, 19, 68, 69, 70, 20, 71, 72, 73})
  {
    var w, s := row.w, row.s;
    var k2, k3 := ComputeHighCarries(
      Op1(w[..]), FinalOp2(w[..]), FinalAddend(w[..], s[..]), Product(w[..]), w[18] + 0x100 * w[66] + 0x200 * w[67]);
    ghost var t: Row := w[..];
    WriteLastSigns(row);
    ghost var t1: Row := w[..];
    StoreHighCarries(row, k2, k3);
    HighCarriesTogether(t, t1, w[..], s[..]);
  }

  /** The operands, with the signs they will have, satisfy the multiplication relation. */
  predicate RelatesFinally(w: Row, s: Scratch) {
    && Op1(w).Valid() && FinalOp2(w).Valid() && FinalAddend(w, s).Valid() && Product(w).Valid()
    && (Op1(w).Value() * FinalOp2(w).Value() + FinalAddend(w, s).Value() - Product(w).Value()) % B64 == 0
  }

  lemma HighCarriesTogether(t: Row, t1: Row, u: Row, s: Scratch)
    requires Only(t, t1, {182, 185}) && Only(t1, u, {19, 68, 69, 70, 20, 71, 72, 73})
    requires t1[182] == FinalOp2(t1).sign && t1[185] == FinalAddend(t1, s).sign
    requires HighCarriesAt(u, FinalCarries(t, s).c2, FinalCarries(t, s).c3)
    ensures HighCarriesStored(u, s)
  {
    FinalOperandsStay(t, t1, s);
    FinalOperandsStay(t1, u, s);
  }

  lemma FinalOperandsStay(before: Row, after: Row, s: Scratch)
    requires Only(before, after, {182, 185}) || Only(before, after, {19, 68, 69, 70, 20, 71, 72, 73})
    ensures Op1(after) == Op1(before) && FinalOp2(after) == FinalOp2(before)
    ensures FinalAddend(after, s) == FinalAddend(before, s)
    ensures Product(after) == Product(before)
  {
  }
}
