/** The witness generator of the signed multiply/divide circuit: each method fills the slots of
    one or more generated functions, in their order, and `Evaluate` runs them all. */
module MulDivGenerator {
  import opened Words
  import opened Mersenne31
  import opened Gadgets
  import opened LimbChain
  import opened MExtension
  import opened MulDivCircuit
  import opened MulDivWitness
  import opened Witness

  // ---------------------------------------------------------------------------------------
  // The generator

  /** The signed division primitive: it wraps the one overflowing quotient itself. */
  function SignedDivRem(a: int, b: int): (int, int)
    requires b != 0
  {
    if a == -0x8000_0000 && b == -1 then (a, 0) else (Quotient(a, b), Remainder(a, b))
  }

  lemma SignedDivRemWraps(a: int, b: int)
    requires b != 0
    ensures Wrap32(SignedDivRem(a, b).0) == Wrap32(Quotient(a, b))
    ensures Wrap32(SignedDivRem(a, b).1) == Wrap32(Remainder(a, b))
  {
  }

  method UnsignedDivRem(x: u32, y: u32) returns (q: u32, r: u32)
    requires y != 0
    ensures q == Wrap32(Quotient(x, y)) && r == Wrap32(Remainder(x, y))
  {
    QuotientNotLarger(x, y);
    q, r := x / y, x % y;
  }

  ghost predicate Ready(row: WitnessRow)
    reads row.m
  {
    row.Valid() && row.w.Length == ROW_SIZE && row.m.Length == MEMORY_SIZE && row.s.Length == 3
    && OperandsInRange(row.m[..])
  }

  /** eval_fn_1: split the opcode bitmask. */
  method WriteFlags(row: WitnessRow, ghost op: Op)
    requires Ready(row) && row.w[4] == OpMask(op)
    modifies row.w
    ensures Ready(row) && FlagsComputed(row.w[..], op)
    ensures Writes(old(row.w[..]), row.w[..], SplitFlags)
  {
    var w, mask := row.w, row.w[4];
    w[29] := mask % 2;
    w[30] := mask / 2 % 2;
    w[31] := mask / 4 % 2;
    w[32] := mask / 8 % 2;
  }

  /** eval_fn_4 and eval_fn_5: masked sign bits of the operands. */
  method WriteSigns(row: WitnessRow)
    requires Ready(row) && IsBit(row.w[31]) && IsBit(row.w[32])
    modifies row.w
    ensures Ready(row) && SignsComputed(row.w[..], row.m[..])
    ensures Writes(old(row.w[..]), row.w[..], SplitSigns)
  {
    var w := row.w;
    var high1: int, high2: int := row.m[3], row.m[8];
    w[33] := Bit(!(if w[31] == 1 then high1 < 0x8000 else true));
    w[21] := if w[31] == 1 then Wrap16(high1 - 0x8000) else high1;
    w[34] := Bit(!(if w[32] == 1 then high2 < 0x8000 else true));
    w[22] := if w[32] == 1 then Wrap16(high2 - 0x8000) else high2;
  }

  /** eval_fn_6: product words, or quotient and remainder. */
  method WriteWords(row: WitnessRow, ghost op: Op)
    requires Ready(row) && FlagsComputed(row.w[..], op)
    modifies row.w
    ensures Ready(row) && WordsComputed(row.w[..], row.m[..], op)
    ensures Writes(old(row.w[..]), row.w[..], FillWords)
  {
    var w, m := row.w, row.m;
    var first, second := GenerateWords(w[29] == 1, w[31] == 1, w[32] == 1, Word(m[2], m[3]), Word(m[7], m[8]), op);
    w[23], w[24], w[25], w[26] := Low(first), High(first), Low(second), High(second);
  }

  /** eval_fn_7 to eval_fn_9: the sign of the quotient. */
  method WriteQuotientSign(row: WitnessRow)
    requires Ready(row) && IsBit(row.w[33]) && IsBit(row.w[34]) && row.w[23] < B16 && row.w[24] < B16
    modifies row.w
    ensures Ready(row) && QuotientSignComputed(row.w[..])
    ensures Writes(old(row.w[..]), row.w[..], DeriveSigns)
  {
    row.EvalXor(33, 34, 52);
    row.EvalIsZero(row.w[23], row.w[24], 53, 54);
    row.EvalAndNot(52, 53, 55);
  }

  lemma QuotientSignKept(before: Row, middle: Row, after: Row)
    requires Writes(before, middle, DeriveSigns) && QuotientSignComputed(middle)
    requires Only(middle, after, {56, 57, 58})
    ensures Writes(before, after, DeriveSigns) && QuotientSignComputed(after)
  {
  }

  /** eval_fn_10 and eval_fn_11: the sign of the remainder. */
  method WriteRemainderSign(row: WitnessRow)
    requires Ready(row) && IsBit(row.w[33]) && row.w[25] < B16 && row.w[26] < B16
    modifies row.w
    ensures Ready(row) && RemainderSignComputed(row.w[..])
    ensures Only(old(row.w[..]), row.w[..], {56, 57, 58})
  {
    row.EvalIsZero(row.w[25], row.w[26], 56, 57);
    row.EvalAndNot(33, 56, 58);
  }

  /** The limbs of quotient or rs1 wait in two scratch places for the byte split. */
  ghost predicate FirstFactorInScratch(row: WitnessRow)
    requires Ready(row)
    reads row.w, row.m, row.s
  {
    && row.s[0] == (if row.w[29] == 1 then row.w[23] else row.m[2])
    && row.s[1] == (if row.w[29] == 1 then row.w[24] else row.m[3])
  }

  /** eval_fn_12 to eval_fn_17: the first factor, in scratch places, its sign, and the addend. */
  method WriteFactors(row: WitnessRow)
    requires Ready(row) && IsBit(row.w[29]) && IsBit(row.w[33]) && IsBit(row.w[58])
    modifies row.w, row.s
    ensures Ready(row) && FactorsSelected(row.w[..]) && FirstFactorInScratch(row)
    ensures Writes(old(row.w[..]), row.w[..], PickFactors)
  {
    var w, m, s := row.w, row.m, row.s;
    var multiply := w[29] != 1;
    s[0] := if multiply then m[2] else w[23];
    s[1] := if multiply then m[3] else w[24];
    w[59] := if multiply then w[33] else w[55];
    w[60] := if w[29] == 1 then w[25] else 0;
    w[61] := if w[29] == 1 then w[26] else 0;
    row.EvalAnd(29, 58, 62);
  }

  /** eval_fn_18 to eval_fn_22: the 64-bit result, either the two words or the dividend extended
      by its sign, which goes through a scratch place. */
  method WriteProduct(row: WitnessRow)
    requires Ready(row) && IsBit(row.w[29]) && IsBit(row.w[33])
    modifies row.w, row.s
    ensures Ready(row) && ProductSelected(row.w[..], row.m[..])
    ensures row.s[0] == old(row.s[0]) && row.s[1] == old(row.s[1])
    ensures Writes(old(row.w[..]), row.w[..], PickProduct)
  {
    var w, m, s := row.w, row.m, row.s;
    var multiply := w[29] != 1;
    w[63] := if multiply then w[23] else m[2];
    w[64] := if multiply then w[24] else m[3];
    var extension := ComputeExtension(w[33]);
    s[2] := extension;
    w[65] := if multiply then w[25] else s[2];
    w[66] := if multiply then w[26] else s[2];
  }

  /** eval_fn_23 and eval_fn_24: the bytes of both factors. */
  method WriteBytes(row: WitnessRow)
    requires Ready(row) && FirstFactorInScratch(row) && row.s[0] < B16 && row.s[1] < B16
    modifies row.w
    ensures Ready(row) && BytesComputed(row.w[..], row.m[..])
    ensures Writes(old(row.w[..]), row.w[..], SplitBytes)
  {
    var w, m, s := row.w, row.m, row.s;
    w[9], w[10] := s[0] % B8, s[0] / B8 % B8;
    w[11], w[12] := s[1] % B8, s[1] / B8 % B8;
    w[13], w[14] := m[7] % B8, m[7] / B8 % B8;
    w[15], w[16] := m[8] % B8, m[8] / B8 % B8;
  }

  /** A carry as it is stored: a byte and up to three bits. */
  datatype StoredCarry = StoredCarry(byte: Felt, bit0: Felt, bit1: Felt, bit2: Felt) {
    predicate Valid() { byte < B8 && IsBit(bit0) && IsBit(bit1) && IsBit(bit2) }
    function Value(): int { byte + 0x100 * bit0 + 0x200 * bit1 + 0x400 * bit2 }
  }

  /** The excess of a limb sum over its limb, in 32-bit arithmetic, shifted and split. */
  method SplitCarry(s: int, l: int, ghost c: int) returns (k: StoredCarry)
    requires s == l + B16 * c && 0 <= c < 0x800
    ensures k.Valid() && k.Value() == c
  {
    var v := Wrap32(s - l) / B16;
    k := StoredCarry(v % B8, v / B8 % 2, v / B8 / 2 % 2, v / B8 / 4 % 2);
  }

  /** The carries of the four limbs, each computed from the stored form of the one before.
      Nothing wraps and nothing is lost. */
  method ComputeCarries(a: Factor, b: Factor, r: Addend, p: Limbs)
    returns (k0: StoredCarry, k1: StoredCarry, k2: StoredCarry, k3: StoredCarry)
    requires a.Valid() && b.Valid() && r.Valid() && p.Valid()
    requires (a.Value() * b.Value() + r.Value() - p.Value()) % B64 == 0
    ensures k0.Valid() && k1.Valid() && k2.Valid() && k3.Valid()
    ensures k0.bit1 == k0.bit2 == k1.bit2 == 0
    ensures ComputedCarries(a, b, r, p) == Carries(k0.Value(), k1.Value(), k2.Value(), k3.Value())
  {
    ChainComplete(a, b, r, p);
    ghost var c := ComputedCarries(a, b, r, p);
    k0 := SplitCarry(Sum0(a, b, r), p.l0, c.c0);
    k1 := SplitCarry(k0.Value() + Sum1(a, b, r), p.l1, c.c1);
    k2 := SplitCarry(k1.Value() + Sum2(a, b, r), p.l2, c.c2);
    k3 := SplitCarry(k2.Value() + Sum3(a, b, r), p.l3, c.c3);
  }

  method StoreCarries(row: WitnessRow, k0: StoredCarry, k1: StoredCarry, k2: StoredCarry, k3: StoredCarry)
    requires Ready(row) && k0.Valid() && k1.Valid() && k2.Valid() && k3.Valid()
    requires k0.bit1 == k0.bit2 == k1.bit2 == 0
    modifies row.w
    ensures Ready(row) && CarryRanges(row.w[..])
    ensures RowCarries(row.w[..]) == Carries(k0.Value(), k1.Value(), k2.Value(), k3.Value())
    ensures Writes(old(row.w[..]), row.w[..], FillCarries)
  {
    StoreCarry(row, k0, 17, 35, 0);
    StoreCarry(row, k1, 18, 36, 1);
    StoreCarry(row, k2, 19, 38, 2);
    StoreCarry(row, k3, 20, 41, 2);
  }

  /** One carry: its byte and its bits, in consecutive slots. */
  method StoreCarry(row: WitnessRow, k: StoredCarry, byte: nat, bits: nat, last: nat)
    requires Ready(row) && k.Valid() && last <= 2 && byte < bits && bits + last < ROW_SIZE
    modifies row.w
    ensures Ready(row) && row.w[byte] == k.byte && row.w[bits] == k.bit0
    ensures last >= 1 ==> row.w[bits + 1] == k.bit1
    ensures last == 2 ==> row.w[bits + 2] == k.bit2
    ensures forall i :: 0 <= i < ROW_SIZE && i != byte && !(bits <= i <= bits + last) ==> row.w[i] == old(row.w[i])
  {
    var w := row.w;
    w[bits] := k.bit0;
    if last >= 1 { w[bits + 1] := k.bit1; }
    if last == 2 { w[bits + 2] := k.bit2; }
    w[byte] := k.byte;
  }

  lemma OperandsReady(w: Row, m: Memory, op: Op)
    requires Done(w, m, op, FillCarries.Order())
    ensures Op1(w).Valid() && Op2(w).Valid() && Additive(w).Valid() && Product(w).Valid()
    ensures (Op1(w).Value() * Op2(w).Value() + Additive(w).Value() - Product(w).Value()) % B64 == 0
  {
    ResultsDone(w, m, op);
    OperandsDone(w, m, op);
    RelationHolds(w, m, op);
  }

  /** eval_fn_29 and eval_fn_30: the word written to rd. */
  method WriteOutput(row: WitnessRow)
    requires Ready(row)
    modifies row.w
    ensures Ready(row) && OutputComputed(row.w[..])
    ensures Writes(old(row.w[..]), row.w[..], PickOutput)
  {
    var w := row.w;
    w[67] := if w[30] == 1 then w[23] else w[25];
    w[68] := if w[30] == 1 then w[24] else w[26];
  }

  /** eval_fn_31 to eval_fn_33: is the divisor zero, and does the bound need a sum or a
      difference. */
  method WriteDivisorTest(row: WitnessRow)
    requires Ready(row) && IsBit(row.w[29]) && IsBit(row.w[34]) && IsBit(row.w[58])
    modifies row.w
    ensures Ready(row) && DivisorTested(row.w[..], row.m[..])
    ensures Writes(old(row.w[..]), row.w[..], TestDivisor)
  {
    row.EvalIsZero(row.m[7], row.m[8], 69, 70);
    row.EvalAnd(29, 69, 71);
    row.EvalXor(34, 58, 72);
  }

  /** Two 16-bit limbs added or subtracted with a carry between them. */
  method AddOrSub(add: bool, aLow: u16, aHigh: u16, bLow: u16, bHigh: u16)
    returns (low: u16, high: u16, carry: Felt, overflow: Felt)
    ensures IsBit(carry) && IsBit(overflow)
    ensures add ==> aLow + bLow == low + B16 * carry && aHigh + bHigh + carry == high + B16 * overflow
    ensures !add ==> aLow - bLow == low - B16 * carry && aHigh - bHigh - carry == high - B16 * overflow
  {
    low := if add then Wrap16(aLow + bLow) else Wrap16(aLow - bLow);
    carry := Bit(if add then aLow + bLow >= B16 else aLow < bLow);
    var sum, difference := Wrap16(aHigh + bHigh), Wrap16(aHigh - bHigh);
    high := if add then Wrap16(sum + carry) else Wrap16(difference - carry);
    overflow := Bit(if add then aHigh + bHigh >= B16 || sum + carry >= B16
                    else aHigh < bHigh || difference < carry);
  }

  /** eval_fn_34: remainder plus or minus divisor. */
  method WriteAddSub(row: WitnessRow)
    requires Ready(row) && row.w[25] < B16 && row.w[26] < B16 && IsBit(row.w[72])
    modifies row.w
    ensures Ready(row) && MagnitudesAdded(row.w[..], row.m[..])
    ensures Writes(old(row.w[..]), row.w[..], AddDivisor)
  {
    var w, m := row.w, row.m;
    var low, high, carry, overflow := AddOrSub(w[72] == 1, w[25], w[26], m[7], m[8]);
    w[27], w[28], w[44], w[45] := low, high, carry, overflow;
  }

  /** eval_fn_35 to eval_fn_38: is the remainder smaller than the divisor. */
  method WriteBoundTest(row: WitnessRow)
    requires Ready(row) && IsBit(row.w[58]) && IsBit(row.w[72]) && IsBit(row.w[45])
    requires row.w[27] < B16 && row.w[28] < B16
    modifies row.w
    ensures Ready(row) && BoundTested(row.w[..])
    ensures Writes(old(row.w[..]), row.w[..], TestBound)
  {
    row.EvalXor(72, 45, 73);
    row.EvalIsZero(row.w[27], row.w[28], 74, 75);
    row.EvalNor(73, 74, 76);
    row.w[77] := if row.w[58] == 1 then row.w[76] else row.w[73];
  }

  /** The selection among the signed, mixed and unsigned primitives. */
  method GenerateWords(division: bool, signed1: bool, signed2: bool, x: u32, y: u32, ghost op: Op)
    returns (first: u32, second: u32)
    requires division == op.IsDivision() && signed1 == op.SignedLeft() && signed2 == op.SignedRight()
    ensures (first, second) == ResultWords(op, x, y)
  {
    var both := signed1 && signed2;
    if !division {
      var p := if both then Signed(x) * Signed(y)
               else if signed1 || signed2 then Signed(x) * y
               else x * y;
      first, second := Wrap32(p), Wrap32(p / B32);
    } else {
      var divisor: u32 := if y == 0 then 0x7ff_ffff else y;
      var signed := SignedDivRem(Signed(x), Signed(divisor));
      var q, r := UnsignedDivRem(x, divisor);
      if y == 0 {
        first, second := B32 - 1, x;
      } else {
        SignedDivRemWraps(Signed(x), Signed(y));
        first := if both then Wrap32(signed.0) else q;
        second := if both then Wrap32(signed.1) else r;
      }
    }
  }

  // ---------------------------------------------------------------------------------------
  // Each step advances the invariant of the run

  ghost predicate Progress(row: WitnessRow, op: Op, n: nat)
    reads row.w, row.m
  {
    Ready(row) && Done(row.w[..], row.m[..], op, n)
  }

  method EvalFlags(row: WitnessRow, ghost op: Op)
    requires Progress(row, op, SplitFlags.Order())
    modifies row.w
    ensures Progress(row, op, SplitFlags.Order() + 1)
  {
    ghost var before: Row := row.w[..];
    WriteFlags(row, op);
    Advance(before, row.w[..], row.m[..], op, SplitFlags);
  }

  method EvalSigns(row: WitnessRow, ghost op: Op)
    requires Progress(row, op, SplitSigns.Order())
    modifies row.w
    ensures Progress(row, op, SplitSigns.Order() + 1)
  {
    ghost var before: Row := row.w[..];
    assert Computed(SplitFlags, before, row.m[..], op);
    WriteSigns(row);
    Advance(before, row.w[..], row.m[..], op, SplitSigns);
  }

  method EvalWords(row: WitnessRow, ghost op: Op)
    requires Progress(row, op, FillWords.Order())
    modifies row.w
    ensures Progress(row, op, FillWords.Order() + 1)
  {
    ghost var before: Row := row.w[..];
    assert Computed(SplitFlags, before, row.m[..], op);
    WriteWords(row, op);
    Advance(before, row.w[..], row.m[..], op, FillWords);
  }

  method EvalOutcomeSigns(row: WitnessRow, ghost op: Op)
    requires Progress(row, op, DeriveSigns.Order())
    modifies row.w
    ensures Progress(row, op, DeriveSigns.Order() + 1)
  {
    ghost var before: Row := row.w[..];
    assert Computed(SplitSigns, before, row.m[..], op);
    assert Computed(FillWords, before, row.m[..], op);
    WriteQuotientSign(row);
    ghost var middle: Row := row.w[..];
    WriteRemainderSign(row);
    QuotientSignKept(before, middle, row.w[..]);
    Advance(before, row.w[..], row.m[..], op, DeriveSigns);
  }

  method EvalFactors(row: WitnessRow, ghost op: Op)
    requires Progress(row, op, PickFactors.Order())
    modifies row.w, row.s
    ensures Progress(row, op, PickFactors.Order() + 1)
    ensures FirstFactorInScratch(row)
  {
    ghost var before: Row := row.w[..];
    assert Computed(SplitFlags, before, row.m[..], op);
    assert Computed(SplitSigns, before, row.m[..], op);
    assert Computed(DeriveSigns, before, row.m[..], op);
    WriteFactors(row);
    Advance(before, row.w[..], row.m[..], op, PickFactors);
  }

  method EvalProduct(row: WitnessRow, ghost op: Op)
    requires Progress(row, op, PickProduct.Order()) && FirstFactorInScratch(row)
    modifies row.w, row.s
    ensures Progress(row, op, PickProduct.Order() + 1) && FirstFactorInScratch(row)
  {
    ghost var before: Row := row.w[..];
    assert Computed(SplitFlags, before, row.m[..], op);
    assert Computed(SplitSigns, before, row.m[..], op);
    WriteProduct(row);
    Advance(before, row.w[..], row.m[..], op, PickProduct);
  }

  method EvalBytes(row: WitnessRow, ghost op: Op)
    requires Progress(row, op, SplitBytes.Order()) && FirstFactorInScratch(row)
    modifies row.w
    ensures Progress(row, op, SplitBytes.Order() + 1)
  {
    ghost var before: Row := row.w[..];
    assert Computed(SplitFlags, before, row.m[..], op);
    assert Computed(FillWords, before, row.m[..], op);
    WriteBytes(row);
    Advance(before, row.w[..], row.m[..], op, SplitBytes);
  }

  method EvalCarries(row: WitnessRow, ghost op: Op)
    requires Progress(row, op, FillCarries.Order())
    modifies row.w
    ensures Progress(row, op, FillCarries.Order() + 1)
  {
    ghost var before: Row := row.w[..];
    OperandsReady(before, row.m[..], op);
    var w := row.w;
    var k0, k1, k2, k3 := ComputeCarries(Op1(w[..]), Op2(w[..]), Additive(w[..]), Product(w[..]));
    StoreCarries(row, k0, k1, k2, k3);
    OperandsKept(before, w[..], FillCarries);
    Advance(before, w[..], row.m[..], op, FillCarries);
  }

  method EvalOutput(row: WitnessRow, ghost op: Op)
    requires Progress(row, op, PickOutput.Order())
    modifies row.w
    ensures Progress(row, op, PickOutput.Order() + 1)
  {
    ghost var before: Row := row.w[..];
    WriteOutput(row);
    Advance(before, row.w[..], row.m[..], op, PickOutput);
  }

  method EvalDivisorTest(row: WitnessRow, ghost op: Op)
    requires Progress(row, op, TestDivisor.Order())
    modifies row.w
    ensures Progress(row, op, TestDivisor.Order() + 1)
  {
    ghost var before: Row := row.w[..];
    assert Computed(SplitFlags, before, row.m[..], op);
    assert Computed(SplitSigns, before, row.m[..], op);
    assert Computed(DeriveSigns, before, row.m[..], op);
    WriteDivisorTest(row);
    Advance(before, row.w[..], row.m[..], op, TestDivisor);
  }

  method EvalAddSub(row: WitnessRow, ghost op: Op)
    requires Progress(row, op, AddDivisor.Order())
    modifies row.w
    ensures Progress(row, op, AddDivisor.Order() + 1)
  {
    ghost var before: Row := row.w[..];
    assert Computed(FillWords, before, row.m[..], op);
    assert Computed(TestDivisor, before, row.m[..], op);
    WriteAddSub(row);
    Advance(before, row.w[..], row.m[..], op, AddDivisor);
  }

  method EvalBoundTest(row: WitnessRow, ghost op: Op)
    requires Progress(row, op, TestBound.Order())
    modifies row.w
    ensures Progress(row, op, TestBound.Order() + 1)
  {
    ghost var before: Row := row.w[..];
    assert Computed(DeriveSigns, before, row.m[..], op);
    assert Computed(TestDivisor, before, row.m[..], op);
    assert Computed(AddDivisor, before, row.m[..], op);
    WriteBoundTest(row);
    Advance(before, row.w[..], row.m[..], op, TestBound);
  }

  /** A finished row satisfies the circuit and holds the result. */
  lemma DoneIsCorrect(w: Row, m: Memory, op: Op)
    requires Done(w, m, op, STEPS)
    ensures Satisfied(w, m) && w[67] < B16 && w[68] < B16
    ensures Word(w[67], w[68]) == Result(op, Rs1(m), Rs2(m))
  {
    CircuitComplete(w, m, op);
    CircuitSound(w, m, op);
  }

  method EvalRelation(row: WitnessRow, ghost op: Op)
    requires Progress(row, op, 0)
    modifies row.w, row.s
    ensures Progress(row, op, FillCarries.Order())
  {
    EvalFlags(row, op);
    EvalSigns(row, op);
    EvalWords(row, op);
    EvalOutcomeSigns(row, op);
    EvalFactors(row, op);
    EvalProduct(row, op);
    EvalBytes(row, op);
  }

  method EvalChecks(row: WitnessRow, ghost op: Op)
    requires Progress(row, op, FillCarries.Order())
    modifies row.w
    ensures Progress(row, op, STEPS)
  {
    EvalCarries(row, op);
    EvalOutput(row, op);
    EvalDivisorTest(row, op);
    EvalAddSub(row, op);
    EvalBoundTest(row, op);
  }

  /** The whole generator: for every operation and all operands the row it leaves satisfies the
      circuit, and the word written to rd is the one the ISA prescribes. */
  method Evaluate(row: WitnessRow, ghost op: Op)
    requires Ready(row) && row.w[4] == OpMask(op)
    modifies row.w, row.s
    ensures Ready(row) && row.w[4] == OpMask(op) && Satisfied(row.w[..], row.m[..])
    ensures row.w[67] < B16 && row.w[68] < B16
    ensures Word(row.w[67], row.w[68]) == Result(op, Rs1(row.m[..]), Rs2(row.m[..]))
  {
    EvalRelation(row, op);
    EvalChecks(row, op);
    DoneIsCorrect(row.w[..], row.m[..], op);
  }
}
