/** Multiplication and division on a row of the full machine: signs from lookups, operands chosen by
    the family flags, one multiplication relation, and the remainder check on the shared adder. */
module FullMulDiv {
  import opened Words
  import opened Mersenne31
  import opened Gadgets
  import opened LimbChain
  import opened MExtension
  import opened Witness
  import opened FullMachine
  import C = MulDivCircuit

  const SCRATCH_SIZE := 7

  /** Places outside the trace: dividend sign and operand limbs are linear in places of the row. */
  type Scratch = s: seq<int> | |s| == SCRATCH_SIZE && Canonical(s) witness seq(SCRATCH_SIZE, i => 0)

  function FamilyOf(op: Op): Family { if op.IsDivision() then DIVIDE else MULTIPLY }

  /** The minor flags of the eight instructions. */
  predicate MinorFlags(w: Row, op: Op) {
    && w[55] == Bit(op.MUL? || op.DIV?) && w[56] == Bit(op.MULH? || op.DIVU?) && w[57] == Bit(op.MULHSU? || op.REM?)
  }

  /** What the sign lookups return for the upper limbs of the two operands. */
  predicate SignLookups(w: Row, m: Memory) {
    w[91] == Bit(m[9] >= 0x8000) && w[94] == Bit(w[93] >= 0x8000)
  }

  predicate Or(a: int, b: int, out: int) { Vanishes(a + b - a * b - out) }

  predicate SignConstraints(w: Row, s: Scratch) {
    && Or(w[56], w[57], w[122]) && And(w[122], w[91], w[123]) && And(w[56], w[94], w[124])
    && Or(w[55], w[57], w[127]) && And(w[94], w[127], w[128]) && And(w[91], w[127], s[1])
    && Xor(w[128], s[1], w[129]) && AndNot(w[129], w[59], w[130]) && AndNot(s[1], w[60], w[131])
    && Vanishes(0xffff * s[1] - w[132])
  }

  /** Zero tests of quotient, remainder and divisor; a row that does not divide tests zeros. */
  predicate ZeroConstraints(w: Row) {
    && Vanishes(w[47] * w[23] + w[45] * w[23] - w[172]) && Vanishes(w[47] * w[24] + w[45] * w[24] - w[173])
    && Vanishes(w[47] * w[25] - w[175]) && Vanishes(w[47] * w[26] - w[176])
    && Vanishes(w[47] * w[114] - w[178]) && Vanishes(w[47] * w[93] - w[179])
    && IsZero(w[172], w[173], w[59], w[174]) && IsZero(w[175], w[176], w[60], w[177])
    && IsZero(w[178], w[179], w[61], w[180])
  }

  /** Sum over the flagged alternatives of a multiplication and a division. */
  predicate Choice(w: Row, product: int, quotient: int, out: int) {
    Vanishes(w[51] * product + w[47] * quotient - out)
  }

  predicate OperandConstraints(w: Row, m: Memory, s: Scratch) {
    && Choice(w, m[8], w[114], s[2]) && Choice(w, m[9], w[93], s[3]) && Choice(w, w[123], w[128], w[181])
    && Choice(w, w[114], w[23], s[4]) && Choice(w, w[93], w[24], s[5]) && Choice(w, w[124], w[130], w[182])
    && Choice(w, 0, w[25], w[183]) && Choice(w, 0, w[26], w[184]) && Choice(w, 0, w[131], w[185])
    && Choice(w, w[23], m[8], w[186]) && Choice(w, w[24], m[9], w[187])
    && Choice(w, w[25], w[132], w[188]) && Choice(w, w[26], w[132], w[189])
  }

  predicate ByteConstraints(w: Row, s: Scratch) {
    && w[9] < B8 && w[10] < B8 && w[11] < B8 && w[12] < B8 && w[13] < B8 && w[14] < B8 && w[15] < B8 && w[16] < B8
    && Vanishes(w[9] + B8 * w[10] - s[2]) && Vanishes(w[11] + B8 * w[12] - s[3])
    && Vanishes(w[13] + B8 * w[14] - s[4]) && Vanishes(w[15] + B8 * w[16] - s[5])
  }

  function Op1(w: Row): Factor { Factor(w[9], w[10], w[11], w[12], w[181]) }
  function Op2(w: Row): Factor { Factor(w[13], w[14], w[15], w[16], w[182]) }
  function Additive(w: Row): Addend { Addend(w[183], w[184], w[185]) }
  function Product(w: Row): Limbs { Limbs(w[186], w[187], w[188], w[189]) }

  function RowCarries(w: Row): Carries {
    Carries(
      w[17] + 0x100 * w[65],
      w[18] + 0x100 * w[66] + 0x200 * w[67],
      w[19] + 0x100 * w[68] + 0x200 * w[69] + 0x400 * w[70],
      w[20] + 0x100 * w[71] + 0x200 * w[72] + 0x400 * w[73])
  }

  predicate ChainConstraints(w: Row) {
    && w[17] < B8 && w[18] < B8 && w[19] < B8 && w[20] < B8
    && IsBit(w[65]) && IsBit(w[66]) && IsBit(w[67]) && IsBit(w[68]) && IsBit(w[69]) && IsBit(w[70])
    && IsBit(w[71]) && IsBit(w[72]) && IsBit(w[73])
    && FieldChain(Op1(w), Op2(w), Additive(w), Product(w), RowCarries(w))
  }

  /** The remainder check on the shared adder, and the quotient of a division by zero. */
  predicate CheckConstraints(w: Row) {
    && And(w[47], w[61], w[133]) && Xor(w[128], w[131], w[134]) && SplitConstraints(w)
    && Xor(w[58], w[134], w[137]) && IsZero(w[27], w[28], w[138], w[139])
    && Nor(w[137], w[138], w[140]) && Choose(w[131], w[140], w[137], w[141])
    && Vanishes((w[47] - w[133]) * (1 - w[141]))
    && Vanishes(w[133] * (w[23] - 0xffff)) && Vanishes(w[133] * (w[24] - 0xffff))
  }

  predicate OutputConstraints(w: Row) {
    && Choose(w[55], w[23], w[25], w[125]) && Choose(w[55], w[24], w[26], w[126])
    && Or(w[55], w[56], w[142])
    && Choose(w[142], w[23], w[25], w[143]) && Choose(w[142], w[24], w[26], w[144])
  }

  datatype Group = Adder | Bases | Sign | Zero | Operands | Bytes | Chained | Check | Output

  predicate HoldsIn(g: Group, w: Row, m: Memory, s: Scratch) {
    match g
    case Adder => AdderConstraints(w, m)
    case Bases => BaseConstraints(w, m)
    case Sign => SignConstraints(w, s)
    case Zero => ZeroConstraints(w)
    case Operands => OperandConstraints(w, m, s)
    case Bytes => ByteConstraints(w, s)
    case Chained => ChainConstraints(w)
    case Check => CheckConstraints(w)
    case Output => OutputConstraints(w)
  }

  ghost predicate Satisfied(w: Row, m: Memory, s: Scratch) {
    forall g :: HoldsIn(g, w, m, s)
  }

  /** An instruction of the M extension on a row whose inputs are in range. */
  ghost predicate Executes(w: Row, m: Memory, op: Op) {
    Flagged(w, FamilyOf(op)) && MinorFlags(w, op) && SignLookups(w, m) && InputsInRange(w, m) && OutputsInRange(w)
  }

  // ---------------------------------------------------------------------------------------
  // Soundness

  lemma OrMeans(a: int, b: int, out: Felt)
    requires IsBit(a) && IsBit(b)
    ensures Or(a, b, out) <==> out == Bit(a == 1 || b == 1)
  {
    assert a * b == Bit(a == 1 && b == 1);
  }

  lemma MultiplySigns(w: Row, m: Memory, s: Scratch, op: Op)
    requires Satisfied(w, m, s) && Executes(w, m, op) && !op.IsDivision()
    ensures IsBit(w[123]) && IsBit(w[124])
    ensures !op.MUL? ==> Operand(Rs1(m).Value(), op.SignedLeft()) == Rs1(m).Value() - B32 * w[123]
    ensures !op.MUL? ==> Operand(Rs2(w).Value(), op.SignedRight()) == Rs2(w).Value() - B32 * w[124]
    ensures op.MUL? ==> w[123] == 0 && w[124] == 0
  {
    assert HoldsIn(Sign, w, m, s);
    OrMeans(w[56], w[57], w[122]);
    BooleanGadgetsMean(w[122], w[91], w[123]);
    BooleanGadgetsMean(w[56], w[94], w[124]);
  }

  /** The signs of divisor and dividend. */
  lemma OperandSigns(w: Row, m: Memory, s: Scratch, op: Op)
    requires Satisfied(w, m, s) && Executes(w, m, op) && op.IsDivision()
    ensures IsBit(w[128]) && Operand(Rs2(w).Value(), op.SignedRight()) == Rs2(w).Value() - B32 * w[128]
    ensures IsBit(s[1]) && Operand(Rs1(m).Value(), op.SignedLeft()) == Rs1(m).Value() - B32 * s[1]
    ensures (w[128] == 1 ==> Rs2(w).Value() >= 0x8000_0000) && (s[1] == 1 ==> Rs1(m).Value() >= 0x8000_0000)
  {
    assert HoldsIn(Sign, w, m, s);
    OrMeans(w[55], w[57], w[127]);
    BooleanGadgetsMean(w[94], w[127], w[128]);
    BooleanGadgetsMean(w[91], w[127], s[1]);
  }

  lemma TestedWords(w: Row, m: Memory, s: Scratch)
    requires Satisfied(w, m, s) && Flagged(w, DIVIDE) && First(w).Valid() && Second(w).Valid() && Rs2(w).Valid()
    ensures w[172] == w[23] && w[173] == w[24] && w[175] == w[25] && w[176] == w[26] && w[178] == w[114]
    ensures w[179] == w[93]
  {
    assert HoldsIn(Zero, w, m, s);
  }

  lemma ZeroTests(w: Row, m: Memory, s: Scratch)
    requires Satisfied(w, m, s) && Flagged(w, DIVIDE) && First(w).Valid() && Second(w).Valid() && Rs2(w).Valid()
    ensures w[59] == Bit(First(w).Value() == 0) && w[60] == Bit(Second(w).Value() == 0)
    ensures w[61] == Bit(Rs2(w).Value() == 0)
  {
    TestedWords(w, m, s);
    assert HoldsIn(Zero, w, m, s);
    IsZeroMeans(w[172], w[173], w[59], w[174]);
    IsZeroMeans(w[175], w[176], w[60], w[177]);
    IsZeroMeans(w[178], w[179], w[61], w[180]);
  }

  /** The signs the quotient and the remainder must have. */
  lemma ResultSigns(w: Row, m: Memory, s: Scratch)
    requires Satisfied(w, m, s) && IsBit(w[128]) && IsBit(s[1])
    requires w[59] == Bit(First(w).Valid() && First(w).Value() == 0)
    requires w[60] == Bit(Second(w).Valid() && Second(w).Value() == 0)
    requires First(w).Valid() && Second(w).Valid()
    ensures w[130] == Bit(w[128] != s[1] && First(w).Value() != 0)
    ensures w[131] == Bit(s[1] == 1 && Second(w).Value() != 0) && w[132] == 0xffff * s[1]
  {
    assert HoldsIn(Sign, w, m, s);
    BooleanGadgetsMean(w[128], s[1], w[129]);
    BooleanGadgetsMean(w[129], w[59], w[130]);
    BooleanGadgetsMean(s[1], w[60], w[131]);
    VanishesExactly(0xffff * s[1] - w[132]);
  }

  lemma ChoiceMeans(w: Row, product: Felt, quotient: Felt, out: Felt)
    requires Choice(w, product, quotient, out) && IsBit(w[51]) && IsBit(w[47]) && w[51] + w[47] == 1
    ensures out == if w[51] == 1 then product else quotient
  {
  }

  lemma MultiplyOperands(w: Row, m: Memory, s: Scratch)
    requires Satisfied(w, m, s) && w[51] == 1 && w[47] == 0 && InputsInRange(w, m) && OutputsInRange(w)
    requires IsBit(w[123]) && IsBit(w[124])
    ensures Op1(w).Valid() && Op1(w).Value() == Rs1(m).Value() - B32 * w[123]
    ensures Op2(w).Valid() && Op2(w).Value() == Rs2(w).Value() - B32 * w[124]
    ensures Additive(w) == Addend(0, 0, 0)
    ensures Product(w) == Limbs(w[23], w[24], w[25], w[26]) && Product(w).Valid()
  {
    assert HoldsIn(Operands, w, m, s);
    ChosenOperands(w, m, s);
    BytesOfOperands(w, m, s);
  }

  lemma ChosenOperands(w: Row, m: Memory, s: Scratch)
    requires OperandConstraints(w, m, s) && IsBit(w[51]) && IsBit(w[47]) && w[51] + w[47] == 1
    ensures s[2] == (if w[51] == 1 then m[8] else w[114]) && s[3] == (if w[51] == 1 then m[9] else w[93])
    ensures s[4] == (if w[51] == 1 then w[114] else w[23]) && s[5] == (if w[51] == 1 then w[93] else w[24])
    ensures w[181] == (if w[51] == 1 then w[123] else w[128]) && w[182] == (if w[51] == 1 then w[124] else w[130])
    ensures w[183] == (if w[51] == 1 then 0 else w[25]) && w[184] == (if w[51] == 1 then 0 else w[26])
    ensures w[185] == (if w[51] == 1 then 0 else w[131])
    ensures w[186] == (if w[51] == 1 then w[23] else m[8]) && w[187] == (if w[51] == 1 then w[24] else m[9])
    ensures w[188] == (if w[51] == 1 then w[25] else w[132]) && w[189] == (if w[51] == 1 then w[26] else w[132])
  {
    ChoiceMeans(w, m[8], w[114], s[2]);
    ChoiceMeans(w, m[9], w[93], s[3]);
    ChoiceMeans(w, w[114], w[23], s[4]);
    ChoiceMeans(w, w[93], w[24], s[5]);
    ChoiceMeans(w, w[123], w[128], w[181]);
    ChoiceMeans(w, w[124], w[130], w[182]);
    ChoiceMeans(w, 0, w[25], w[183]);
    ChoiceMeans(w, 0, w[26], w[184]);
    ChoiceMeans(w, 0, w[131], w[185]);
    ChoiceMeans(w, w[23], m[8], w[186]);
    ChoiceMeans(w, w[24], m[9], w[187]);
    ChoiceMeans(w, w[25], w[132], w[188]);
    ChoiceMeans(w, w[26], w[132], w[189]);
  }

  lemma BytesOfOperands(w: Row, m: Memory, s: Scratch)
    requires Satisfied(w, m, s) && s[2] < B16 && s[3] < B16 && s[4] < B16 && s[5] < B16
    ensures w[9] < B8 && w[10] < B8 && w[11] < B8 && w[12] < B8 && w[13] < B8 && w[14] < B8 && w[15] < B8 && w[16] < B8
    ensures w[9] + B8 * w[10] == s[2] && w[11] + B8 * w[12] == s[3]
    ensures w[13] + B8 * w[14] == s[4] && w[15] + B8 * w[16] == s[5]
  {
    assert HoldsIn(Bytes, w, m, s);
    VanishesExactly(w[9] + B8 * w[10] - s[2]);
    VanishesExactly(w[11] + B8 * w[12] - s[3]);
    VanishesExactly(w[13] + B8 * w[14] - s[4]);
    VanishesExactly(w[15] + B8 * w[16] - s[5]);
  }

  lemma DivideOperands(w: Row, m: Memory, s: Scratch)
    requires Satisfied(w, m, s) && w[51] == 0 && w[47] == 1 && InputsInRange(w, m) && OutputsInRange(w)
    requires IsBit(w[128]) && IsBit(w[130]) && IsBit(w[131]) && IsBit(s[1]) && w[132] == 0xffff * s[1]
    ensures Op1(w).Valid() && Op1(w).Value() == Rs2(w).Value() - B32 * w[128]
    ensures Op2(w).Valid() && Op2(w).Value() == First(w).Value() - B32 * w[130]
    ensures Additive(w) == Addend(w[25], w[26], w[131]) && Additive(w).Valid()
    ensures Product(w).Valid() && Product(w).Value() == Rs1(m).Value() + (B64 - B32) * s[1]
  {
    assert HoldsIn(Operands, w, m, s);
    ChosenOperands(w, m, s);
    BytesOfOperands(w, m, s);
  }

  lemma RelationSound(w: Row, m: Memory, s: Scratch)
    requires Satisfied(w, m, s)
    requires Op1(w).Valid() && Op2(w).Valid() && Additive(w).Valid() && Product(w).Valid()
    ensures (Op1(w).Value() * Op2(w).Value() + Additive(w).Value() - Product(w).Value()) % B64 == 0
  {
    assert HoldsIn(Chained, w, m, s);
    FieldChainExact(Op1(w), Op2(w), Additive(w), Product(w), RowCarries(w));
    ChainSound(Op1(w), Op2(w), Additive(w), Product(w), RowCarries(w));
  }

  /** The remainder check reads |remainder| < |divisor| off the shared adder. */
  lemma RemainderChecked(w: Row, m: Memory, s: Scratch)
    requires Satisfied(w, m, s) && Flagged(w, DIVIDE) && InputsInRange(w, m) && OutputsInRange(w)
    requires IsBit(w[128]) && IsBit(w[131]) && Rs2(w).Value() != 0 && w[61] == 0
    requires w[131] == 1 ==> Second(w).Value() != 0
    ensures Abs(Second(w).Value() - B32 * w[131]) < Abs(Rs2(w).Value() - B32 * w[128])
  {
    assert HoldsIn(Check, w, m, s);
    assert HoldsIn(Adder, w, m, s);
    BooleanGadgetsMean(w[47], w[61], w[133]);
    BooleanGadgetsMean(w[128], w[131], w[134]);
    AdderSound(w, m, DIVIDE);
    BooleanGadgetsMean(w[58], w[134], w[137]);
    IsZeroMeans(w[27], w[28], w[138], w[139]);
    BooleanGadgetsMean(w[137], w[138], w[140]);
    ChooseMeans(w[131], w[140], w[137], w[141]);
    C.MagnitudesCompared(Second(w).Value(), w[131], Rs2(w).Value(), w[128], Checked(w).Value(), w[58]);
    assert (w[47] - w[133]) * (1 - w[141]) == 1 - w[141];
  }

  lemma ZeroDivisorChecked(w: Row, m: Memory, s: Scratch)
    requires Satisfied(w, m, s) && w[47] == 1 && w[61] == 1 && First(w).Valid()
    ensures First(w).Value() == B32 - 1
  {
    assert HoldsIn(Check, w, m, s);
    BooleanGadgetsMean(w[47], w[61], w[133]);
    VanishesExactly(w[23] - 0xffff);
    VanishesExactly(w[24] - 0xffff);
  }

  lemma MultiplicationSound(w: Row, m: Memory, s: Scratch, op: Op)
    requires Satisfied(w, m, s) && Executes(w, m, op) && !op.IsDivision()
    ensures op.MUL? ==> First(w).Value() == Result(op, Rs1(m).Value(), Rs2(w).Value())
    ensures !op.MUL? ==> Second(w).Value() == Result(op, Rs1(m).Value(), Rs2(w).Value())
  {
    MultiplySigns(w, m, s, op);
    MultiplyOperands(w, m, s);
    RelationSound(w, m, s);
    var a, b := Rs1(m).Value() - B32 * w[123], Rs2(w).Value() - B32 * w[124];
    C.ProductDetermined(Op1(w).Value(), Op2(w).Value(), Product(w), a, b);
    if op.MUL? { LowProductIgnoresSigns(Rs1(m).Value(), Rs2(w).Value()); }
  }

  lemma DivisionSigns(w: Row, m: Memory, s: Scratch, op: Op)
    requires Satisfied(w, m, s) && Executes(w, m, op) && op.IsDivision()
    ensures IsBit(w[128]) && IsBit(w[130]) && IsBit(w[131]) && IsBit(s[1]) && w[132] == 0xffff * s[1]
    ensures w[61] == Bit(Rs2(w).Value() == 0)
    ensures w[130] == Bit(w[128] != s[1] && First(w).Value() != 0) && w[131] == Bit(s[1] == 1 && Second(w).Value() != 0)
    ensures Operand(Rs2(w).Value(), op.SignedRight()) == Rs2(w).Value() - B32 * w[128]
    ensures Operand(Rs1(m).Value(), op.SignedLeft()) == Rs1(m).Value() - B32 * s[1]
    ensures (w[128] == 1 ==> Rs2(w).Value() >= 0x8000_0000) && (s[1] == 1 ==> Rs1(m).Value() >= 0x8000_0000)
  {
    OperandSigns(w, m, s, op);
    ZeroTests(w, m, s);
    ResultSigns(w, m, s);
  }

  lemma DivisionRelation(w: Row, m: Memory, s: Scratch) returns (vq: int, vy: int, vr: int, vx: int)
    requires Satisfied(w, m, s) && w[51] == 0 && w[47] == 1 && InputsInRange(w, m) && OutputsInRange(w)
    requires IsBit(w[128]) && IsBit(w[130]) && IsBit(w[131]) && IsBit(s[1]) && w[132] == 0xffff * s[1]
    ensures (vq * vy + vr - vx) % B64 == 0
    ensures vq == First(w).Value() - B32 * w[130] && vy == Rs2(w).Value() - B32 * w[128]
    ensures vr == Second(w).Value() - B32 * w[131] && vx == Rs1(m).Value() + (B64 - B32) * s[1]
  {
    DivideOperands(w, m, s);
    RelationSound(w, m, s);
    vq, vy, vr, vx := Op2(w).Value(), Op1(w).Value(), Additive(w).Value(), Product(w).Value();
    SwapFactors(vq, vy);
  }

  lemma DivisionSound(w: Row, m: Memory, s: Scratch, op: Op)
    requires Satisfied(w, m, s) && Executes(w, m, op) && op.IsDivision()
    ensures (First(w).Value(), Second(w).Value()) == ResultWords(op, Rs1(m).Value(), Rs2(w).Value())
  {
    DivisionSigns(w, m, s, op);
    if Rs2(w).Value() != 0 { RemainderChecked(w, m, s); } else { ZeroDivisorChecked(w, m, s); }
    var vq, vy, vr, vx := DivisionRelation(w, m, s);
    C.DivisionPinned(vq, vy, vr, vx,
      First(w).Value(), w[130], Second(w).Value(), w[131], Rs1(m).Value(), s[1], Rs2(w).Value(), w[128],
      Operand(Rs1(m).Value(), op.SignedLeft()), Operand(Rs2(w).Value(), op.SignedRight()));
  }

  /** On any row that satisfies the constraints, the output limbs of the family hold the result the
      ISA prescribes. */
  lemma OutputSound(w: Row, m: Memory, s: Scratch, op: Op)
    requires Satisfied(w, m, s) && Executes(w, m, op)
    ensures var out := if op.IsDivision() then Reg(w[143], w[144]) else Reg(w[125], w[126]);
      out.Valid() && out.Value() == Result(op, Rs1(m).Value(), Rs2(w).Value())
  {
    OutputChosen(w, m, s, op);
    if op.IsDivision() {
      DivisionSound(w, m, s, op);
    } else {
      MultiplicationSound(w, m, s, op);
    }
  }

  lemma OutputChosen(w: Row, m: Memory, s: Scratch, op: Op)
    requires Satisfied(w, m, s) && Executes(w, m, op)
    ensures var out := if op.IsDivision() then Reg(w[143], w[144]) else Reg(w[125], w[126]);
      out == if op.FirstWord() then First(w) else Second(w)
  {
    assert HoldsIn(Output, w, m, s);
    ChooseMeans(w[55], w[23], w[25], w[125]);
    ChooseMeans(w[55], w[24], w[26], w[126]);
    OrMeans(w[55], w[56], w[142]);
    ChooseMeans(w[142], w[23], w[25], w[143]);
    ChooseMeans(w[142], w[24], w[26], w[144]);
  }
}
