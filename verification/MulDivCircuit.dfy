/** The signed multiply/divide circuit: its constraints over a witness row `w` and a memory row
    `m`, and the proof that any row satisfying them carries the result the ISA prescribes.
    Slots are named by their number in the generated witness functions. */
module MulDivCircuit {
  import opened Words
  import opened Mersenne31
  import opened Gadgets
  import opened LimbChain
  import opened MExtension
  import opened Witness

  const ROW_SIZE := 80
  const MEMORY_SIZE := 20

  type Row = w: seq<int> | |w| == ROW_SIZE && Canonical(w) witness seq(ROW_SIZE, i => 0)
  type Memory = m: seq<int> | |m| == MEMORY_SIZE && Canonical(m) witness seq(MEMORY_SIZE, i => 0)

  /** The operands come from memory already split into range-checked limbs. */
  predicate OperandsInRange(m: Memory) {
    m[2] < B16 && m[3] < B16 && m[7] < B16 && m[8] < B16
  }

  function Rs1(m: Memory): u32 requires OperandsInRange(m) { Word(m[2], m[3]) }

  function Rs2(m: Memory): u32 requires OperandsInRange(m) { Word(m[7], m[8]) }

  /** The decoder's bitmask: division, first word, rs1 signed, rs2 signed. */
  function OpMask(op: Op): Felt {
    Bit(op.IsDivision()) + 2 * Bit(op.FirstWord()) + 4 * Bit(op.SignedLeft()) + 8 * Bit(op.SignedRight())
  }

  /** The mask the decoder sets for each funct3. */
  const MASKS: seq<nat> := [14, 12, 4, 0, 15, 3, 13, 1]

  lemma MaskOfFunct3(op: Op)
    ensures OpMask(op) == MASKS[Funct3(op)]
  {
  }

  // The operands of the multiplication relation, as the row holds them.

  function Op1(w: Row): Factor { Factor(w[9], w[10], w[11], w[12], w[59]) }

  function Op2(w: Row): Factor { Factor(w[13], w[14], w[15], w[16], w[34]) }

  function Additive(w: Row): Addend { Addend(w[60], w[61], w[62]) }

  function Product(w: Row): Limbs { Limbs(w[63], w[64], w[65], w[66]) }

  /** The carries, each a byte and one to three bits. */
  function RowCarries(w: Row): Carries {
    Carries(
      w[17] + 0x100 * w[35],
      w[18] + 0x100 * w[36] + 0x200 * w[37],
      w[19] + 0x100 * w[38] + 0x200 * w[39] + 0x400 * w[40],
      w[20] + 0x100 * w[41] + 0x200 * w[42] + 0x400 * w[43])
  }

  predicate FlagConstraints(w: Row) {
    && IsBit(w[29]) && IsBit(w[30]) && IsBit(w[31]) && IsBit(w[32])
    && Vanishes(w[29] + 2 * w[30] + 4 * w[31] + 8 * w[32] - w[4])
  }

  predicate SignConstraints(w: Row, m: Memory) {
    && SignBit(m[3], w[31], w[33], w[21])
    && SignBit(m[8], w[32], w[34], w[22])
    && w[23] < B16 && w[24] < B16 && w[25] < B16 && w[26] < B16
    && Xor(w[33], w[34], w[52])
    && IsZero(w[23], w[24], w[53], w[54])
    && AndNot(w[52], w[53], w[55])
    && IsZero(w[25], w[26], w[56], w[57])
    && AndNot(w[33], w[56], w[58])
  }

  /** Which registers and signs enter the multiplication relation. */
  predicate SelectionConstraints(w: Row, m: Memory) {
    && w[9] < B8 && w[10] < B8 && w[11] < B8 && w[12] < B8
    && w[13] < B8 && w[14] < B8 && w[15] < B8 && w[16] < B8
    && Choose(w[29], w[23], m[2], w[9] + B8 * w[10])
    && Choose(w[29], w[24], m[3], w[11] + B8 * w[12])
    && Choose(w[29], w[55], w[33], w[59])
    && Choose(w[29], w[25], 0, w[60])
    && Choose(w[29], w[26], 0, w[61])
    && And(w[29], w[58], w[62])
    && Choose(w[29], m[2], w[23], w[63])
    && Choose(w[29], m[3], w[24], w[64])
    && Choose(w[29], 0xffff * w[33], w[25], w[65])
    && Choose(w[29], 0xffff * w[33], w[26], w[66])
    && Vanishes(m[7] - w[13] - B8 * w[14])
    && Vanishes(m[8] - w[15] - B8 * w[16])
  }

  predicate CarryRanges(w: Row) {
    && w[17] < B8 && w[18] < B8 && w[19] < B8 && w[20] < B8
    && IsBit(w[35]) && IsBit(w[36]) && IsBit(w[37]) && IsBit(w[38]) && IsBit(w[39])
    && IsBit(w[40]) && IsBit(w[41]) && IsBit(w[42]) && IsBit(w[43])
  }

  predicate ChainConstraints(w: Row) {
    CarryRanges(w) && FieldChain(Op1(w), Op2(w), Additive(w), Product(w), RowCarries(w))
  }

  /** Division by zero yields all ones; otherwise the remainder is smaller than the divisor. */
  predicate TrapConstraints(w: Row, m: Memory) {
    && IsZero(m[7], m[8], w[69], w[70])
    && And(w[29], w[69], w[71])
    && Vanishes(w[71] * (w[23] - 0xffff))
    && Vanishes(w[71] * (w[24] - 0xffff))
    && Xor(w[34], w[58], w[72])
    && AddSub(w[72], w[25], w[26], m[7], m[8], w[27], w[28], w[44], w[45])
    && Xor(w[72], w[45], w[73])
    && IsZero(w[27], w[28], w[74], w[75])
    && Nor(w[73], w[74], w[76])
    && Choose(w[58], w[76], w[73], w[77])
    && Vanishes((w[29] - w[71]) * (1 - w[77]))
  }

  predicate OutputConstraints(w: Row) {
    && Choose(w[30], w[23], w[25], w[67])
    && Choose(w[30], w[24], w[26], w[68])
  }

  datatype Group = Flags | Signs | Selection | Carrying | Traps | Output

  predicate Holds(g: Group, w: Row, m: Memory) {
    match g
    case Flags => FlagConstraints(w)
    case Signs => SignConstraints(w, m)
    case Selection => SelectionConstraints(w, m)
    case Carrying => ChainConstraints(w)
    case Traps => TrapConstraints(w, m)
    case Output => OutputConstraints(w)
  }

  ghost predicate Satisfied(w: Row, m: Memory) {
    forall g :: Holds(g, w, m)
  }

  // ---------------------------------------------------------------------------------------
  // Soundness, gadget by gadget

  /** The four flags are the bits of the mask. */
  lemma FlagsSound(w: Row, m: Memory, op: Op)
    requires Satisfied(w, m) && w[4] == OpMask(op)
    ensures w[29] == Bit(op.IsDivision()) && w[30] == Bit(op.FirstWord())
    ensures w[31] == Bit(op.SignedLeft()) && w[32] == Bit(op.SignedRight())
  {
    assert Holds(Flags, w, m);
    VanishesExactly(w[29] + 2 * w[30] + 4 * w[31] + 8 * w[32] - w[4]);
  }

  /** The sign slots hold the signs of the operands, of the quotient and of the remainder. */
  lemma SignsSound(w: Row, m: Memory, op: Op)
    requires OperandsInRange(m) && Satisfied(w, m)
    requires w[31] == Bit(op.SignedLeft()) && w[32] == Bit(op.SignedRight())
    ensures w[23] < B16 && w[24] < B16 && w[25] < B16 && w[26] < B16
    ensures IsBit(w[33]) && Operand(Rs1(m), op.SignedLeft()) == Rs1(m) - B32 * w[33]
    ensures w[33] == Bit(Operand(Rs1(m), op.SignedLeft()) < 0)
    ensures IsBit(w[34]) && Operand(Rs2(m), op.SignedRight()) == Rs2(m) - B32 * w[34]
    ensures w[34] == Bit(Operand(Rs2(m), op.SignedRight()) < 0)
    ensures w[55] == Bit(w[33] != w[34] && Word(w[23], w[24]) != 0)
    ensures w[58] == Bit(w[33] == 1 && Word(w[25], w[26]) != 0)
  {
    assert Holds(Signs, w, m);
    SignBitMeans(m[3], w[31], w[33], w[21]);
    SignBitMeans(m[8], w[32], w[34], w[22]);
    IsZeroMeans(w[23], w[24], w[53], w[54]);
    IsZeroMeans(w[25], w[26], w[56], w[57]);
    BooleanGadgetsMean(w[33], w[34], w[52]);
    BooleanGadgetsMean(w[52], w[53], w[55]);
    BooleanGadgetsMean(w[33], w[56], w[58]);
  }

  /** The chain establishes the relation modulo 2^64. */
  lemma ChainConstraintsSound(w: Row, m: Memory)
    requires Satisfied(w, m)
    requires Op1(w).Valid() && Op2(w).Valid() && Additive(w).Valid() && Product(w).Valid()
    ensures (Op1(w).Value() * Op2(w).Value() + Additive(w).Value() - Product(w).Value()) % B64 == 0
  {
    assert Holds(Carrying, w, m);
    FieldChainExact(Op1(w), Op2(w), Additive(w), Product(w), RowCarries(w));
    ChainSound(Op1(w), Op2(w), Additive(w), Product(w), RowCarries(w));
  }

  /** Multiplication: rs1 * rs2 + 0 against the two result words. */
  lemma SelectionForProduct(w: Row, m: Memory)
    requires OperandsInRange(m) && Satisfied(w, m)
    requires w[23] < B16 && w[24] < B16 && w[25] < B16 && w[26] < B16
    requires w[29] == 0 && IsBit(w[33]) && IsBit(w[34]) && IsBit(w[55]) && IsBit(w[58])
    ensures Op1(w).Valid() && Op1(w).Value() == Rs1(m) - B32 * w[33]
    ensures Op2(w).Valid() && Op2(w).Value() == Rs2(m) - B32 * w[34]
    ensures Additive(w) == Addend(0, 0, 0)
    ensures Product(w) == Limbs(w[23], w[24], w[25], w[26]) && Product(w).Valid()
  {
    SelectionSound(w, m);
  }

  /** Division: quotient * rs2 + remainder against the sign-extended dividend. */
  lemma SelectionForDivision(w: Row, m: Memory)
    requires OperandsInRange(m) && Satisfied(w, m)
    requires w[23] < B16 && w[24] < B16 && w[25] < B16 && w[26] < B16
    requires w[29] == 1 && IsBit(w[33]) && IsBit(w[34]) && IsBit(w[55]) && IsBit(w[58])
    ensures Op1(w).Valid() && Op1(w).Value() == Word(w[23], w[24]) - B32 * w[55]
    ensures Op2(w).Valid() && Op2(w).Value() == Rs2(m) - B32 * w[34]
    ensures Additive(w) == Addend(w[25], w[26], w[58]) && Additive(w).Valid()
    ensures Product(w).Valid() && Product(w).Value() == Rs1(m) + (B64 - B32) * w[33]
  {
    SelectionSound(w, m);
  }

  lemma SelectionSound(w: Row, m: Memory)
    requires OperandsInRange(m) && Satisfied(w, m)
    requires w[23] < B16 && w[24] < B16 && w[25] < B16 && w[26] < B16
    requires IsBit(w[29]) && IsBit(w[33]) && IsBit(w[34]) && IsBit(w[55]) && IsBit(w[58])
    ensures w[9] + B8 * w[10] == (if w[29] == 1 then w[23] else m[2])
    ensures w[11] + B8 * w[12] == (if w[29] == 1 then w[24] else m[3])
    ensures w[59] == (if w[29] == 1 then w[55] else w[33])
    ensures w[60] == (if w[29] == 1 then w[25] else 0) && w[61] == (if w[29] == 1 then w[26] else 0)
    ensures w[62] == (if w[29] == 1 then w[58] else 0)
    ensures w[63] == (if w[29] == 1 then m[2] else w[23]) && w[64] == (if w[29] == 1 then m[3] else w[24])
    ensures w[65] == (if w[29] == 1 then 0xffff * w[33] else w[25])
    ensures w[66] == (if w[29] == 1 then 0xffff * w[33] else w[26])
    ensures w[9] < B8 && w[10] < B8 && w[11] < B8 && w[12] < B8
    ensures w[13] < B8 && w[14] < B8 && w[15] < B8 && w[16] < B8
    ensures m[7] == w[13] + B8 * w[14] && m[8] == w[15] + B8 * w[16]
  {
    assert Holds(Selection, w, m);
    ChooseMeans(w[29], w[23], m[2], w[9] + B8 * w[10]);
    ChooseMeans(w[29], w[24], m[3], w[11] + B8 * w[12]);
    ChooseMeans(w[29], w[55], w[33], w[59]);
    ChooseMeans(w[29], w[25], 0, w[60]);
    ChooseMeans(w[29], w[26], 0, w[61]);
    BooleanGadgetsMean(w[29], w[58], w[62]);
    ChooseMeans(w[29], m[2], w[23], w[63]);
    ChooseMeans(w[29], m[3], w[24], w[64]);
    ChooseMeans(w[29], 0xffff * w[33], w[25], w[65]);
    ChooseMeans(w[29], 0xffff * w[33], w[26], w[66]);
    VanishesExactly(m[7] - w[13] - B8 * w[14]);
    VanishesExactly(m[8] - w[15] - B8 * w[16]);
  }

  /** Slot 77 compares the sizes of remainder and divisor, whatever their signs. */
  lemma RemainderBoundSound(w: Row, m: Memory)
    requires OperandsInRange(m) && Satisfied(w, m)
    requires w[25] < B16 && w[26] < B16
    requires IsBit(w[34]) && IsBit(w[58]) && Rs2(m) != 0
    requires w[58] == 1 ==> Word(w[25], w[26]) != 0
    ensures w[77] == Bit(Abs(Word(w[25], w[26]) - B32 * w[58]) < Abs(Rs2(m) - B32 * w[34]))
  {
    assert Holds(Traps, w, m);
    BooleanGadgetsMean(w[34], w[58], w[72]);
    AddSubMeans(w[72], w[25], w[26], m[7], m[8], w[27], w[28], w[44], w[45]);
    BooleanGadgetsMean(w[72], w[45], w[73]);
    IsZeroMeans(w[27], w[28], w[74], w[75]);
    BooleanGadgetsMean(w[73], w[74], w[76]);
    ChooseMeans(w[58], w[76], w[73], w[77]);
    MagnitudesCompared(Word(w[25], w[26]), w[58], Rs2(m), w[34], Word(w[27], w[28]), w[45]);
  }

  /** In a division, a zero divisor forces the quotient to all ones and any other divisor forces
      the bound on the remainder. */
  lemma TrapsSound(w: Row, m: Memory)
    requires OperandsInRange(m) && Satisfied(w, m) && w[29] == 1
    requires Rs2(m) != 0 ==> IsBit(w[77])
    ensures Rs2(m) != 0 ==> w[77] == 1
    ensures Rs2(m) == 0 ==> w[23] == 0xffff && w[24] == 0xffff
  {
    assert Holds(Traps, w, m);
    IsZeroMeans(m[7], m[8], w[69], w[70]);
    BooleanGadgetsMean(w[29], w[69], w[71]);
    if Rs2(m) == 0 {
      VanishesExactly(w[23] - 0xffff);
      VanishesExactly(w[24] - 0xffff);
    } else {
      assert (w[29] - w[71]) * (1 - w[77]) == 1 - w[77];
    }
  }

  /** One addition or subtraction decides |r| < |y|, read through the four sign combinations. */
  lemma MagnitudesCompared(r: u32, sr: int, y: u32, sy: int, c: u32, overflow: int)
    requires IsBit(sr) && IsBit(sy) && IsBit(overflow) && y != 0 && (sr == 1 ==> r != 0)
    requires sr != sy ==> r + y == c + B32 * overflow
    requires sr == sy ==> r - y == c - B32 * overflow
    ensures var differs := sr != sy; var condition := differs != (overflow == 1);
      (if sr == 1 then !condition && c != 0 else condition) == (Abs(r - B32 * sr) < Abs(y - B32 * sy))
  {
  }

  // ---------------------------------------------------------------------------------------
  // Soundness of the whole circuit

  lemma ProductDetermined(x: int, y: int, m: Limbs, a: int, b: int)
    requires m.Valid() && (x * y + 0 - m.Value()) % B64 == 0 && x == a && y == b
    ensures Word(m.l0, m.l1) == Wrap32(a * b)
    ensures Word(m.l2, m.l3) == Wrap32(a * b / B32)
  {
    ProductWords(x * y, m.Value(), Word(m.l0, m.l1), Word(m.l2, m.l3));
  }

  lemma ProductWords(p: int, v: int, low: u32, high: u32)
    requires v == low + B32 * high && (p - v) % B64 == 0
    ensures low == Wrap32(p) && high == Wrap32(p / B32)
  {
    var k := (p - v) / B64;
    assert p == low + B32 * (high + B32 * k);
    assert p / B32 == high + B32 * k;
  }

  /** The congruence modulo 2^64 is an equality: with the remainder bound, the two sides differ
      by less than 2^64, though only just (by at most 2^64 - 2 for unsigned operands). */
  lemma DivisionExact(q: int, y: int, r: int, a: int, s: int)
    requires (q * y + r - (a + B64 * s)) % B64 == 0
    requires Abs(q) < B32 && Abs(y) < B32 && Abs(r) < Abs(y) && Abs(a) < B32
    ensures a == y * q + r
  {
    MonotoneProduct(Abs(q), Abs(y), B32 - 1);
    AbsOfProduct(q, y);
    NearMultiple(q * y + r - a, s);
  }

  lemma MonotoneProduct(c: nat, d: nat, n: nat)
    requires c <= n && d <= n
    ensures c * d <= n * n
  {
    assert c * d <= n * d;
    assert n * d <= n * n;
  }

  lemma AbsOfProduct(a: int, b: int)
    ensures Abs(a * b) == Abs(a) * Abs(b)
  {
  }

  lemma NearMultiple(x: int, s: int)
    requires (x - B64 * s) % B64 == 0 && Abs(x) < B64
    ensures x == 0
  {
  }

  lemma DivisionByZero(q: int, y: int, r: int, a: int, s: int)
    requires (q * y + r - (a + B64 * s)) % B64 == 0 && y == 0
    requires Abs(r) < B32 && Abs(a) < B32
    ensures r == a
  {
    assert q * y == 0;
    NearMultiple(r - a, s);
  }

  /** The congruence vq * vy + vr == vx (mod 2^64), read back as the words it was built from. */
  lemma DivisionPinned(vq: int, vy: int, vr: int, vx: int,
                       q: u32, sq: int, r: u32, sr: int, x: u32, sx: int, y: u32, sy: int, a: int, b: int)
    requires a == x - B32 * sx && b == y - B32 * sy
    requires (vq * vy + vr - vx) % B64 == 0
    requires vq == q - B32 * sq && vy == y - B32 * sy && vr == r - B32 * sr && vx == x + (B64 - B32) * sx
    requires IsBit(sx) && IsBit(sy)
    requires (sy == 1 ==> y >= 0x8000_0000) && (sx == 1 ==> x >= 0x8000_0000)
    requires sq == Bit(sx != sy && q != 0) && sr == Bit(sx == 1 && r != 0)
    requires y != 0 ==> Abs(r - B32 * sr) < Abs(y - B32 * sy)
    requires y == 0 ==> q == B32 - 1
    ensures q == (if b == 0 then B32 - 1 else Wrap32(Quotient(a, b)))
    ensures r == (if b == 0 then x else Wrap32(Remainder(a, b)))
  {
    if y == 0 {
      DivisionByZero(vq, vy, vr, a, sx);
    } else {
      DivisionByNonzero(vq, vy, vr, a, sx);
      WrapOfSigned(q, sq);
      WrapOfSigned(r, sr);
    }
  }

  lemma DivisionByNonzero(q: int, y: int, r: int, a: int, s: int)
    requires (q * y + r - (a + B64 * s)) % B64 == 0 && y != 0
    requires Abs(q) < B32 && Abs(y) < B32 && Abs(r) < Abs(y) && Abs(a) < B32
    requires r == 0 || (r < 0) == (a < 0)
    ensures q == Quotient(a, y) && r == Remainder(a, y)
  {
    DivisionExact(q, y, r, a, s);
    TruncatedDivisionUnique(a, y, q, r);
  }

  lemma WrapOfSigned(x: u32, s: int)
    requires IsBit(s)
    ensures x == Wrap32(x - B32 * s)
  {
  }

  /** Any row satisfying the constraints holds the result of the instruction: for every
      operation, every pair of operands, and every choice of the hints. */
  lemma CircuitSound(w: Row, m: Memory, op: Op)
    requires OperandsInRange(m) && w[4] == OpMask(op) && Satisfied(w, m)
    ensures w[67] < B16 && w[68] < B16
    ensures Word(w[67], w[68]) == Result(op, Rs1(m), Rs2(m))
  {
    FlagsSound(w, m, op);
    SignsSound(w, m, op);
    OutputSound(w, m);
    if op.IsDivision() {
      DivisionSound(w, m, op);
    } else {
      MultiplicationSound(w, m, op);
    }
  }

  lemma OutputSound(w: Row, m: Memory)
    requires Satisfied(w, m) && IsBit(w[30])
    ensures w[67] == (if w[30] == 1 then w[23] else w[25])
    ensures w[68] == (if w[30] == 1 then w[24] else w[26])
  {
    assert Holds(Output, w, m);
    ChooseMeans(w[30], w[23], w[25], w[67]);
    ChooseMeans(w[30], w[24], w[26], w[68]);
  }

  lemma MultiplicationSound(w: Row, m: Memory, op: Op)
    requires OperandsInRange(m) && w[4] == OpMask(op) && Satisfied(w, m) && !op.IsDivision()
    ensures w[23] < B16 && w[24] < B16 && w[25] < B16 && w[26] < B16
    ensures var p := Operand(Rs1(m), op.SignedLeft()) * Operand(Rs2(m), op.SignedRight());
      Word(w[23], w[24]) == Wrap32(p) && Word(w[25], w[26]) == Wrap32(p / B32)
  {
    FlagsSound(w, m, op);
    SignsSound(w, m, op);
    SelectionForProduct(w, m);
    ChainConstraintsSound(w, m);
    ProductDetermined(Op1(w).Value(), Op2(w).Value(), Product(w),
      Operand(Rs1(m), op.SignedLeft()), Operand(Rs2(m), op.SignedRight()));
  }

  lemma DivisionSound(w: Row, m: Memory, op: Op)
    requires OperandsInRange(m) && w[4] == OpMask(op) && Satisfied(w, m) && op.IsDivision()
    ensures w[23] < B16 && w[24] < B16 && w[25] < B16 && w[26] < B16
    ensures var a, b := Operand(Rs1(m), op.SignedLeft()), Operand(Rs2(m), op.SignedRight());
      && Word(w[23], w[24]) == (if b == 0 then B32 - 1 else Wrap32(Quotient(a, b)))
      && Word(w[25], w[26]) == (if b == 0 then Rs1(m) else Wrap32(Remainder(a, b)))
  {
    FlagsSound(w, m, op);
    SignsSound(w, m, op);
    if Rs2(m) != 0 { RemainderBoundSound(w, m); }
    TrapsSound(w, m);
    var vq, vy, vr, vx := DivisionCongruence(w, m);
    DivisionPinned(vq, vy, vr, vx,
      Word(w[23], w[24]), w[55], Word(w[25], w[26]), w[58], Rs1(m), w[33], Rs2(m), w[34],
      Operand(Rs1(m), op.SignedLeft()), Operand(Rs2(m), op.SignedRight()));
  }

  lemma DivisionCongruence(w: Row, m: Memory) returns (vq: int, vy: int, vr: int, vx: int)
    requires OperandsInRange(m) && Satisfied(w, m) && w[29] == 1
    requires w[23] < B16 && w[24] < B16 && w[25] < B16 && w[26] < B16
    requires IsBit(w[33]) && IsBit(w[34]) && IsBit(w[55]) && IsBit(w[58])
    ensures (vq * vy + vr - vx) % B64 == 0
    ensures vq == Word(w[23], w[24]) - B32 * w[55] && vy == Rs2(m) - B32 * w[34]
    ensures vr == Word(w[25], w[26]) - B32 * w[58] && vx == Rs1(m) + (B64 - B32) * w[33]
  {
    SelectionForDivision(w, m);
    ChainConstraintsSound(w, m);
    vq, vy, vr, vx := Op1(w).Value(), Op2(w).Value(), Additive(w).Value(), Product(w).Value();
  }
}
