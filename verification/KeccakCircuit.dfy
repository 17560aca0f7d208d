/** A Keccak row that executes: whatever the prover puts in the flags, the tables, the banks and the
    temporaries, the words written back are those of the control's call, and the control moves on. */
module KeccakCircuit {
  import opened KeccakF
  import opened KeccakSchedule
  import opened KeccakDatapath
  import opened KeccakBinop
  import opened KeccakControl
  import opened KeccakRouting
  import M = Mersenne31

  /** A register word, the flags, and the five operations with their tables and banks. */
  datatype Row = Row(control: int, next: int, f: Flags, rho: seq<int>, index: int, r: Registers,
                     ids: seq<int>, banks: seq<Bank>)

  /** All constraints of an executing row.  The control register is range-checked to 16 bits;
      the next one is any field element. */
  ghost predicate Satisfied(w: Row) {
    && w.f.Valid() && w.r.Valid() && |w.rho| == 5 && |w.ids| == 5 && |w.banks| == 5
    && 0 <= w.control < 0x1_0000 && 0 <= w.next < M.P
    && ControlDecoded(w.f, w.control) && ControlAdvanced(w.f, w.next)
    && RhoFlagged(w.f, w.rho) && KeysFormed(w.f, w.index, w.r.keys)
    && (forall i: nat :: i < 5 ==> OperationConstraints(i, w.f, w.rho, w.ids[i], w.banks[i], w.r))
    && CopyConstraints(w.f, w.r)
  }

  ghost predicate InputsInRange(r: Registers) {
    r.Valid() && forall k :: 0 <= k < 6 ==> r.x[k].InRange()
  }

  ghost predicate OutputsInRange(r: Registers) {
    r.Valid() && forall k :: 0 <= k < 6 ==> r.z[k].InRange()
  }

  function LaneOf(q: Quad): Lane
    requires q.InRange()
  {
    q.Limbs().Lane()
  }

  function Inputs(r: Registers): Six
    requires InputsInRange(r)
  {
    Six(LaneOf(r.x[0]), LaneOf(r.x[1]), LaneOf(r.x[2]), LaneOf(r.x[3]), LaneOf(r.x[4]), LaneOf(r.x[5]))
  }

  function Written(r: Registers): Six
    requires OutputsInRange(r)
  {
    Six(LaneOf(r.z[0]), LaneOf(r.z[1]), LaneOf(r.z[2]), LaneOf(r.z[3]), LaneOf(r.z[4]), LaneOf(r.z[5]))
  }

  // ---------------------------------------------------------------------------------------
  // One operation

  function ColumnsOf(bank: Bank): Columns
    requires bank.Valid()
  {
    var a, b, c := bank.a, bank.b, bank.c;
    Columns(
      Lookups(a[0], a[1], b[0], b[1], c[0], c[1]), Lookups(a[2], a[3], b[2], b[3], c[2], c[3]),
      Lookups(a[4], a[5], b[4], b[5], c[4], c[5]), Lookups(a[6], a[7], b[6], b[7], c[6], c[7]))
  }

  function TurnsIn(bank: Bank): Turns
    requires bank.Valid()
  {
    var a, b, c := bank.a, bank.b, bank.c;
    Turns(a[0], a[1], a[2], a[3], b[0], b[1], b[2], b[3], c[0], c[1], c[2], c[3])
  }

  /** A field element made of two bytes is a limb. */
  lemma TwoBytes(low: int, high: int, v: int)
    requires 0 <= low < 0x100 && 0 <= high < 0x100 && 0 <= v < M.P && Agree(low + 0x100 * high, v)
    ensures 0 <= v < 0x1_0000
  {
    M.VanishesExactly(low + 0x100 * high - v);
  }

  predicate BytesIn(s: seq<int>) {
    |s| == 8 && forall k :: 0 <= k < 8 ==> 0 <= s[k] < 0x100
  }

  predicate ByteQuad(s: seq<int>, q: Quad)
    requires |s| == 8
  {
    && Agree(s[0] + 0x100 * s[1], q.l0) && Agree(s[2] + 0x100 * s[3], q.l1)
    && Agree(s[4] + 0x100 * s[5], q.l2) && Agree(s[6] + 0x100 * s[7], q.l3)
  }

  lemma BytesInRange(s: seq<int>, q: Quad)
    requires BytesIn(s) && ByteQuad(s, q) && q.Canonical()
    ensures q.InRange()
  {
    TwoBytes(s[0], s[1], q.l0);
    TwoBytes(s[2], s[3], q.l1);
    TwoBytes(s[4], s[5], q.l2);
    TwoBytes(s[6], s[7], q.l3);
  }

  ghost predicate ByteBank(t: Table, bank: Bank) {
    bank.Valid() && forall k :: 0 <= k < 8 ==> InByteTable(t, bank.a[k], bank.b[k], bank.c[k])
  }

  lemma ByteBankInRange(t: Table, bank: Bank)
    requires ByteBank(t, bank)
    ensures BytesIn(bank.a) && BytesIn(bank.b) && BytesIn(bank.c)
  {
  }

  lemma LimbRoutes(t: Table, k: Lookups, x: Limb, y: Limb, z: Limb)
    requires InByteTable(t, k.a0, k.b0, k.c0) && InByteTable(t, k.a1, k.b1, k.c1)
    requires Agree(k.a0 + 0x100 * k.a1, x) && Agree(k.b0 + 0x100 * k.b1, y) && Agree(k.c0 + 0x100 * k.c1, z)
    ensures LimbRouted(t, k, x, y, z)
  {
  }

  lemma BankRoutes(t: Table, bank: Bank, x: Limbs4, y: Limbs4, z: Limbs4)
    requires ByteBank(t, bank)
    requires ByteQuad(bank.a, QuadOf(x)) && ByteQuad(bank.b, QuadOf(y)) && ByteQuad(bank.c, QuadOf(z))
    ensures BytesRouted(t, ColumnsOf(bank), x, y, z)
  {
    var k := ColumnsOf(bank);
    LimbRoutes(t, k.k0, x.l0, y.l0, z.l0);
    LimbRoutes(t, k.k1, x.l1, y.l1, z.l1);
    LimbRoutes(t, k.k2, x.l2, y.l2, z.l2);
    LimbRoutes(t, k.k3, x.l3, y.l3, z.l3);
  }

  lemma ByteOperationSound(t: Table, bank: Bank, o: Operands)
    requires ByteBank(t, bank) && ByteQuad(bank.a, o.in1) && ByteQuad(bank.b, o.in2) && ByteQuad(bank.c, o.out)
    requires o.in1.Canonical() && o.in2.Canonical() && o.out.Canonical()
    ensures o.in1.InRange() && o.in2.InRange() && o.out.InRange()
    ensures LaneOf(o.out) == Operation(t, LaneOf(o.in1), LaneOf(o.in2))
  {
    ByteBankInRange(t, bank);
    BytesInRange(bank.a, o.in1);
    BytesInRange(bank.b, o.in2);
    BytesInRange(bank.c, o.out);
    BankRoutes(t, bank, o.in1.Limbs(), o.in2.Limbs(), o.out.Limbs());
    BytesSound(t, ColumnsOf(bank), o.in1.Limbs(), o.in2.Limbs(), o.out.Limbs());
  }

  // The operation that adds a round constant.

  ghost predicate IotaBank(bank: Bank) {
    bank.Valid() && forall k :: 0 <= k < 8 ==> InIotaTable(bank.a[k], bank.b[k], bank.c[k])
  }

  lemma IotaBankInRange(bank: Bank)
    requires IotaBank(bank)
    ensures BytesIn(bank.a) && BytesIn(bank.b) && BytesIn(bank.c)
  {
  }

  predicate AreKeys(round: nat, q: Quad) {
    && Agree(IotaKeys(round, 0), q.l0) && Agree(IotaKeys(round, 1), q.l1)
    && Agree(IotaKeys(round, 2), q.l2) && Agree(IotaKeys(round, 3), q.l3)
  }

  lemma IotaLimbRoutes(round: nat, j: nat, k: Lookups, x: Limb, key: Limb, z: Limb)
    requires round <= 24 && j < 4 && InIotaTable(k.a0, k.b0, k.c0) && InIotaTable(k.a1, k.b1, k.c1)
    requires Agree(k.a0 + 0x100 * k.a1, x) && Agree(k.b0 + 0x100 * k.b1, key) && Agree(k.c0 + 0x100 * k.c1, z)
    requires Agree(IotaKeys(round, j), key)
    ensures IotaLimbRouted(round, j, k, x, z)
  {
    ThroughKey(k.b0 + 0x100 * k.b1, IotaKeys(round, j), key);
  }

  lemma ThroughKey(x: int, y: int, key: int)
    requires Agree(x, key) && Agree(y, key)
    ensures M.Vanishes(x - y)
  {
  }

  lemma IotaBankRoutes(round: nat, bank: Bank, x: Limbs4, keys: Limbs4, z: Limbs4)
    requires round <= 24 && IotaBank(bank) && AreKeys(round, QuadOf(keys))
    requires ByteQuad(bank.a, QuadOf(x)) && ByteQuad(bank.b, QuadOf(keys)) && ByteQuad(bank.c, QuadOf(z))
    ensures IotaRouted(round, ColumnsOf(bank), x, z)
  {
    var k := ColumnsOf(bank);
    IotaLimbRoutes(round, 0, k.k0, x.l0, keys.l0, z.l0);
    IotaLimbRoutes(round, 1, k.k1, x.l1, keys.l1, z.l1);
    IotaLimbRoutes(round, 2, k.k2, x.l2, keys.l2, z.l2);
    IotaLimbRoutes(round, 3, k.k3, x.l3, keys.l3, z.l3);
  }

  lemma IotaOperationSound(round: nat, bank: Bank, o: Operands)
    requires round <= ROUNDS && IotaBank(bank) && AreKeys(round, o.in2)
    requires ByteQuad(bank.a, o.in1) && ByteQuad(bank.b, o.in2) && ByteQuad(bank.c, o.out)
    requires o.in1.Canonical() && o.in2.Canonical() && o.out.Canonical()
    ensures o.in1.InRange() && o.out.InRange()
    ensures LaneOf(o.out) == Xor(LaneOf(o.in1), DelayedConstant(round))
  {
    IotaBankInRange(bank);
    BytesInRange(bank.a, o.in1);
    BytesInRange(bank.b, o.in2);
    BytesInRange(bank.c, o.out);
    IotaBankRoutes(round, bank, o.in1.Limbs(), o.in2.Limbs(), o.out.Limbs());
    IotaSound(round, ColumnsOf(bank), o.in1.Limbs(), o.out.Limbs());
  }

  // The operation that rotates: four of the eight triples carry it.

  ghost predicate TurnBank(bank: Bank) {
    bank.Valid() && forall k :: 0 <= k < 8 ==> InRotationTable(bank.a[k], bank.b[k], bank.c[k])
  }

  predicate TurnQuad(n: nat, bank: Bank, o: Operands)
    requires n < 64 && bank.Valid()
  {
    TurnLimb(n, bank, o, 0) && TurnLimb(n, bank, o, 1) && TurnLimb(n, bank, o, 2) && TurnLimb(n, bank, o, 3)
  }

  lemma TurnKeysRoute(n: nat, bank: Bank, o: Operands, x: Limbs4)
    requires n < 64 && TurnBank(bank) && TurnQuad(n, bank, o) && o.in1 == QuadOf(x)
    ensures KeysRouted(n % 16, TurnsIn(bank), x)
  {
    KeyRoutes(n % 16, bank.a[0], bank.b[0], bank.c[0], x.l0);
    KeyRoutes(n % 16, bank.a[1], bank.b[1], bank.c[1], x.l1);
    KeyRoutes(n % 16, bank.a[2], bank.b[2], bank.c[2], x.l2);
    KeyRoutes(n % 16, bank.a[3], bank.b[3], bank.c[3], x.l3);
  }

  lemma KeyRoutes(k: nat, key: int, left: int, right: int, x: Limb)
    requires InRotationTable(key, left, right) && Agree(key - 0x1_0000 * k, x)
    ensures KeyRouted(k, key, left, right, x)
  {
  }

  lemma SumInPlace(s: int, v: int)
    requires 0 <= s < 0x1_0000 && 0 <= v < M.P && Agree(s, v)
    ensures v == s
  {
    M.VanishesExactly(s - v);
  }

  /** The chunks of the bank are the limb sums, moved by whole limbs. */
  lemma ChunksAreSums(q: nat, bank: Bank)
    requires q < 4 && bank.Valid()
    ensures (Chunk(bank, (4 - q) % 4), Chunk(bank, (5 - q) % 4), Chunk(bank, (6 - q) % 4), Chunk(bank, (7 - q) % 4))
         == Moved(TurnSums(TurnsIn(bank)), q)
  {
  }

  lemma TurnOutput(n: nat, bank: Bank, o: Operands, s: (int, int, int, int))
    requires n < 64 && bank.Valid() && TurnQuad(n, bank, o) && o.out.Canonical()
    requires s == Moved(TurnSums(TurnsIn(bank)), n / 16)
    requires 0 <= s.0 < 0x1_0000 && 0 <= s.1 < 0x1_0000 && 0 <= s.2 < 0x1_0000 && 0 <= s.3 < 0x1_0000
    ensures (o.out.l0, o.out.l1, o.out.l2, o.out.l3) == s
  {
    ChunksAreSums(n / 16, bank);
    SumInPlace(s.0, o.out.l0);
    SumInPlace(s.1, o.out.l1);
    SumInPlace(s.2, o.out.l2);
    SumInPlace(s.3, o.out.l3);
  }

  lemma TurnOperationSound(n: nat, bank: Bank, o: Operands)
    requires n < 64 && TurnBank(bank) && TurnQuad(n, bank, o) && o.in1.InRange() && o.out.Canonical()
    ensures o.out.InRange() && LaneOf(o.out) == RotL(LaneOf(o.in1), n)
  {
    var x := o.in1.Limbs();
    var t := TurnsIn(bank);
    TurnKeysRoute(n, bank, o, x);
    TurnSumsInRange(n % 16, t, x);
    TurnOutput(n, bank, o, Moved(TurnSums(t), n / 16));
    SumsVanish(n / 16, t, o.out.Limbs());
    RotationSound(n, t, x, o.out.Limbs());
  }

  // ---------------------------------------------------------------------------------------
  // What an operation computes

  /** The meaning of operation i on its registers. */
  ghost predicate Computes(i: nat, c: Control, o: Operands)
    requires i < 5 && c.Valid()
  {
    && o.in1.InRange() && o.out.InRange()
    && match KindOf(i, c.mode)
       case Iota => LaneOf(o.out) == Xor(LaneOf(o.in1), ConstantOf(c))
       case Turn => LaneOf(o.out) == RotL(LaneOf(o.in1), TurnBy(i, c))
       case ExclusiveOr => o.in2.InRange() && LaneOf(o.out) == Xor(LaneOf(o.in1), LaneOf(o.in2))
       case AndComplement => o.in2.InRange() && LaneOf(o.out) == AndNot(LaneOf(o.in1), LaneOf(o.in2))
  }

  function KeyRound(c: Control): nat {
    if c.iteration == 0 then c.round else 0
  }

  /** The canonical forms a row guarantees, and what rotations and constants need. */
  ghost predicate OperandsReady(i: nat, c: Control, o: Operands)
    requires i < 5 && c.Valid()
  {
    && o.in1.Canonical() && o.in2.Canonical() && o.out.Canonical()
    && (KindOf(i, c.mode).Turn? ==> o.in1.InRange())
    && (KindOf(i, c.mode).Iota? ==> AreKeys(KeyRound(c), o.in2))
  }

  lemma KeyRoundConstant(c: Control)
    requires c.Valid()
    ensures KeyRound(c) <= ROUNDS && DelayedConstant(KeyRound(c)) == ConstantOf(c)
  {
  }

  lemma ByteColumnsMeet(i: nat, c: Control, bank: Bank, o: Operands)
    requires i < 5 && c.Valid() && bank.Valid() && ColumnsMeet(i, c, bank, o) && !KindOf(i, c.mode).Turn?
    ensures ByteQuad(bank.a, o.in1) && ByteQuad(bank.b, o.in2) && ByteQuad(bank.c, o.out)
  {
    assert ByteLimb(bank, o, 0) && ByteLimb(bank, o, 1) && ByteLimb(bank, o, 2) && ByteLimb(bank, o, 3);
  }

  lemma TurnColumnsMeet(i: nat, c: Control, bank: Bank, o: Operands)
    requires i < 5 && c.Valid() && bank.Valid() && ColumnsMeet(i, c, bank, o) && KindOf(i, c.mode).Turn?
    ensures TurnQuad(TurnBy(i, c), bank, o)
  {
  }

  lemma BankInTable(k: Kind, bank: Bank)
    requires bank.Valid() && AllInTable(TableId(k), bank)
    ensures match k
      case Iota => IotaBank(bank)
      case ExclusiveOr => ByteBank(XorTable, bank)
      case AndComplement => ByteBank(AndNotTable, bank)
      case Turn => TurnBank(bank)
  {
  }

  /** Triples of the table, columns that meet the operands: the operation is what its kind says. */
  lemma OperationSound(i: nat, c: Control, bank: Bank, o: Operands)
    requires i < 5 && c.Valid() && OperationHolds(i, c, bank, o) && OperandsReady(i, c, o)
    ensures Computes(i, c, o)
  {
    BankInTable(KindOf(i, c.mode), bank);
    if KindOf(i, c.mode).Turn? {
      TurnColumnsMeet(i, c, bank, o);
      TurnOperationSound(TurnBy(i, c), bank, o);
    } else {
      ByteColumnsMeet(i, c, bank, o);
      if KindOf(i, c.mode).Iota? {
        KeyRoundConstant(c);
        IotaOperationSound(KeyRound(c), bank, o);
      } else {
        ByteOperationSound(if KindOf(i, c.mode).ExclusiveOr? then XorTable else AndNotTable, bank, o);
      }
    }
  }

  // ---------------------------------------------------------------------------------------
  // What a row computes

  /** Every operation of the mode holds of its registers. */
  ghost predicate AllCompute(c: Control, r: Registers)
    requires c.Valid() && r.Valid()
  {
    forall i: nat :: i < 5 ==> Computes(i, c, OperandsOf(i, c.mode, r))
  }

  predicate Copied(mode: nat, r: Registers)
    requires mode < 7 && r.Valid()
  {
    forall n :: 0 <= n < |Copies(mode)| ==> r.z[Copies(mode)[n].1] == r.x[Copies(mode)[n].0]
  }

  lemma CopySound(x: Quad, z: Quad)
    requires CopyConstraint(1, x, z) && x.Canonical() && z.Canonical()
    ensures z == x
  {
    M.VanishesExactly(x.l0 - z.l0);
    M.VanishesExactly(x.l1 - z.l1);
    M.VanishesExactly(x.l2 - z.l2);
    M.VanishesExactly(x.l3 - z.l3);
  }

  lemma CopiesSound(f: Flags, r: Registers, c: Control)
    requires Selects(f, c) && r.Valid() && CopyConstraints(f, r)
    ensures Copied(c.mode, r)
  {
    forall n | 0 <= n < |Copies(c.mode)|
      ensures r.z[Copies(c.mode)[n].1] == r.x[Copies(c.mode)[n].0]
    {
      CopySound(r.x[Copies(c.mode)[n].0], r.z[Copies(c.mode)[n].1]);
    }
  }

  /** Flags, keys and the next register word are those of the control. */
  lemma ControlOfRow(w: Row, c: Control)
    requires Satisfied(w) && Unpack(w.control) == c && c.Valid()
    ensures FlagsOf(w.f, w.rho, c) && AreKeys(KeyRound(c), w.r.keys) && w.next == Bump(c).Pack()
  {
    ControlSound(w.f, w.control);
    RhoFlagsDetermined(w.f, w.rho, c);
    NextControlSound(w.f, c, w.next);
    KeysDetermined(w.f, w.index, w.r.keys, c);
  }

  lemma KeysDetermined(f: Flags, index: int, keys: Quad, c: Control)
    requires Selects(f, c) && RoundSum(f) == c.round && KeysFormed(f, index, keys)
    ensures AreKeys(KeyRound(c), keys)
  {
    assert RoundSum(f) * BitOf(f.iteration[0]) == KeyRound(c);
    M.VanishesExactly(RoundSum(f) * BitOf(f.iteration[0]) - index);
    KeyLimbs(index);
  }

  lemma KeyLimbs(index: nat)
    ensures KeyLimb(index, 0) == IotaKeys(index, 0) && KeyLimb(index, 1) == IotaKeys(index, 1)
    ensures KeyLimb(index, 2) == IotaKeys(index, 2) && KeyLimb(index, 3) == IotaKeys(index, 3)
  {
  }

  lemma ReadyOperands(i: nat, c: Control, r: Registers)
    requires i < 5 && c.Valid() && InputsInRange(r) && AreKeys(KeyRound(c), r.keys)
    ensures OperandsReady(i, c, OperandsOf(i, c.mode, r))
  {
  }

  lemma RowComputes(w: Row, c: Control)
    requires Satisfied(w) && InputsInRange(w.r) && c.Valid()
    requires FlagsOf(w.f, w.rho, c) && AreKeys(KeyRound(c), w.r.keys)
    ensures AllCompute(c, w.r) && Copied(c.mode, w.r)
  {
    forall i: nat | i < 5
      ensures Computes(i, c, OperandsOf(i, c.mode, w.r))
    {
      OperationCollapses(i, w.f, w.rho, w.ids[i], w.banks[i], w.r, c);
      ReadyOperands(i, c, w.r);
      OperationSound(i, c, w.banks[i], OperandsOf(i, c.mode, w.r));
    }
    CopiesSound(w.f, w.r, c);
  }

  ghost predicate Does(c: Control, r: Registers)
    requires c.Valid() && InputsInRange(r)
  {
    OutputsInRange(r) && Written(r) == Outputs(c, Inputs(r))
  }

  lemma FiveComputations(c: Control, r: Registers)
    requires c.Valid() && r.Valid() && AllCompute(c, r)
    ensures Computes(0, c, FirstOperands(c.mode, r)) && Computes(1, c, SecondOperands(c.mode, r))
    ensures Computes(2, c, ThirdOperands(c.mode, r)) && Computes(3, c, FourthOperands(c.mode, r))
    ensures Computes(4, c, FifthOperands(c.mode, r))
  {
    assert Computes(0, c, OperandsOf(0, c.mode, r)) && Computes(1, c, OperandsOf(1, c.mode, r));
    assert Computes(2, c, OperandsOf(2, c.mode, r)) && Computes(3, c, OperandsOf(3, c.mode, r));
    assert Computes(4, c, OperandsOf(4, c.mode, r));
  }

  lemma IotaDoes(c: Control, r: Registers)
    requires c.Valid() && c.mode == 0 && InputsInRange(r) && AllCompute(c, r) && Copied(c.mode, r)
    ensures Does(c, r)
  {
    FiveComputations(c, r);
    assert Copies(0)[0] == (1, 1) && Copies(0)[1] == (2, 2) && Copies(0)[2] == (3, 3) && Copies(0)[3] == (4, 4);
  }

  lemma Mix1Does(c: Control, r: Registers)
    requires c.Valid() && c.mode == 1 && InputsInRange(r) && AllCompute(c, r) && Copied(c.mode, r)
    ensures Does(c, r)
  {
    FiveComputations(c, r);
    assert Copies(1)[0] == (1, 1) && Copies(1)[1] == (3, 3) && Copies(1)[2] == (4, 4);
  }

  lemma Mix2Does(c: Control, r: Registers)
    requires c.Valid() && c.mode == 2 && InputsInRange(r) && AllCompute(c, r) && Copied(c.mode, r)
    ensures Does(c, r)
  {
    FiveComputations(c, r);
    assert Copies(2)[0] == (0, 0) && Copies(2)[1] == (2, 2) && Copies(2)[2] == (5, 5);
  }

  lemma ThetaDoes(c: Control, r: Registers)
    requires c.Valid() && c.mode == 3 && InputsInRange(r) && AllCompute(c, r) && Copied(c.mode, r)
    ensures Does(c, r)
  {
    FiveComputations(c, r);
    assert Copies(3)[0] == (5, 5);
  }

  lemma RhoDoes(c: Control, r: Registers)
    requires c.Valid() && c.mode == 4 && InputsInRange(r) && AllCompute(c, r) && Copied(c.mode, r)
    ensures Does(c, r)
  {
    FiveComputations(c, r);
    RotationsAgree(c.iteration);
    assert Copies(4)[0] == (5, 5);
  }

  lemma Chi1Does(c: Control, r: Registers)
    requires c.Valid() && c.mode == 5 && InputsInRange(r) && AllCompute(c, r) && Copied(c.mode, r)
    ensures Does(c, r)
  {
    FiveComputations(c, r);
    assert Copies(5)[0] == (0, 5) && Copies(5)[1] == (2, 2) && Copies(5)[2] == (3, 3);
  }

  lemma Chi2Does(c: Control, r: Registers)
    requires c.Valid() && c.mode == 6 && InputsInRange(r) && AllCompute(c, r) && Copied(c.mode, r)
    ensures Does(c, r)
  {
    FiveComputations(c, r);
    assert Copies(6)[0] == (3, 3) && Copies(6)[1] == (4, 4) && Copies(6)[2] == (5, 5);
  }

  lemma ModeDoes(c: Control, r: Registers)
    requires c.Valid() && InputsInRange(r) && AllCompute(c, r) && Copied(c.mode, r)
    ensures Does(c, r)
  {
    match c.mode
    case 0 => IotaDoes(c, r);
    case 1 => Mix1Does(c, r);
    case 2 => Mix2Does(c, r);
    case 3 => ThetaDoes(c, r);
    case 4 => RhoDoes(c, r);
    case 5 => Chi1Does(c, r);
    case _ => Chi2Does(c, r);
  }

  /** Whatever flags, tables, banks and temporaries satisfy the constraints of a row: the words it
      writes are limbs, they are the outputs of the call, and the next control is the bumped one. */
  lemma RowSound(w: Row, c: Control)
    requires Satisfied(w) && InputsInRange(w.r) && Unpack(w.control) == c && c.Valid()
    ensures OutputsInRange(w.r) && Written(w.r) == Outputs(c, Inputs(w.r)) && w.next == Bump(c).Pack()
  {
    ControlOfRow(w, c);
    RowComputes(w, c);
    ModeDoes(c, w.r);
  }

  /** A field element holds at most one lane. */
  lemma QuadsEqual(p: Quad, q: Quad)
    requires p.InRange() && q.InRange() && LaneOf(p) == LaneOf(q)
    ensures p == q
  {
    LaneInjective(p.Limbs(), q.Limbs());
  }

  lemma WordsDetermined(v: Registers, w: Registers)
    requires OutputsInRange(v) && OutputsInRange(w) && Written(v) == Written(w)
    ensures v.z == w.z
  {
    QuadsEqual(v.z[0], w.z[0]);
    QuadsEqual(v.z[1], w.z[1]);
    QuadsEqual(v.z[2], w.z[2]);
    QuadsEqual(v.z[3], w.z[3]);
    QuadsEqual(v.z[4], w.z[4]);
    QuadsEqual(v.z[5], w.z[5]);
  }

  /** Two provers cannot disagree: rows with the same control and the same words read write the same
      words, limb by limb. */
  lemma RowDetermined(v: Row, w: Row, c: Control)
    requires Satisfied(v) && Satisfied(w) && v.control == w.control && Unpack(v.control) == c && c.Valid()
    requires InputsInRange(v.r) && v.r.x == w.r.x
    ensures v.r.z == w.r.z && v.next == w.next
  {
    assert InputsInRange(w.r);
    RowSound(v, c);
    RowSound(w, c);
    WordsDetermined(v.r, w.r);
  }
}
