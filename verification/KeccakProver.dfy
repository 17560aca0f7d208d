/** The row the generator writes: from the control and the words read, every flag, output, temporary,
    table number and lookup; it satisfies all constraints. */
module KeccakProver {
  import opened BitStrings
  import opened KeccakF
  import opened KeccakSchedule
  import opened KeccakDatapath
  import opened KeccakBinop
  import opened KeccakControl
  import opened KeccakRouting
  import opened KeccakCircuit
  import M = Mersenne31

  function Number(b: Bitstring): nat {
    if |b| == 0 then 0 else Weight(b[0]) + 2 * Number(b[1..])
  }

  lemma {:induction false} NumberBits(b: Bitstring)
    ensures Number(b) < Power(|b|) && Bits(Number(b), |b|) == b
  {
    if |b| > 0 {
      NumberBits(b[1..]);
      assert [b[0]] + b[1..] == b;
    }
  }

  function LimbAt(a: Lane, j: nat): (n: nat)
    requires j < 4
    ensures n < 0x1_0000
  {
    NumberBits(LimbOf(a, j));
    SmallPowers();
    Number(LimbOf(a, j))
  }

  function QuadFrom(a: Lane): (q: Quad)
    ensures q.InRange()
  {
    Quad(LimbAt(a, 0), LimbAt(a, 1), LimbAt(a, 2), LimbAt(a, 3))
  }

  lemma QuadHoldsLane(a: Lane)
    ensures LaneOf(QuadFrom(a)) == a
  {
    NumberBits(LimbOf(a, 0));
    NumberBits(LimbOf(a, 1));
    NumberBits(LimbOf(a, 2));
    NumberBits(LimbOf(a, 3));
    assert a == LimbOf(a, 0) + LimbOf(a, 1) + LimbOf(a, 2) + LimbOf(a, 3);
  }

  /** The intermediate words of a mode; a mode that needs fewer leaves zeros. */
  function Temporaries(mode: nat, w: Six, first: Lane): (t: seq<Lane>)
    requires mode < 7
    ensures |t| == 3
  {
    match mode
    case 0 => [Xor(first, w.w1), Xor(Xor(first, w.w1), w.w2), Xor(Xor(Xor(first, w.w1), w.w2), w.w3)]
    case 1 => [RotL(w.w2, 1), RotL(w.w4, 1), Zero()]
    case 2 => [RotL(w.w1, 1), RotL(w.w3, 1), Zero()]
    case 5 => [AndNot(w.w1, w.w2), AndNot(w.w2, w.w3), Zero()]
    case 6 => [AndNot(w.w2, w.w0), AndNot(w.w0, w.w4), Zero()]
    case _ => [Zero(), Zero(), Zero()]
  }

  predicate SixInRange(x: seq<Quad>) {
    |x| == 6 && forall k :: 0 <= k < 6 ==> x[k].InRange()
  }

  function LanesOf(x: seq<Quad>): Six
    requires SixInRange(x)
  {
    Six(LaneOf(x[0]), LaneOf(x[1]), LaneOf(x[2]), LaneOf(x[3]), LaneOf(x[4]), LaneOf(x[5]))
  }

  function QuadsFrom(s: Six): (q: seq<Quad>)
    ensures SixInRange(q)
  {
    [QuadFrom(s.w0), QuadFrom(s.w1), QuadFrom(s.w2), QuadFrom(s.w3), QuadFrom(s.w4), QuadFrom(s.w5)]
  }

  function KeyQuad(round: nat): (q: Quad)
    requires round <= ROUNDS
    ensures q.InRange()
  {
    Quad(KeyLimb(round, 0), KeyLimb(round, 1), KeyLimb(round, 2), KeyLimb(round, 3))
  }

  predicate RegistersInRange(r: Registers) {
    && SixInRange(r.x) && SixInRange(r.z) && |r.t| == 3 && r.t[0].InRange() && r.t[1].InRange() && r.t[2].InRange()
    && r.keys.InRange()
  }

  lemma InRangeValid(r: Registers)
    requires RegistersInRange(r)
    ensures r.Valid()
  {
  }

  function RegistersFrom(c: Control, x: seq<Quad>, out: Six, t: seq<Lane>): (r: Registers)
    requires c.Valid() && SixInRange(x) && |t| == 3
    ensures RegistersInRange(r)
  {
    KeyRoundConstant(c);
    Registers(x, QuadsFrom(out), [QuadFrom(t[0]), QuadFrom(t[1]), QuadFrom(t[2])], KeyQuad(KeyRound(c)))
  }

  function GeneratedRegisters(c: Control, x: seq<Quad>): (r: Registers)
    requires c.Valid() && SixInRange(x)
    ensures RegistersInRange(r) && r.Valid()
  {
    var out := Outputs(c, LanesOf(x));
    var r := RegistersFrom(c, x, out, Temporaries(c.mode, LanesOf(x), out.w0));
    InRangeValid(r);
    r
  }

  /** The eight bytes of a word. */
  function EightBytes(q: Quad): (s: seq<int>)
    ensures |s| == 8
  {
    [q.l0 % 0x100, q.l0 / 0x100, q.l1 % 0x100, q.l1 / 0x100, q.l2 % 0x100, q.l2 / 0x100, q.l3 % 0x100, q.l3 / 0x100]
  }

  function ByteBankOf(o: Operands): (bank: Bank)
    ensures bank.Valid()
  {
    Bank(EightBytes(o.in1), EightBytes(o.in2), EightBytes(o.out))
  }

  /** Four keys with what leaves each limb and what stays; the other four triples are zeros. */
  function TurnBankOf(n: nat, q: Quad): (bank: Bank)
    requires q.InRange()
    ensures bank.Valid()
  {
    var t := TurnsOf(q.Limbs(), n % 16);
    Bank(
      [t.a0, t.a1, t.a2, t.a3, 0, 0, 0, 0], [t.b0, t.b1, t.b2, t.b3, 0, 0, 0, 0],
      [t.c0, t.c1, t.c2, t.c3, 0, 0, 0, 0])
  }

  function BankOf(i: nat, c: Control, o: Operands): (bank: Bank)
    requires i < 5 && c.Valid() && o.in1.InRange()
    ensures bank.Valid()
  {
    if KindOf(i, c.mode).Turn? then TurnBankOf(TurnBy(i, c), o.in1) else ByteBankOf(o)
  }

  // An operation that computes what it should fills its bank with triples of its table.

  lemma BytesAgree(q: Quad)
    requires q.InRange()
    ensures ByteQuad(EightBytes(q), q)
  {
    Recomposed(q.l0);
    Recomposed(q.l1);
    Recomposed(q.l2);
    Recomposed(q.l3);
  }

  lemma ByteColumnsFilled(o: Operands)
    requires o.in1.InRange() && o.in2.InRange() && o.out.InRange()
    ensures var bank := ByteBankOf(o);
      ByteLimb(bank, o, 0) && ByteLimb(bank, o, 1) && ByteLimb(bank, o, 2) && ByteLimb(bank, o, 3)
  {
    BytesAgree(o.in1);
    BytesAgree(o.in2);
    BytesAgree(o.out);
  }

  lemma EightInTable(t: Table, bank: Bank, k: Columns, x: Limbs4, y: Limbs4, z: Limbs4)
    requires bank.Valid() && k == ColumnsOf(bank) && BytesRouted(t, k, x, y, z)
    ensures ByteBank(t, bank)
  {
    assert LimbRouted(t, k.k0, x.l0, y.l0, z.l0) && LimbRouted(t, k.k1, x.l1, y.l1, z.l1);
    assert LimbRouted(t, k.k2, x.l2, y.l2, z.l2) && LimbRouted(t, k.k3, x.l3, y.l3, z.l3);
  }

  lemma ByteOperationComplete(t: Table, o: Operands)
    requires o.in1.InRange() && o.in2.InRange() && o.out.InRange()
    requires LaneOf(o.out) == Operation(t, LaneOf(o.in1), LaneOf(o.in2))
    ensures ByteBank(t, ByteBankOf(o))
  {
    var x, y, z := o.in1.Limbs(), o.in2.Limbs(), o.out.Limbs();
    BytesComplete(t, x, y, z);
    EightInTable(t, ByteBankOf(o), ByteColumns(x, y, z), x, y, z);
  }

  lemma KeyBytes(round: nat, j: nat)
    requires round <= 24 && j < 4
    ensures KeyLimb(round, j) % 0x100 == round + 64 * j && KeyLimb(round, j) / 0x100 == round + 64 * j + 32
  {
    assert KeyLimb(round, j) == round + 64 * j + 0x100 * (round + 64 * j + 32);
  }

  lemma EightInIotaTable(round: nat, bank: Bank, k: Columns, x: Limbs4, z: Limbs4)
    requires bank.Valid() && k == ColumnsOf(bank) && IotaRouted(round, k, x, z)
    ensures IotaBank(bank)
  {
    assert IotaLimbRouted(round, 0, k.k0, x.l0, z.l0) && IotaLimbRouted(round, 1, k.k1, x.l1, z.l1);
    assert IotaLimbRouted(round, 2, k.k2, x.l2, z.l2) && IotaLimbRouted(round, 3, k.k3, x.l3, z.l3);
  }

  lemma IotaOperationComplete(round: nat, o: Operands)
    requires round <= ROUNDS && o.in1.InRange() && o.in2 == KeyQuad(round) && o.out.InRange()
    requires LaneOf(o.out) == Xor(LaneOf(o.in1), DelayedConstant(round))
    ensures IotaBank(ByteBankOf(o))
  {
    var x, z := o.in1.Limbs(), o.out.Limbs();
    IotaComplete(round, x, z);
    KeyBytes(round, 0);
    KeyBytes(round, 1);
    KeyBytes(round, 2);
    KeyBytes(round, 3);
    EightInIotaTable(round, ByteBankOf(o), IotaColumns(round, x, z), x, z);
  }

  /** The unused triples of a rotation are in its table: zero rotated by zero. */
  lemma ZeroInRotationTable()
    ensures InRotationTable(0, 0, 0)
  {
    forall width: nat | LimbWide(width)
      ensures Bits(0, width) == Shr(Bits(0, width), 16) && Bits(0, width) == Shl(Bits(0, width), 0)
    {
      NoBits(width);
    }
  }

  lemma TurnBankComplete(n: nat, q: Quad)
    requires n < 64 && q.InRange()
    ensures TurnBank(TurnBankOf(n, q))
  {
    KeysComplete(q.Limbs(), n % 16);
    ZeroInRotationTable();
  }

  lemma TurnOperationComplete(n: nat, o: Operands)
    requires n < 64 && o.in1.InRange() && o.in2 == NO_QUAD && o.out.InRange()
    requires LaneOf(o.out) == RotL(LaneOf(o.in1), n)
    ensures TurnBank(TurnBankOf(n, o.in1)) && TurnQuad(n, TurnBankOf(n, o.in1), o)
  {
    TurnBankComplete(n, o.in1);
    RotationComplete(n, o.in1.Limbs(), o.out.Limbs());
    TurnColumnsFilled(n, TurnBankOf(n, o.in1), o, TurnsOf(o.in1.Limbs(), n % 16));
  }

  lemma TurnColumnsFilled(n: nat, bank: Bank, o: Operands, t: Turns)
    requires n < 64 && o.in1.InRange() && o.in2 == NO_QUAD && o.out.InRange() && bank.Valid() && TurnsIn(bank) == t
    requires KeysRouted(n % 16, t, o.in1.Limbs()) && SumsRouted(n / 16, t, o.out.Limbs())
    ensures TurnQuad(n, bank, o)
  {
    ChunksAreSums(n / 16, bank);
  }

  lemma OperationComplete(i: nat, c: Control, o: Operands)
    requires i < 5 && c.Valid() && Computes(i, c, o) && o.in2.InRange()
    requires KindOf(i, c.mode).Turn? ==> o.in2 == NO_QUAD
    requires KindOf(i, c.mode).Iota? ==> KeyRound(c) <= ROUNDS && o.in2 == KeyQuad(KeyRound(c))
    ensures OperationHolds(i, c, BankOf(i, c, o), o)
  {
    match KindOf(i, c.mode) {
      case Turn => TurnOperationComplete(TurnBy(i, c), o);
      case Iota =>
        KeyRoundConstant(c);
        IotaOperationComplete(KeyRound(c), o);
        ByteColumnsFilled(o);
      case ExclusiveOr =>
        ByteOperationComplete(XorTable, o);
        ByteColumnsFilled(o);
      case AndComplement =>
        ByteOperationComplete(AndNotTable, o);
        ByteColumnsFilled(o);
    }
  }

  // ---------------------------------------------------------------------------------------
  // The generated registers compute what every mode should

  /** The registers hold these lanes. */
  ghost predicate Holds(r: Registers, w: Six, out: Six, t: seq<Lane>)
    requires |t| == 3
  {
    && RegistersInRange(r) && LanesOf(r.x) == w && LanesOf(r.z) == out
    && LaneOf(r.t[0]) == t[0] && LaneOf(r.t[1]) == t[1] && LaneOf(r.t[2]) == t[2]
  }

  lemma QuadsHoldLanes(s: Six)
    ensures LanesOf(QuadsFrom(s)) == s
  {
    QuadHoldsLane(s.w0);
    QuadHoldsLane(s.w1);
    QuadHoldsLane(s.w2);
    QuadHoldsLane(s.w3);
    QuadHoldsLane(s.w4);
    QuadHoldsLane(s.w5);
  }

  lemma RegistersHold(c: Control, x: seq<Quad>, out: Six, t: seq<Lane>)
    requires c.Valid() && SixInRange(x) && |t| == 3
    ensures Holds(RegistersFrom(c, x, out, t), LanesOf(x), out, t)
  {
    QuadsHoldLanes(out);
    QuadHoldsLane(t[0]);
    QuadHoldsLane(t[1]);
    QuadHoldsLane(t[2]);
  }

  /** Registers that hold the outputs and the temporaries of a mode. */
  ghost predicate Generated(c: Control, r: Registers)
    requires c.Valid()
  {
    && r.Valid() && SixInRange(r.x)
    && var w := LanesOf(r.x); var out := Outputs(c, w); Holds(r, w, out, Temporaries(c.mode, w, out.w0))
  }

  lemma FiveCompute(c: Control, r: Registers)
    requires c.Valid() && r.Valid()
    requires Computes(0, c, FirstOperands(c.mode, r)) && Computes(1, c, SecondOperands(c.mode, r))
    requires Computes(2, c, ThirdOperands(c.mode, r)) && Computes(3, c, FourthOperands(c.mode, r))
    requires Computes(4, c, FifthOperands(c.mode, r))
    ensures AllCompute(c, r)
  {
    forall i: nat | i < 5
      ensures Computes(i, c, OperandsOf(i, c.mode, r))
    {
      if i == 0 {} else if i == 1 {} else if i == 2 {} else if i == 3 {} else { assert i == 4; }
    }
  }

  lemma IotaComputes(c: Control, r: Registers)
    requires c.Valid() && c.mode == 0 && Generated(c, r)
    ensures AllCompute(c, r)
  {
    FiveCompute(c, r);
  }

  lemma Mix1Computes(c: Control, r: Registers)
    requires c.Valid() && c.mode == 1 && Generated(c, r)
    ensures AllCompute(c, r)
  {
    FiveCompute(c, r);
  }

  lemma Mix2Computes(c: Control, r: Registers)
    requires c.Valid() && c.mode == 2 && Generated(c, r)
    ensures AllCompute(c, r)
  {
    FiveCompute(c, r);
  }

  lemma ThetaComputes(c: Control, r: Registers)
    requires c.Valid() && c.mode == 3 && Generated(c, r)
    ensures AllCompute(c, r)
  {
    FiveCompute(c, r);
  }

  lemma RhoComputes(c: Control, r: Registers)
    requires c.Valid() && c.mode == 4 && Generated(c, r)
    ensures AllCompute(c, r)
  {
    RotationsAgree(c.iteration);
    FiveCompute(c, r);
  }

  lemma Chi1Computes(c: Control, r: Registers)
    requires c.Valid() && c.mode == 5 && Generated(c, r)
    ensures AllCompute(c, r)
  {
    FiveCompute(c, r);
  }

  lemma Chi2Computes(c: Control, r: Registers)
    requires c.Valid() && c.mode == 6 && Generated(c, r)
    ensures AllCompute(c, r)
  {
    FiveCompute(c, r);
  }

  lemma ModeComputes(c: Control, r: Registers)
    requires c.Valid() && Generated(c, r)
    ensures AllCompute(c, r)
  {
    match c.mode
    case 0 => IotaComputes(c, r);
    case 1 => Mix1Computes(c, r);
    case 2 => Mix2Computes(c, r);
    case 3 => ThetaComputes(c, r);
    case 4 => RhoComputes(c, r);
    case 5 => Chi1Computes(c, r);
    case _ => Chi2Computes(c, r);
  }

  function SixAt(s: Six, k: nat): Lane
    requires k < 6
  {
    if k == 0 then s.w0 else if k == 1 then s.w1 else if k == 2 then s.w2 else if k == 3 then s.w3
    else if k == 4 then s.w4 else s.w5
  }

  /** The words a mode copies are outputs it leaves unchanged. */
  lemma CopiesUnchanged(c: Control, w: Six, n: nat)
    requires c.Valid() && n < |Copies(c.mode)|
    ensures SixAt(Outputs(c, w), Copies(c.mode)[n].1) == SixAt(w, Copies(c.mode)[n].0)
  {
  }

  lemma CopyMade(r: Registers, out: Six, k: nat, n: nat)
    requires RegistersInRange(r) && LanesOf(r.z) == out && k < 6 && n < 6
    requires SixAt(out, n) == SixAt(LanesOf(r.x), k)
    ensures r.z[n] == r.x[k]
  {
    SixLane(r.z, n);
    SixLane(r.x, k);
    QuadsEqual(r.z[n], r.x[k]);
  }

  lemma SixLane(x: seq<Quad>, k: nat)
    requires SixInRange(x) && k < 6
    ensures x[k].InRange() && SixAt(LanesOf(x), k) == LaneOf(x[k])
  {
  }

  lemma CopiesMade(c: Control, r: Registers)
    requires c.Valid() && Generated(c, r)
    ensures Copied(c.mode, r)
  {
    forall n | 0 <= n < |Copies(c.mode)|
      ensures r.z[Copies(c.mode)[n].1] == r.x[Copies(c.mode)[n].0]
    {
      var p := Copies(c.mode)[n];
      CopiesUnchanged(c, LanesOf(r.x), n);
      CopyMade(r, Outputs(c, LanesOf(r.x)), p.0, p.1);
    }
  }

  lemma CopyComplete(f: Flags, c: Control, r: Registers)
    requires Selects(f, c) && r.Valid() && Copied(c.mode, r)
    ensures CopyConstraints(f, r)
  {
    forall k, n | 0 <= k < 7 && 0 <= n < |Copies(k)|
      ensures CopyConstraint(BitOf(f.mode[k]), r.x[Copies(k)[n].0], r.z[Copies(k)[n].1])
    {
      MaskedCopy(BitOf(f.mode[k]), r.x[Copies(k)[n].0], r.z[Copies(k)[n].1]);
    }
  }

  lemma MaskedCopy(flag: int, x: Quad, z: Quad)
    requires flag == 0 || x == z
    ensures CopyConstraint(flag, x, z)
  {
  }

  // ---------------------------------------------------------------------------------------
  // The whole row

  function FlagsFor(c: Control): (f: Flags)
    ensures f.Valid()
  {
    Flags(
      seq(7, k requires 0 <= k < 7 => c.mode == k), seq(5, k requires 0 <= k < 5 => c.iteration == k),
      Bits(c.round, 5))
  }

  lemma FlagsSelect(c: Control)
    requires c.Valid()
    ensures Selects(FlagsFor(c), c) && RoundSum(FlagsFor(c)) == c.round
  {
    FiveBits(c.round);
  }

  function RhoFlagsFor(c: Control): (s: seq<int>)
    ensures |s| == 5
  {
    seq(5, k requires 0 <= k < 5 => BitOf(c.mode == RHO && c.iteration == k))
  }

  lemma OperandsInRange(i: nat, mode: nat, r: Registers)
    requires i < 5 && mode < 7 && RegistersInRange(r) && r.Valid()
    ensures var o := OperandsOf(i, mode, r); o.in1.InRange() && o.in2.InRange() && o.out.InRange()
  {
  }

  /** Rotations have no second operand; the operation that adds a constant takes its keys there. */
  lemma SecondOperandFits(i: nat, mode: nat, r: Registers)
    requires i < 5 && mode < 7 && r.Valid()
    ensures KindOf(i, mode).Turn? ==> OperandsOf(i, mode, r).in2 == NO_QUAD
    ensures KindOf(i, mode).Iota? ==> OperandsOf(i, mode, r).in2 == r.keys
  {
  }

  /** The bank of operation i. */
  function BankFor(i: nat, c: Control, r: Registers): (bank: Bank)
    requires i < 5 && c.Valid() && RegistersInRange(r) && r.Valid()
    ensures bank.Valid()
  {
    OperandsInRange(i, c.mode, r);
    BankOf(i, c, OperandsOf(i, c.mode, r))
  }

  function GeneratedIds(c: Control): (s: seq<int>)
    requires c.Valid()
    ensures |s| == 5
  {
    seq(5, i requires 0 <= i < 5 => TableId(KindOf(i, c.mode)))
  }

  function GeneratedBanks(c: Control, r: Registers): (s: seq<Bank>)
    requires c.Valid() && RegistersInRange(r) && r.Valid()
    ensures |s| == 5
  {
    seq(5, i requires 0 <= i < 5 => BankFor(i, c, r))
  }

  /** Flags, registers, table numbers and forty triples. */
  function GeneratedRow(c: Control, x: seq<Quad>): Row
    requires c.Valid() && SixInRange(x)
  {
    var r := GeneratedRegisters(c, x);
    Row(c.Pack(), Bump(c).Pack(), FlagsFor(c), RhoFlagsFor(c), KeyRound(c), r, GeneratedIds(c), GeneratedBanks(c, r))
  }

  lemma BankHolds(i: nat, c: Control, r: Registers)
    requires i < 5 && c.Valid() && Generated(c, r) && RegistersInRange(r) && r.keys == KeyQuad(KeyRound(c))
    requires KeyRound(c) <= ROUNDS
    ensures OperationHolds(i, c, BankFor(i, c, r), OperandsOf(i, c.mode, r))
  {
    ModeComputes(c, r);
    OperandsInRange(i, c.mode, r);
    SecondOperandFits(i, c.mode, r);
    OperationComplete(i, c, OperandsOf(i, c.mode, r));
  }

  lemma RhoFlagsFlag(f: Flags, rho: seq<int>, c: Control)
    requires Selects(f, c) && |rho| == 5
    requires forall k :: 0 <= k < 5 ==> rho[k] == BitOf(c.mode == RHO && c.iteration == k)
    ensures RhoFlagged(f, rho)
  {
    forall k | 0 <= k < 5
      ensures 0 <= rho[k] < M.P && M.Vanishes(BitOf(f.mode[RHO]) * BitOf(f.iteration[k]) - rho[k])
    {
      FlagProduct(f.mode[RHO], f.iteration[k]);
      assert BitOf(f.mode[RHO]) * BitOf(f.iteration[k]) - rho[k] == 0;
    }
  }

  lemma FlagProduct(a: bool, b: bool)
    ensures BitOf(a) * BitOf(b) == BitOf(a && b)
  {
  }

  lemma FlagsForGenerated(c: Control)
    requires c.Valid()
    ensures var f := FlagsFor(c); var rho := RhoFlagsFor(c); Selects(f, c) && RhoFlagged(f, rho) && FlagsOf(f, rho, c)
  {
    var f, rho := FlagsFor(c), RhoFlagsFor(c);
    FlagsSelect(c);
    RhoFlagsFlag(f, rho, c);
    RhoFlagsDetermined(f, rho, c);
  }

  lemma ControlKeysComplete(c: Control)
    requires c.Valid() && KeyRound(c) <= ROUNDS
    ensures KeysFormed(FlagsFor(c), KeyRound(c), KeyQuad(KeyRound(c)))
  {
    FlagsSelect(c);
    assert RoundSum(FlagsFor(c)) * BitOf(FlagsFor(c).iteration[0]) == KeyRound(c);
  }

  lemma OperationsComplete(f: Flags, rho: seq<int>, c: Control, r: Registers)
    requires c.Valid() && FlagsOf(f, rho, c) && Generated(c, r) && RegistersInRange(r)
    requires KeyRound(c) <= ROUNDS && r.keys == KeyQuad(KeyRound(c))
    ensures forall i: nat :: i < 5 ==> OperationConstraints(i, f, rho, GeneratedIds(c)[i], GeneratedBanks(c, r)[i], r)
  {
    forall i: nat | i < 5
      ensures OperationConstraints(i, f, rho, GeneratedIds(c)[i], GeneratedBanks(c, r)[i], r)
    {
      BankHolds(i, c, r);
      OperationCollapses(i, f, rho, TableId(KindOf(i, c.mode)), BankFor(i, c, r), r, c);
    }
  }

  lemma RegistersGenerated(c: Control, x: seq<Quad>, r: Registers)
    requires c.Valid() && SixInRange(x) && r == GeneratedRegisters(c, x)
    ensures Generated(c, r) && r.x == x && KeyRound(c) <= ROUNDS && r.keys == KeyQuad(KeyRound(c))
  {
    KeyRoundConstant(c);
    var out := Outputs(c, LanesOf(x));
    RegistersHold(c, x, out, Temporaries(c.mode, LanesOf(x), out.w0));
  }

  /** For every valid control and all words read, the row of the generator satisfies every
      constraint: in particular its forty triples, the unused ones included, are in the tables the
      flags select. */
  lemma RowComplete(c: Control, x: seq<Quad>)
    requires c.Valid() && SixInRange(x)
    ensures var w := GeneratedRow(c, x); Satisfied(w) && Unpack(w.control) == c && w.r.x == x
  {
    var r := GeneratedRegisters(c, x);
    RegistersGenerated(c, x, r);
    UnpackPack(c);
    FlagsSelect(c);
    FlagsForGenerated(c);
    ControlComplete(FlagsFor(c), c);
    NextControlComplete(FlagsFor(c), c);
    PackInRange(c);
    ControlKeysComplete(c);
    OperationsComplete(FlagsFor(c), RhoFlagsFor(c), c, r);
    CopiesMade(c, r);
    CopyComplete(FlagsFor(c), c, r);
  }

  lemma PackInRange(c: Control)
    requires c.Valid()
    ensures 0 <= c.Pack() < 0x1_0000 && 0 <= Bump(c).Pack() < 0x1_0000
  {
  }
}
