/** The five 64-bit operations of a Keccak row.  All seven modes share one bank of eight lookups per
    operation: sums weighted by the mode flags choose the table, and route the columns of the bank to
    the registers of the mode; sums weighted by the iteration flags choose the rotation. */
module KeccakRouting {
  import opened KeccakSchedule
  import opened KeccakDatapath
  import opened KeccakBinop
  import opened KeccakControl
  import M = Mersenne31

  // ---------------------------------------------------------------------------------------
  // Flag-weighted sums

  function Dot(flags: seq<int>, values: seq<int>): int
    requires |flags| == |values|
  {
    if |flags| == 0 then 0 else flags[0] * values[0] + Dot(flags[1..], values[1..])
  }

  /** Exactly flag m is set. */
  predicate OneHot(flags: seq<int>, m: int) {
    forall k :: 0 <= k < |flags| ==> flags[k] == if k == m then 1 else 0
  }

  lemma {:induction false} DotOneHot(flags: seq<int>, values: seq<int>, m: int)
    requires |flags| == |values| && OneHot(flags, m)
    ensures Dot(flags, values) == if 0 <= m < |values| then values[m] else 0
  {
    if |flags| > 0 {
      DotOneHot(flags[1..], values[1..], m - 1);
      assert flags[0] * values[0] == if m == 0 then values[0] else 0;
    }
  }

  // ---------------------------------------------------------------------------------------
  // What each mode does with its five operations

  datatype Kind = Iota | ExclusiveOr | AndComplement | Turn

  /** The numbers of the lookup tables. */
  function TableId(k: Kind): int {
    match k
    case Iota => 59
    case ExclusiveOr => 4
    case AndComplement => 60
    case Turn => 61
  }

  const KINDS_0: seq<Kind> := [Iota, Turn, Turn, ExclusiveOr, Turn, AndComplement, AndComplement]
  const KINDS_1: seq<Kind> := [ExclusiveOr, Turn, ExclusiveOr, ExclusiveOr, Turn, AndComplement, ExclusiveOr]
  const KINDS_2: seq<Kind> := [ExclusiveOr, ExclusiveOr, Turn, ExclusiveOr, Turn, ExclusiveOr, AndComplement]
  const KINDS_3: seq<Kind> := [ExclusiveOr, Turn, ExclusiveOr, ExclusiveOr, Turn, AndComplement, ExclusiveOr]
  const KINDS_4: seq<Kind> := [ExclusiveOr, ExclusiveOr, ExclusiveOr, ExclusiveOr, Turn, ExclusiveOr, ExclusiveOr]

  function KindOf(i: nat, mode: nat): Kind
    requires i < 5 && mode < 7
  {
    (if i == 0 then KINDS_0 else if i == 1 then KINDS_1 else if i == 2 then KINDS_2
     else if i == 3 then KINDS_3 else KINDS_4)[mode]
  }

  /** The rotations of operation i in the rho mode, by iteration; the column mixes rotate by one. */
  function Rotations(i: nat): (n: seq<nat>)
    requires i < 5
    ensures |n| == 5 && forall k :: 0 <= k < 5 ==> n[k] < 64
  {
    if i == 0 then ROTATIONS_0 else if i == 1 then ROTATIONS_1 else if i == 2 then ROTATIONS_2
    else if i == 3 then ROTATIONS_3 else ROTATIONS_4
  }

  function TurnBy(i: nat, c: Control): (n: nat)
    requires i < 5 && c.iteration < 5
    ensures n < 64
  {
    if c.mode == RHO then Rotations(i)[c.iteration] else 1
  }

  // ---------------------------------------------------------------------------------------
  // The row

  /** Four limbs as the row holds them: field elements, not known to be limbs. */
  datatype Quad = Quad(l0: int, l1: int, l2: int, l3: int) {
    predicate Canonical() {
      0 <= l0 < M.P && 0 <= l1 < M.P && 0 <= l2 < M.P && 0 <= l3 < M.P
    }
    predicate InRange() {
      0 <= l0 < 0x1_0000 && 0 <= l1 < 0x1_0000 && 0 <= l2 < 0x1_0000 && 0 <= l3 < 0x1_0000
    }
    function Limb(j: nat): int { if j == 0 then l0 else if j == 1 then l1 else if j == 2 then l2 else l3 }
    function Limbs(): Limbs4 requires InRange() { Limbs4(l0, l1, l2, l3) }
  }

  function QuadOf(x: Limbs4): (q: Quad)
    ensures q.InRange() && q.Canonical() && q.Limbs() == x
  {
    Quad(x.l0, x.l1, x.l2, x.l3)
  }

  const NO_QUAD := Quad(0, 0, 0, 0)

  /** Words read, words written, temporaries, and the keys of the round constant. */
  datatype Registers = Registers(x: seq<Quad>, z: seq<Quad>, t: seq<Quad>, keys: Quad) {
    predicate Valid() {
      && |x| == 6 && |z| == 6 && |t| == 3 && keys.Canonical()
      && (forall k :: 0 <= k < 6 ==> x[k].Canonical()) && (forall k :: 0 <= k < 6 ==> z[k].Canonical())
      && (forall k :: 0 <= k < 3 ==> t[k].Canonical())
    }
  }

  /** The registers of one operation; a rotation has no second operand. */
  datatype Operands = Operands(in1: Quad, in2: Quad, out: Quad)

  function FirstOperands(mode: nat, r: Registers): Operands
    requires mode < 7 && r.Valid()
  {
    match mode
    case 0 => Operands(r.x[0], r.keys, r.z[0])
    case 1 => Operands(r.x[0], NO_QUAD, r.z[5])
    case 2 => Operands(r.x[1], NO_QUAD, r.t[0])
    case 3 => Operands(r.x[0], r.x[5], r.z[0])
    case 4 => Operands(r.x[0], NO_QUAD, r.z[0])
    case 5 => Operands(r.x[0], r.x[1], r.z[4])
    case _ => Operands(r.x[2], r.x[0], r.t[0])
  }

  function SecondOperands(mode: nat, r: Registers): Operands
    requires mode < 7 && r.Valid()
  {
    match mode
    case 0 => Operands(r.z[0], r.x[1], r.t[0])
    case 1 => Operands(r.x[2], NO_QUAD, r.t[0])
    case 2 => Operands(r.x[4], r.t[0], r.z[4])
    case 3 => Operands(r.x[1], r.x[5], r.z[1])
    case 4 => Operands(r.x[1], NO_QUAD, r.z[1])
    case 5 => Operands(r.x[1], r.x[2], r.t[0])
    case _ => Operands(r.x[1], r.t[0], r.z[1])
  }

  function ThirdOperands(mode: nat, r: Registers): Operands
    requires mode < 7 && r.Valid()
  {
    match mode
    case 0 => Operands(r.t[0], r.x[2], r.t[1])
    case 1 => Operands(r.x[0], r.t[0], r.z[0])
    case 2 => Operands(r.x[3], NO_QUAD, r.t[1])
    case 3 => Operands(r.x[2], r.x[5], r.z[2])
    case 4 => Operands(r.x[2], NO_QUAD, r.z[2])
    case 5 => Operands(r.x[0], r.t[0], r.z[0])
    case _ => Operands(r.x[0], r.x[4], r.t[1])
  }

  function FourthOperands(mode: nat, r: Registers): Operands
    requires mode < 7 && r.Valid()
  {
    match mode
    case 0 => Operands(r.t[1], r.x[3], r.t[2])
    case 1 => Operands(r.x[4], NO_QUAD, r.t[1])
    case 2 => Operands(r.x[1], r.t[1], r.z[1])
    case 3 => Operands(r.x[3], r.x[5], r.z[3])
    case 4 => Operands(r.x[3], NO_QUAD, r.z[3])
    case 5 => Operands(r.x[2], r.x[3], r.t[1])
    case _ => Operands(r.x[2], r.t[1], r.z[2])
  }

  function FifthOperands(mode: nat, r: Registers): Operands
    requires mode < 7 && r.Valid()
  {
    match mode
    case 0 => Operands(r.t[2], r.x[4], r.z[5])
    case 1 => Operands(r.x[2], r.t[1], r.z[2])
    case 2 => Operands(r.x[3], r.x[5], r.z[3])
    case 3 => Operands(r.x[4], r.x[5], r.z[4])
    case 4 => Operands(r.x[4], NO_QUAD, r.z[4])
    case 5 => Operands(r.x[1], r.t[1], r.z[1])
    case _ => Operands(r.x[0], r.x[3], r.z[0])
  }

  function OperandsOf(i: nat, mode: nat, r: Registers): Operands
    requires i < 5 && mode < 7 && r.Valid()
  {
    if i == 0 then FirstOperands(mode, r) else if i == 1 then SecondOperands(mode, r)
    else if i == 2 then ThirdOperands(mode, r) else if i == 3 then FourthOperands(mode, r)
    else FifthOperands(mode, r)
  }

  /** Words a mode leaves alone: the position read, and where it is written. */
  function Copies(mode: nat): (p: seq<(nat, nat)>)
    requires mode < 7
    ensures forall k :: 0 <= k < |p| ==> p[k].0 < 6 && p[k].1 < 6
  {
    match mode
    case 0 => [(1, 1), (2, 2), (3, 3), (4, 4)]
    case 1 => [(1, 1), (3, 3), (4, 4)]
    case 2 => [(0, 0), (2, 2), (5, 5)]
    case 3 => [(5, 5)]
    case 4 => [(5, 5)]
    case 5 => [(0, 5), (2, 2), (3, 3)]
    case _ => [(3, 3), (4, 4), (5, 5)]
  }

  /** The lookups of one operation: eight triples. */
  datatype Bank = Bank(a: seq<int>, b: seq<int>, c: seq<int>) {
    predicate Valid() { |a| == 8 && |b| == 8 && |c| == 8 }
  }

  ghost predicate InTable(id: int, a: int, b: int, c: int) {
    if id == 4 then InByteTable(XorTable, a, b, c)
    else if id == 59 then InIotaTable(a, b, c)
    else if id == 60 then InByteTable(AndNotTable, a, b, c)
    else if id == 61 then InRotationTable(a, b, c)
    else a == 0 && b == 0 && c == 0
  }

  // ---------------------------------------------------------------------------------------
  // Constraints

  function ModeFlags(f: Flags): (s: seq<int>)
    requires f.Valid()
    ensures |s| == 7
  {
    seq(7, k requires 0 <= k < 7 => BitOf(f.mode[k]))
  }

  /** The table of an operation, by mode. */
  function TableSum(i: nat, f: Flags): int
    requires i < 5 && f.Valid()
  {
    Dot(ModeFlags(f), seq(7, k requires 0 <= k < 7 => TableId(KindOf(i, k))))
  }

  /** Rotation by one in a column mix, and by the iteration's amount in the rho mode: the flags
      summed, with the amounts modulo 16 and with the whole limbs of the amounts. */
  function MixTurns(i: nat, f: Flags): int
    requires i < 5 && f.Valid()
  {
    Dot(ModeFlags(f), seq(7, k requires 0 <= k < 7 => if k != RHO && KindOf(i, k).Turn? then 1 else 0))
  }

  function AmountSum(i: nat, f: Flags, rho: seq<int>): int
    requires i < 5 && f.Valid() && |rho| == 5
  {
    MixTurns(i, f) + Dot(rho, seq(5, k requires 0 <= k < 5 => Rotations(i)[k] % 16))
  }

  function LimbSum(i: nat, f: Flags, rho: seq<int>, q: nat): int
    requires i < 5 && f.Valid() && |rho| == 5
  {
    (if q == 0 then MixTurns(i, f) else 0)
    + Dot(rho, seq(5, k requires 0 <= k < 5 => if Rotations(i)[k] / 16 == q then 1 else 0))
  }

  function LimbSums(i: nat, f: Flags, rho: seq<int>): (int, int, int, int)
    requires i < 5 && f.Valid() && |rho| == 5
  {
    (LimbSum(i, f, rho, 0), LimbSum(i, f, rho, 1), LimbSum(i, f, rho, 2), LimbSum(i, f, rho, 3))
  }

  function TurnSum(i: nat, f: Flags, rho: seq<int>): int
    requires i < 5 && f.Valid() && |rho| == 5
  {
    var limbs := LimbSums(i, f, rho);
    limbs.0 + limbs.1 + limbs.2 + limbs.3
  }

  /** The flags of the iterations of rho. */
  predicate RhoFlagged(f: Flags, rho: seq<int>)
    requires f.Valid()
  {
    && |rho| == 5 && (forall k :: 0 <= k < 5 ==> 0 <= rho[k] < M.P)
    && (forall k :: 0 <= k < 5 ==> M.Vanishes(BitOf(f.mode[RHO]) * BitOf(f.iteration[k]) - rho[k]))
  }

  /** The keys of the round constant: the round in the first iteration, zero in the others. */
  predicate KeysFormed(f: Flags, index: int, keys: Quad)
    requires f.Valid()
  {
    && 0 <= index < M.P && M.Vanishes(RoundSum(f) * BitOf(f.iteration[0]) - index)
    && M.Vanishes(KeyLimb(index, 0) - keys.l0) && M.Vanishes(KeyLimb(index, 1) - keys.l1)
    && M.Vanishes(KeyLimb(index, 2) - keys.l2) && M.Vanishes(KeyLimb(index, 3) - keys.l3)
  }

  /** Two bytes of keys, 32 apart. */
  function KeyLimb(index: int, j: nat): int {
    (index + 0x20 * (2 * j)) + 0x100 * (index + 0x20 * (2 * j + 1))
  }

  // The three columns of a bank, read as bytes or as the parts of a rotation.

  function FirstColumn(bank: Bank, turn: int, amount: int, j: nat): int
    requires bank.Valid() && j < 4
  {
    (1 - turn) * (bank.a[2 * j] + 0x100 * bank.a[2 * j + 1]) + turn * (bank.a[j] - 0x1_0000 * amount)
  }

  function SecondColumn(bank: Bank, turn: int, j: nat): int
    requires bank.Valid() && j < 4
  {
    (1 - turn) * (bank.b[2 * j] + 0x100 * bank.b[2 * j + 1])
  }

  /** A limb shifted up, over what its lower neighbour lost. */
  function Chunk(bank: Bank, j: nat): int
    requires bank.Valid() && j < 4
  {
    bank.c[j] + bank.b[(j + 3) % 4]
  }

  function ThirdColumn(bank: Bank, turn: int, limbs: (int, int, int, int), j: nat): int
    requires bank.Valid() && j < 4
  {
    (1 - turn) * (bank.c[2 * j] + 0x100 * bank.c[2 * j + 1])
    + limbs.0 * Chunk(bank, j) + limbs.1 * Chunk(bank, (j + 3) % 4)
    + limbs.2 * Chunk(bank, (j + 2) % 4) + limbs.3 * Chunk(bank, (j + 1) % 4)
  }

  predicate Agree(x: int, y: int) { M.Vanishes(x - y) }

  predicate LimbsRouted(i: nat, f: Flags, rho: seq<int>, bank: Bank, r: Registers, j: nat)
    requires i < 5 && f.Valid() && |rho| == 5 && bank.Valid() && r.Valid() && j < 4
  {
    var turn := TurnSum(i, f, rho);
    && Agree(FirstColumn(bank, turn, AmountSum(i, f, rho), j),
             Dot(ModeFlags(f), seq(7, k requires 0 <= k < 7 => OperandsOf(i, k, r).in1.Limb(j))))
    && Agree(SecondColumn(bank, turn, j),
             Dot(ModeFlags(f), seq(7, k requires 0 <= k < 7 => OperandsOf(i, k, r).in2.Limb(j))))
    && Agree(ThirdColumn(bank, turn, LimbSums(i, f, rho), j),
             Dot(ModeFlags(f), seq(7, k requires 0 <= k < 7 => OperandsOf(i, k, r).out.Limb(j))))
  }

  /** Among the modes, an operation rotates exactly when one of its rotation flags is set. */
  predicate TurnsCounted(i: nat, f: Flags, rho: seq<int>)
    requires i < 5 && f.Valid() && |rho| == 5
  {
    M.Vanishes(Dot(ModeFlags(f), seq(7, k requires 0 <= k < 7 => if KindOf(i, k).Turn? then 1 else 0))
               - (MixTurns(i, f) + Dot(rho, [1, 1, 1, 1, 1])))
  }

  predicate TableRouted(i: nat, f: Flags, id: int)
    requires i < 5 && f.Valid()
  {
    0 <= id < M.P && M.Vanishes(TableSum(i, f) - id)
  }

  ghost predicate AllInTable(id: int, bank: Bank)
    requires bank.Valid()
  {
    forall k :: 0 <= k < 8 ==> InTable(id, bank.a[k], bank.b[k], bank.c[k])
  }

  predicate ColumnsRouted(i: nat, f: Flags, rho: seq<int>, bank: Bank, r: Registers)
    requires i < 5 && f.Valid() && |rho| == 5 && bank.Valid() && r.Valid()
  {
    && LimbsRouted(i, f, rho, bank, r, 0) && LimbsRouted(i, f, rho, bank, r, 1)
    && LimbsRouted(i, f, rho, bank, r, 2) && LimbsRouted(i, f, rho, bank, r, 3)
  }

  /** One operation: its eight triples are in the table the flags choose, and its columns meet the
      registers the flags choose. */
  ghost predicate OperationConstraints(i: nat, f: Flags, rho: seq<int>, id: int, bank: Bank, r: Registers)
    requires i < 5 && f.Valid() && |rho| == 5 && r.Valid()
  {
    && bank.Valid() && TurnsCounted(i, f, rho) && TableRouted(i, f, id)
    && AllInTable(id, bank) && ColumnsRouted(i, f, rho, bank, r)
  }

  predicate CopyConstraint(flag: int, x: Quad, z: Quad) {
    && M.Vanishes(flag * (x.l0 - z.l0)) && M.Vanishes(flag * (x.l1 - z.l1))
    && M.Vanishes(flag * (x.l2 - z.l2)) && M.Vanishes(flag * (x.l3 - z.l3))
  }

  predicate CopyConstraints(f: Flags, r: Registers)
    requires f.Valid() && r.Valid()
  {
    forall k, n :: 0 <= k < 7 && 0 <= n < |Copies(k)| ==>
      CopyConstraint(BitOf(f.mode[k]), r.x[Copies(k)[n].0], r.z[Copies(k)[n].1])
  }

  // ---------------------------------------------------------------------------------------
  // One-hot flags collapse the sums to the registers, the table and the rotation of the mode

  ghost predicate FlagsOf(f: Flags, rho: seq<int>, c: Control) {
    && Selects(f, c) && |rho| == 5 && OneHot(rho, if c.mode == RHO then c.iteration else -1)
  }

  lemma ModeFlagsOneHot(f: Flags, c: Control)
    requires Selects(f, c)
    ensures OneHot(ModeFlags(f), c.mode)
  {
  }

  lemma RhoFlagsDetermined(f: Flags, rho: seq<int>, c: Control)
    requires Selects(f, c) && RhoFlagged(f, rho)
    ensures FlagsOf(f, rho, c)
  {
    forall k | 0 <= k < 5
      ensures rho[k] == if k == (if c.mode == RHO then c.iteration else -1) then 1 else 0
    {
      M.VanishesExactly(BitOf(f.mode[RHO]) * BitOf(f.iteration[k]) - rho[k]);
    }
  }

  lemma TableCollapses(i: nat, f: Flags, c: Control)
    requires i < 5 && Selects(f, c)
    ensures TableSum(i, f) == TableId(KindOf(i, c.mode))
  {
    ModeFlagsOneHot(f, c);
    DotOneHot(ModeFlags(f), seq(7, k requires 0 <= k < 7 => TableId(KindOf(i, k))), c.mode);
  }

  lemma TurnsCollapse(i: nat, f: Flags, rho: seq<int>, c: Control, q: nat)
    requires i < 5 && FlagsOf(f, rho, c) && q < 4
    ensures var turns := KindOf(i, c.mode).Turn?; var n := TurnBy(i, c);
      && AmountSum(i, f, rho) == (if turns then n % 16 else 0)
      && LimbSum(i, f, rho, q) == (if turns && n / 16 == q then 1 else 0)
  {
    ModeFlagsOneHot(f, c);
    DotOneHot(ModeFlags(f), seq(7, k requires 0 <= k < 7 => if k != RHO && KindOf(i, k).Turn? then 1 else 0), c.mode);
    var m := if c.mode == RHO then c.iteration else -1;
    DotOneHot(rho, seq(5, k requires 0 <= k < 5 => Rotations(i)[k] % 16), m);
    DotOneHot(rho, seq(5, k requires 0 <= k < 5 => if Rotations(i)[k] / 16 == q then 1 else 0), m);
    assert KindOf(i, RHO).Turn?;
  }

  lemma TurnsAreCounted(i: nat, f: Flags, rho: seq<int>, c: Control)
    requires i < 5 && FlagsOf(f, rho, c)
    ensures TurnsCounted(i, f, rho)
  {
    ModeFlagsOneHot(f, c);
    DotOneHot(ModeFlags(f), seq(7, k requires 0 <= k < 7 => if KindOf(i, k).Turn? then 1 else 0), c.mode);
    DotOneHot(ModeFlags(f), seq(7, k requires 0 <= k < 7 => if k != RHO && KindOf(i, k).Turn? then 1 else 0), c.mode);
    DotOneHot(rho, [1, 1, 1, 1, 1], if c.mode == RHO then c.iteration else -1);
    assert KindOf(i, RHO).Turn?;
  }

  /** One at the limb of the rotation, zero elsewhere. */
  function LimbAmount(turns: bool, q: nat): (int, int, int, int) {
    (BitOf(turns && q == 0), BitOf(turns && q == 1), BitOf(turns && q == 2), BitOf(turns && q == 3))
  }

  lemma TurnCollapses(i: nat, f: Flags, rho: seq<int>, c: Control, turns: bool, n: nat)
    requires i < 5 && FlagsOf(f, rho, c) && turns == KindOf(i, c.mode).Turn? && n == TurnBy(i, c)
    ensures TurnSum(i, f, rho) == BitOf(turns) && AmountSum(i, f, rho) == (if turns then n % 16 else 0)
    ensures LimbSums(i, f, rho) == LimbAmount(turns, n / 16)
  {
    TurnsCollapse(i, f, rho, c, 0);
    TurnsCollapse(i, f, rho, c, 1);
    TurnsCollapse(i, f, rho, c, 2);
    TurnsCollapse(i, f, rho, c, 3);
  }

  lemma RegistersCollapse(i: nat, f: Flags, r: Registers, c: Control, j: nat)
    requires i < 5 && Selects(f, c) && r.Valid() && j < 4
    ensures var o := OperandsOf(i, c.mode, r);
      && Dot(ModeFlags(f), seq(7, k requires 0 <= k < 7 => OperandsOf(i, k, r).in1.Limb(j))) == o.in1.Limb(j)
      && Dot(ModeFlags(f), seq(7, k requires 0 <= k < 7 => OperandsOf(i, k, r).in2.Limb(j))) == o.in2.Limb(j)
      && Dot(ModeFlags(f), seq(7, k requires 0 <= k < 7 => OperandsOf(i, k, r).out.Limb(j))) == o.out.Limb(j)
  {
    ModeFlagsOneHot(f, c);
    DotOneHot(ModeFlags(f), seq(7, k requires 0 <= k < 7 => OperandsOf(i, k, r).in1.Limb(j)), c.mode);
    DotOneHot(ModeFlags(f), seq(7, k requires 0 <= k < 7 => OperandsOf(i, k, r).in2.Limb(j)), c.mode);
    DotOneHot(ModeFlags(f), seq(7, k requires 0 <= k < 7 => OperandsOf(i, k, r).out.Limb(j)), c.mode);
  }

  // What is left for the operation of the mode.

  predicate ByteLimb(bank: Bank, o: Operands, j: nat)
    requires bank.Valid() && j < 4
  {
    && Agree(bank.a[2 * j] + 0x100 * bank.a[2 * j + 1], o.in1.Limb(j))
    && Agree(bank.b[2 * j] + 0x100 * bank.b[2 * j + 1], o.in2.Limb(j))
    && Agree(bank.c[2 * j] + 0x100 * bank.c[2 * j + 1], o.out.Limb(j))
  }

  predicate TurnLimb(n: nat, bank: Bank, o: Operands, j: nat)
    requires n < 64 && bank.Valid() && j < 4
  {
    && Agree(bank.a[j] - 0x1_0000 * (n % 16), o.in1.Limb(j)) && Agree(0, o.in2.Limb(j))
    && Agree(Chunk(bank, (j + 4 - n / 16) % 4), o.out.Limb(j))
  }

  lemma ByteColumnsCollapse(bank: Bank, j: nat, q: nat)
    requires bank.Valid() && j < 4
    ensures FirstColumn(bank, 0, 0, j) == bank.a[2 * j] + 0x100 * bank.a[2 * j + 1]
    ensures SecondColumn(bank, 0, j) == bank.b[2 * j] + 0x100 * bank.b[2 * j + 1]
    ensures ThirdColumn(bank, 0, LimbAmount(false, q), j) == bank.c[2 * j] + 0x100 * bank.c[2 * j + 1]
  {
  }

  lemma TurnColumnsCollapse(bank: Bank, j: nat, n: nat)
    requires bank.Valid() && j < 4 && n < 64
    ensures FirstColumn(bank, 1, n % 16, j) == bank.a[j] - 0x1_0000 * (n % 16)
    ensures SecondColumn(bank, 1, j) == 0
    ensures ThirdColumn(bank, 1, LimbAmount(true, n / 16), j) == Chunk(bank, (j + 4 - n / 16) % 4)
  {
    ChunkPicked(bank, j, n / 16);
  }

  lemma ChunkPicked(bank: Bank, j: nat, q: nat)
    requires bank.Valid() && j < 4 && q < 4
    ensures ThirdColumn(bank, 1, LimbAmount(true, q), j) == Chunk(bank, (j + 4 - q) % 4)
  {
    assert q == 0 ==> (j + 4 - q) % 4 == j;
  }

  predicate LimbMeets(i: nat, c: Control, bank: Bank, o: Operands, j: nat)
    requires i < 5 && c.mode < 7 && c.iteration < 5 && bank.Valid() && j < 4
  {
    if KindOf(i, c.mode).Turn? then TurnLimb(TurnBy(i, c), bank, o, j) else ByteLimb(bank, o, j)
  }

  /** The constraints on a limb are those of the active operation, and no more. */
  lemma LimbCollapses(i: nat, f: Flags, rho: seq<int>, bank: Bank, r: Registers, c: Control, j: nat, o: Operands)
    requires i < 5 && FlagsOf(f, rho, c) && bank.Valid() && r.Valid() && j < 4 && o == OperandsOf(i, c.mode, r)
    ensures LimbsRouted(i, f, rho, bank, r, j) <==> LimbMeets(i, c, bank, o, j)
  {
    RegistersCollapse(i, f, r, c, j);
    TurnCollapses(i, f, rho, c, KindOf(i, c.mode).Turn?, TurnBy(i, c));
    if KindOf(i, c.mode).Turn? {
      TurnColumnsCollapse(bank, j, TurnBy(i, c));
    } else {
      ByteColumnsCollapse(bank, j, TurnBy(i, c) / 16);
    }
  }

  lemma TableDetermined(i: nat, f: Flags, id: int, c: Control)
    requires i < 5 && Selects(f, c)
    ensures TableRouted(i, f, id) <==> id == TableId(KindOf(i, c.mode))
  {
    TableCollapses(i, f, c);
    SmallResidue(TableId(KindOf(i, c.mode)), id);
  }

  lemma SmallResidue(x: int, id: int)
    requires 0 <= x < 100
    ensures 0 <= id < M.P && M.Vanishes(x - id) <==> id == x
  {
  }

  predicate ColumnsMeet(i: nat, c: Control, bank: Bank, o: Operands)
    requires i < 5 && c.mode < 7 && c.iteration < 5 && bank.Valid()
  {
    && LimbMeets(i, c, bank, o, 0) && LimbMeets(i, c, bank, o, 1) && LimbMeets(i, c, bank, o, 2)
    && LimbMeets(i, c, bank, o, 3)
  }

  lemma ColumnsCollapse(i: nat, f: Flags, rho: seq<int>, bank: Bank, r: Registers, c: Control, o: Operands)
    requires i < 5 && FlagsOf(f, rho, c) && bank.Valid() && r.Valid() && o == OperandsOf(i, c.mode, r)
    ensures ColumnsRouted(i, f, rho, bank, r) <==> ColumnsMeet(i, c, bank, o)
  {
    LimbCollapses(i, f, rho, bank, r, c, 0, o);
    LimbCollapses(i, f, rho, bank, r, c, 1, o);
    LimbCollapses(i, f, rho, bank, r, c, 2, o);
    LimbCollapses(i, f, rho, bank, r, c, 3, o);
  }

  /** The bank is in the table of the operation and its columns are the operands. */
  ghost predicate OperationHolds(i: nat, c: Control, bank: Bank, o: Operands)
    requires i < 5 && c.mode < 7 && c.iteration < 5
  {
    bank.Valid() && AllInTable(TableId(KindOf(i, c.mode)), bank) && ColumnsMeet(i, c, bank, o)
  }

  /** And so are the constraints on an operation: its table, its operands, its rotation. */
  lemma OperationCollapses(i: nat, f: Flags, rho: seq<int>, id: int, bank: Bank, r: Registers, c: Control)
    requires i < 5 && FlagsOf(f, rho, c) && r.Valid()
    ensures OperationConstraints(i, f, rho, id, bank, r) <==>
      id == TableId(KindOf(i, c.mode)) && OperationHolds(i, c, bank, OperandsOf(i, c.mode, r))
  {
    TurnsAreCounted(i, f, rho, c);
    TableDetermined(i, f, id, c);
    if bank.Valid() { ColumnsCollapse(i, f, rho, bank, r, c, OperandsOf(i, c.mode, r)); }
  }
}
