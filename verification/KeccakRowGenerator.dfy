/** The witness generator of a Keccak row: every value is computed for all modes, and folded with the
    flags of the control register. */
module KeccakRowGenerator {
  import opened BitStrings
  import opened KeccakF
  import opened KeccakSchedule
  import opened KeccakWords
  import opened KeccakDatapath
  import opened KeccakBinop
  import opened KeccakControl
  import opened KeccakRouting
  import opened KeccakCircuit
  import opened KeccakProver

  function PairOf(q: Quad): Pair
    requires q.InRange()
  {
    Pair(Bits(q.l0, 16) + Bits(q.l1, 16), Bits(q.l2, 16) + Bits(q.l3, 16))
  }

  lemma PairIsLane(q: Quad)
    requires q.InRange()
    ensures PairOf(q).Join() == LaneOf(q)
  {
    var a, b, c, d := Bits(q.l0, 16), Bits(q.l1, 16), Bits(q.l2, 16), Bits(q.l3, 16);
    assert (a + b) + (c + d) == a + b + c + d;
  }

  function PairsOf(x: seq<Quad>): SixPairs
    requires SixInRange(x)
  {
    SixPairs(PairOf(x[0]), PairOf(x[1]), PairOf(x[2]), PairOf(x[3]), PairOf(x[4]), PairOf(x[5]))
  }

  lemma PairsAreLanes(x: seq<Quad>)
    requires SixInRange(x)
    ensures PairsOf(x).Join() == LanesOf(x)
  {
    PairIsLane(x[0]);
    PairIsLane(x[1]);
    PairIsLane(x[2]);
    PairIsLane(x[3]);
    PairIsLane(x[4]);
    PairIsLane(x[5]);
  }

  method SelectTemporaries(f: Flags, w: Six, first: Lane, ghost c: Control) returns (t: seq<Lane>)
    requires Selects(f, c)
    ensures t == Temporaries(c.mode, w, first)
  {
    t := [Zero(), Zero(), Zero()];
    for k := 0 to 7
      invariant |t| == 3 && (c.mode < k ==> t == Temporaries(c.mode, w, first))
    {
      if f.mode[k] { t := Temporaries(k, w, first); }
    }
  }

  const NO_BANK := Bank([0, 0, 0, 0, 0, 0, 0, 0], [0, 0, 0, 0, 0, 0, 0, 0], [0, 0, 0, 0, 0, 0, 0, 0])

  /** The rotation of a rho call, folded over the iterations. */
  method SelectTurn(i: nat, f: Flags, q: Quad, ghost c: Control) returns (bank: Bank)
    requires i < 5 && Selects(f, c) && q.InRange()
    ensures bank == TurnBankOf(Rotations(i)[c.iteration], q)
  {
    bank := NO_BANK;
    for k := 0 to 5
      invariant c.iteration < k ==> bank == TurnBankOf(Rotations(i)[c.iteration], q)
    {
      if f.iteration[k] { bank := TurnBankOf(Rotations(i)[k], q); }
    }
  }

  /** The lookups of operation i in mode k. */
  method ModeBank(i: nat, k: nat, f: Flags, o: Operands, ghost c: Control) returns (bank: Bank)
    requires i < 5 && k < 7 && Selects(f, c) && o.in1.InRange()
    ensures c.mode == k ==> bank == BankOf(i, c, o)
  {
    if !KindOf(i, k).Turn? {
      bank := ByteBankOf(o);
    } else if k == RHO {
      bank := SelectTurn(i, f, o.in1, c);
    } else {
      bank := TurnBankOf(1, o.in1);
    }
  }

  /** The eight triples of operation i, folded over the modes. */
  method SelectBank(i: nat, f: Flags, r: Registers, ghost c: Control) returns (bank: Bank)
    requires i < 5 && Selects(f, c) && RegistersInRange(r) && r.Valid()
    ensures bank == BankFor(i, c, r)
  {
    bank := NO_BANK;
    for k := 0 to 7
      invariant c.mode < k ==> bank == BankFor(i, c, r)
    {
      OperandsInRange(i, k, r);
      var possible := ModeBank(i, k, f, OperandsOf(i, k, r), c);
      if f.mode[k] { bank := possible; }
    }
  }

  method SelectBanks(f: Flags, r: Registers, ghost c: Control) returns (banks: seq<Bank>)
    requires Selects(f, c) && RegistersInRange(r) && r.Valid()
    ensures banks == GeneratedBanks(c, r)
  {
    banks := [];
    for i := 0 to 5
      invariant |banks| == i && forall j :: 0 <= j < i ==> banks[j] == BankFor(j, c, r)
    {
      var bank := SelectBank(i, f, r, c);
      banks := banks + [bank];
    }
  }

  /** The number of the table of operation i: a sum weighted by the flags. */
  method SelectIds(f: Flags, ghost c: Control) returns (ids: seq<int>)
    requires Selects(f, c)
    ensures ids == GeneratedIds(c)
  {
    ids := [];
    for i := 0 to 5
      invariant |ids| == i && forall j :: 0 <= j < i ==> ids[j] == TableId(KindOf(j, c.mode))
    {
      TableCollapses(i, f, c);
      ids := ids + [TableSum(i, f)];
    }
  }

  lemma FlagsUnique(f: Flags, c: Control)
    requires Selects(f, c) && f.round == Bits(c.round, 5)
    ensures f == FlagsFor(c)
  {
    assert f.mode == FlagsFor(c).mode && f.iteration == FlagsFor(c).iteration;
  }

  method SelectRegisters(f: Flags, round: nat, x: seq<Quad>, index: nat, ghost c: Control) returns (r: Registers)
    requires Selects(f, c) && round == c.round && index == KeyRound(c) && SixInRange(x)
    ensures r == GeneratedRegisters(c, x)
  {
    PairsAreLanes(x);
    var out := SelectOutputs(f, round, PairsOf(x), c);
    var z := out.Join();
    var t := SelectTemporaries(f, LanesOf(x), z.w0, c);
    KeyRoundConstant(c);
    r := Registers(x, QuadsFrom(z), [QuadFrom(t[0]), QuadFrom(t[1]), QuadFrom(t[2])], KeyQuad(index));
  }

  /** The flags of the iterations of rho: products of two flags. */
  method SelectRho(f: Flags, ghost c: Control) returns (rho: seq<int>)
    requires Selects(f, c)
    ensures rho == RhoFlagsFor(c)
  {
    rho := [];
    for k := 0 to 5
      invariant |rho| == k && forall j :: 0 <= j < k ==> rho[j] == BitOf(c.mode == RHO && c.iteration == j)
    {
      FlagProduct(f.mode[RHO], f.iteration[k]);
      rho := rho + [BitOf(f.mode[RHO]) * BitOf(f.iteration[k])];
    }
  }

  lemma PackUnpack(control: nat)
    ensures Unpack(control).Pack() == control
  {
  }

  method SelectIndex(f: Flags, control: nat, ghost c: Control) returns (index: nat)
    requires c == Unpack(control) && Selects(f, c)
    ensures index == KeyRound(c)
  {
    index := if f.iteration[0] then control / 64 else 0;
  }

  /** All slots of the row. */
  method WriteRow(control: nat, x: seq<Quad>, ghost c: Control) returns (w: Row)
    requires c == Unpack(control) && c.Valid() && SixInRange(x)
    ensures w == GeneratedRow(c, x)
  {
    var f := DecodeFlags(control, true);
    FlagsUnique(f, c);
    var rho := SelectRho(f, c);
    var index := SelectIndex(f, control, c);
    var r := SelectRegisters(f, control / 64, x, index, c);
    var ids := SelectIds(f, c);
    var banks := SelectBanks(f, r, c);
    var next := NextControl(control);
    PackUnpack(control);
    w := Row(control, next, f, rho, index, r, ids, banks);
  }

  /** The generator: whatever the six words hold, the row it writes satisfies every constraint. */
  method Evaluate(control: nat, x: seq<Quad>) returns (w: Row)
    requires Unpack(control).Valid() && SixInRange(x)
    ensures w.control == control && w.r.x == x && Satisfied(w)
  {
    w := WriteRow(control, x, Unpack(control));
    PackUnpack(control);
    RowComplete(Unpack(control), x);
  }
}
