/** The witness generator of the decoder: the pieces are cut out of the fetched halves, and the
    immediate is a sum of products in the field. */
module DecoderGenerator {
  import opened Words
  import opened Mersenne31
  import opened Decoder
  import opened Witness
  import N = NumberTheory

  const ROW_SIZE := 197

  ghost predicate Ready(w: array<Felt>)
    reads w
  {
    w.Length == ROW_SIZE && w[83] < B16 && w[84] < B16
  }

  /** The places of the pieces, and of the format flags (the register format has place 36). */
  function PiecesAt(w: seq<int>): Pieces
    requires |w| == ROW_SIZE
  {
    Pieces(w[88], w[85], w[89], w[33], w[86], w[87], w[90], w[34])
  }

  function FlagsAt(w: seq<int>): Flags
    requires |w| == ROW_SIZE
  {
    Flags(w[37], w[38], w[39], w[40], w[41])
  }

  /** eval_fn_3: cut the halves into pieces, skipping bits 7 and 20. */
  method WritePieces(w: array<Felt>)
    requires Ready(w)
    modifies w
    ensures Ready(w) && Only(old(w[..]), w[..], {88, 85, 89, 33, 86, 87, 90, 34})
    ensures PiecesAt(w[..]) == PiecesOf(w[83], w[84])
    ensures Decomposes(w[83], w[84], PiecesAt(w[..]))
  {
    var low: int, high: int := w[83], w[84];
    DecompositionIsUnique(low, high, PiecesOf(low, high));
    ShiftsAreDivisions(low, high);
    w[88] := low % 0x80;
    low := low / 0x100;
    w[85] := low % 0x10;
    low := low / 0x10;
    w[89] := low % 8;
    w[33] := low / 8 % 2;
    w[86] := high % 0x10;
    high := high / 0x20;
    w[87] := high % 0x10;
    high := high / 0x10;
    w[90] := high % 0x40;
    w[34] := high / 0x40 % 2;
  }

  lemma ShiftsAreDivisions(low: u16, high: u16)
    ensures low / 0x100 / 0x10 == low / 0x1000 && low / 0x1000 / 8 == low / 0x8000
    ensures high / 0x20 / 0x10 == high / 0x200 && high / 0x200 / 0x40 == high / 0x8000
  {
    Nested(low, 0x100, 0x10, 0x1000);
    Nested(low, 0x1000, 8, 0x8000);
    Nested(high, 0x20, 0x10, 0x200);
    Nested(high, 0x200, 0x40, 0x8000);
  }

  lemma Nested(x: int, p: int, q: int, pq: int)
    requires p > 0 && q > 0 && pq == p * q
    ensures x / p / q == x / pq
  {
    Peel(x, p, q, pq);
    N.DivModUnique(x / p, q, x / pq, x / p % q);
  }

  // ---------------------------------------------------------------------------------------
  // The immediate

  /** One term of a field expression: a product with a coefficient and a flag. */
  method AddTerm(sum: Felt, x: Felt, coefficient: Felt, flag: Felt, ghost total: int) returns (r: Felt, ghost next: int)
    requires sum == Reduce(total)
    ensures next == total + x * coefficient * flag && r == Reduce(next)
  {
    r := Add(sum, Mul(Mul(x, coefficient), flag));
    next := total + x * coefficient * flag;
    N.ModMulLeft(x * coefficient, flag, P);
    ReducedSum(total, x * coefficient * flag);
  }

  lemma ReducedSum(x: int, y: int)
    ensures Reduce(Reduce(x) + Reduce(y)) == Reduce(x + y)
  {
  }

  // The sums as generated: every coefficient is a canonical field element.

  function LowTermsOfHalves(g: Flags, p: Pieces, low: int, high: int): int {
    low * 0x100_0000 * g.s + low * 0x10 * g.b + high * 0x800_0000 * g.i + high * 0x80 * g.j
    + p.opcode * 2130706431 * g.s + p.opcode * 2147483631 * g.b + p.imm4To1 * 2147479553 * g.b
  }

  function LowTermsOfLowPieces(g: Flags, p: Pieces): int {
    p.funct3 * 2147483615 * g.s + p.funct3 * 2147418111 * g.b + p.funct3 * 0x1000 * g.u + p.funct3 * 0x1000 * g.j
    + p.rs1Low * 2147483391 * g.s + p.rs1Low * 2146959359 * g.b + p.rs1Low * 0x8000 * g.u + p.rs1Low * 0x8000 * g.j
  }

  function LowTermsOfHighPieces(g: Flags, p: Pieces): int {
    p.rs1High * 2013265919 * g.i + p.rs1High * 2147483519 * g.j + p.rs2High * 2147479553 * g.j
    + p.imm10To5 * 2147483615 * g.i + p.imm10To5 * 2147483615 * g.u + p.imm10To5 * 2147418111 * g.j
    + p.sign * 61440 * g.i + p.sign * 63488 * g.s + p.sign * 61440 * g.b + p.sign * 2143289343 * g.j
  }

  function LowTerms(g: Flags, p: Pieces, low: int, high: int): int {
    LowTermsOfHalves(g, p, low, high) + LowTermsOfLowPieces(g, p) + LowTermsOfHighPieces(g, p) + 0x20 * p.imm10To5
  }

  function HighTerms(g: Flags, p: Pieces, high: int): int {
    high * g.u + p.rs1High * g.j + p.sign * 2147418112 * g.u + p.sign * 2147483632 * g.j + 0xffff * p.sign
  }

  /** In each format the generated sum differs from the polynomial of the circuit by a multiple of
      the modulus. */
  lemma TermsAreForm(f: Format, p: Pieces, low: int, high: int)
    ensures Vanishes(LowForm(FlagsOf(f), p, Bit7(low, p), Bit20(high, p)) - LowTerms(FlagsOf(f), p, low, high))
  {
    var k :=
      match f
      case R => 0
      case I => -p.rs1High - 2 * p.rs2High - 33 * p.imm10To5 - 2048 * p.sign
      case S => -p.opcode - 2 * p.imm4To1 - 33 * p.funct3 - 257 * p.rs1Low
      case B => 16 * low - 17 * p.opcode - 4097 * p.imm4To1 - 65537 * p.funct3 - 524289 * p.rs1Low
      case U => -p.imm10To5
      case J => 128 * high - 129 * p.rs1High - 4097 * p.rs2High - 65537 * p.imm10To5 - 4194305 * p.sign;
    assert LowForm(FlagsOf(f), p, Bit7(low, p), Bit20(high, p)) - LowTerms(FlagsOf(f), p, low, high) == P * k;
    MultipleVanishes(k);
  }

  lemma HighTermsAreForm(f: Format, p: Pieces, high: int)
    ensures Vanishes(HighForm(FlagsOf(f), p, high) - HighTerms(FlagsOf(f), p, high))
  {
    var k := match f case J => -p.sign case U => -p.sign case _ => 0;
    assert HighForm(FlagsOf(f), p, high) - HighTerms(FlagsOf(f), p, high) == P * k;
    MultipleVanishes(k);
  }

  method SumHalves(w: array<Felt>) returns (r: Felt, ghost t: int)
    requires Ready(w)
    ensures t == LowTermsOfHalves(FlagsAt(w[..]), PiecesAt(w[..]), w[83], w[84]) && r == Reduce(t)
  {
    r, t := AddTerm(0, w[83], 0x100_0000, w[38], 0);
    r, t := AddTerm(r, w[83], 0x10, w[39], t);
    r, t := AddTerm(r, w[84], 0x800_0000, w[37], t);
    r, t := AddTerm(r, w[84], 0x80, w[41], t);
    r, t := AddTerm(r, w[88], 2130706431, w[38], t);
    r, t := AddTerm(r, w[88], 2147483631, w[39], t);
    r, t := AddTerm(r, w[85], 2147479553, w[39], t);
  }

  method SumLowPieces(w: array<Felt>, sum: Felt, ghost total: int) returns (r: Felt, ghost t: int)
    requires Ready(w) && sum == Reduce(total)
    ensures t == total + LowTermsOfLowPieces(FlagsAt(w[..]), PiecesAt(w[..])) && r == Reduce(t)
  {
    r, t := AddTerm(sum, w[89], 2147483615, w[38], total);
    r, t := AddTerm(r, w[89], 2147418111, w[39], t);
    r, t := AddTerm(r, w[89], 0x1000, w[40], t);
    r, t := AddTerm(r, w[89], 0x1000, w[41], t);
    r, t := AddTerm(r, w[33], 2147483391, w[38], t);
    r, t := AddTerm(r, w[33], 2146959359, w[39], t);
    r, t := AddTerm(r, w[33], 0x8000, w[40], t);
    r, t := AddTerm(r, w[33], 0x8000, w[41], t);
  }

  method SumHighPieces(w: array<Felt>, sum: Felt, ghost total: int) returns (r: Felt, ghost t: int)
    requires Ready(w) && sum == Reduce(total)
    ensures t == total + LowTermsOfHighPieces(FlagsAt(w[..]), PiecesAt(w[..])) && r == Reduce(t)
  {
    r, t := AddTerm(sum, w[86], 2013265919, w[37], total);
    r, t := AddTerm(r, w[86], 2147483519, w[41], t);
    r, t := AddTerm(r, w[87], 2147479553, w[41], t);
    r, t := AddTerm(r, w[90], 2147483615, w[37], t);
    r, t := AddTerm(r, w[90], 2147483615, w[40], t);
    r, t := AddTerm(r, w[90], 2147418111, w[41], t);
    r, t := AddTerm(r, w[34], 61440, w[37], t);
    r, t := AddTerm(r, w[34], 63488, w[38], t);
    r, t := AddTerm(r, w[34], 61440, w[39], t);
    r, t := AddTerm(r, w[34], 2143289343, w[41], t);
  }

  /** eval_fn_8: the low half of the immediate. */
  method WriteLow(w: array<Felt>, ghost f: Format)
    requires Ready(w) && FlagsAt(w[..]) == FlagsOf(f)
    modifies w
    ensures Only(old(w[..]), w[..], {112})
    ensures var p := PiecesAt(w[..]); Vanishes(LowForm(FlagsOf(f), p, Bit7(w[83], p), Bit20(w[84], p)) - w[112])
  {
    ghost var p := PiecesAt(w[..]);
    var r, t := SumHalves(w);
    r, t := SumLowPieces(w, r, t);
    r, t := SumHighPieces(w, r, t);
    r, t := AddTerm(r, w[90], 0x20, 1, t);
    assert t == LowTerms(FlagsOf(f), p, w[83], w[84]);
    w[112] := r;
    TermsAreForm(f, p, w[83], w[84]);
    Represents(LowForm(FlagsOf(f), p, Bit7(w[83], p), Bit20(w[84], p)), t);
    assert PiecesAt(w[..]) == p;
  }

  lemma Represents(x: int, t: int)
    requires Vanishes(x - t)
    ensures Vanishes(x - Reduce(t))
  {
  }

  /** eval_fn_9: the high half. */
  method WriteHigh(w: array<Felt>, ghost f: Format)
    requires Ready(w) && FlagsAt(w[..]) == FlagsOf(f)
    modifies w
    ensures Only(old(w[..]), w[..], {113})
    ensures Vanishes(HighForm(FlagsOf(f), PiecesAt(w[..]), w[84]) - w[113])
  {
    ghost var p := PiecesAt(w[..]);
    var r, t := AddTerm(0, w[84], 1, w[40], 0);
    r, t := AddTerm(r, w[86], 1, w[41], t);
    r, t := AddTerm(r, w[34], 2147418112, w[40], t);
    r, t := AddTerm(r, w[34], 2147483632, w[41], t);
    r, t := AddTerm(r, w[34], 0xffff, 1, t);
    assert t == HighTerms(FlagsOf(f), p, w[84]);
    w[113] := r;
    HighTermsAreForm(f, p, w[84]);
    Represents(HighForm(FlagsOf(f), p, w[84]), t);
    assert PiecesAt(w[..]) == p;
  }

  /** A row whose decoder constraints hold. */
  ghost predicate Decoded(f: Format, w: seq<int>) {
    && |w| == ROW_SIZE && 0 <= w[83] < B16 && 0 <= w[84] < B16 && 0 <= w[112] < P && 0 <= w[113] < P
    && Decomposes(w[83], w[84], PiecesAt(w))
    && ImmediateConstraints(FlagsOf(f), PiecesAt(w), w[83], w[84], w[112], w[113])
  }

  lemma ImmediateOfRow(f: Format, w: seq<int>)
    requires !f.R? && Decoded(f, w)
    ensures w[112] < B16 && w[113] < B16 && Word(w[112], w[113]) == Wrap32(Immediate(f, Word(w[83], w[84])))
  {
    ImmediateSound(f, PiecesAt(w), w[83], w[84], w[112], w[113]);
  }

  method WriteImmediate(w: array<Felt>, ghost f: Format)
    requires Ready(w) && FlagsAt(w[..]) == FlagsOf(f) && Decomposes(w[83], w[84], PiecesAt(w[..]))
    modifies w
    ensures Only(old(w[..]), w[..], {112, 113})
    ensures Decoded(f, w[..])
  {
    ghost var p := PiecesAt(w[..]);
    WriteLow(w, f);
    assert PiecesAt(w[..]) == p;
    WriteHigh(w, f);
    assert PiecesAt(w[..]) == p;
  }

  /** The decoder on one instruction: whatever the row held, the immediate slots receive the
      immediate of the format the table lookup has flagged. */
  method Decode(w: array<Felt>, ghost f: Format)
    requires Ready(w) && FlagsAt(w[..]) == FlagsOf(f)
    modifies w
    ensures Only(old(w[..]), w[..], {88, 85, 89, 33, 86, 87, 90, 34, 112, 113})
    ensures Decoded(f, w[..])
    ensures !f.R? ==> w[112] < B16 && w[113] < B16 && Word(w[112], w[113]) == Wrap32(Immediate(f, Word(w[83], w[84])))
  {
    WritePieces(w);
    assert FlagsAt(w[..]) == FlagsOf(f);
    WriteImmediate(w, f);
    if !f.R? { ImmediateOfRow(f, w[..]); }
  }
}
