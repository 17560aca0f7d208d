/** A known answer: the BLAKE2s digest of the block of words 0 to 15, computed a third time with the
    machine's own additions, exclusive-ors and shifts. */
module Blake2sVector {
  import opened BitStrings
  import opened VectorFacts
  import opened BitVectors
  import opened Blake2s

  // ---------------------------------------------------------------------------------------
  // Rounds on vectors

  datatype Quad = Quad(a: bv32, b: bv32, c: bv32, d: bv32)

  /** The four columns of the extended state. */
  datatype Columns = Columns(c0: Quad, c1: Quad, c2: Quad, c3: Quad)

  function FirstHalf(v: Quad, x: bv32): Quad {
    var a := Add(Add(v.a, v.b), x);
    var d := Ror16(Xor(v.d, a));
    var c := Add(v.c, d);
    Quad(a, Ror12(Xor(v.b, c)), c, d)
  }

  function SecondHalf(v: Quad, y: bv32): Quad {
    var a := Add(Add(v.a, v.b), y);
    var d := Ror8(Xor(v.d, a));
    var c := Add(v.c, d);
    Quad(a, Ror7(Xor(v.b, c)), c, d)
  }

  function G(v: Quad, x: bv32, y: bv32): Quad { SecondHalf(FirstHalf(v, x), y) }

  /** Eight words of the message, in the order of their use. */
  datatype Eight = Eight(x0: bv32, x1: bv32, x2: bv32, x3: bv32, x4: bv32, x5: bv32, x6: bv32, x7: bv32)

  function GFour(v: Columns, x: Eight): Columns {
    Columns(G(v.c0, x.x0, x.x1), G(v.c1, x.x2, x.x3), G(v.c2, x.x4, x.x5), G(v.c3, x.x6, x.x7))
  }

  /** Diagonals as columns, and back. */
  function Skewed(v: Columns): Columns {
    Columns(Quad(v.c0.a, v.c1.b, v.c2.c, v.c3.d), Quad(v.c1.a, v.c2.b, v.c3.c, v.c0.d),
            Quad(v.c2.a, v.c3.b, v.c0.c, v.c1.d), Quad(v.c3.a, v.c0.b, v.c1.c, v.c2.d))
  }

  function Unskewed(r: Columns): Columns {
    Columns(Quad(r.c0.a, r.c3.b, r.c2.c, r.c1.d), Quad(r.c1.a, r.c0.b, r.c3.c, r.c2.d),
            Quad(r.c2.a, r.c1.b, r.c0.c, r.c3.d), Quad(r.c3.a, r.c2.b, r.c1.c, r.c0.d))
  }

  function FullRound(v: Columns, x: Eight, y: Eight): Columns {
    Unskewed(GFour(Skewed(GFour(v, x)), y))
  }

  // ---------------------------------------------------------------------------------------
  // They are the rounds of the specification

  predicate IsQuad(f: Four, q: Quad) {
    Vector(f.a) == q.a && Vector(f.b) == q.b && Vector(f.c) == q.c && Vector(f.d) == q.d
  }

  lemma Rotated16(w: Word)
    ensures Vector(RotateRight(w, 16)) == Ror16(Vector(w))
  {
    Masks(0);
    Within(w[..16], 0xffff);
    Within(w[16..], 0xffff);
    Parts(w, 16);
    PartsTurned(w, 16);
    Up16(Vector(w[16..]), 0);
    Up16(Vector(w[..16]), 0);
    Turned16(Vector(w[..16]), Vector(w[16..]));
  }

  lemma Rotated12(w: Word)
    ensures Vector(RotateRight(w, 12)) == Ror12(Vector(w))
  {
    var a, b := Vector(w[..12]), Vector(w[12..]);
    Masks(0);
    MoreMasks(0);
    Within(w[..12], 0xfff);
    Within(w[12..], 0xf_ffff);
    Parts(w, 12);
    PartsTurned(w, 12);
    Up8(b, 0);
    Up4(b, 8);
    Up16(a, 0);
    Up4(a, 16);
    Turned12(a, b);
  }

  lemma Rotated8(w: Word)
    ensures Vector(RotateRight(w, 8)) == Ror8(Vector(w))
  {
    var a, b := Vector(w[..8]), Vector(w[8..]);
    Masks(0);
    MoreMasks(0);
    Within(w[..8], 0xff);
    Within(w[8..], 0xff_ffff);
    Parts(w, 8);
    PartsTurned(w, 8);
    Up8(b, 0);
    Up16(a, 0);
    Up8(a, 16);
    Turned8(a, b);
  }

  lemma Rotated7(w: Word)
    ensures Vector(RotateRight(w, 7)) == Ror7(Vector(w))
  {
    var a, b := Vector(w[..7]), Vector(w[7..]);
    Masks(0);
    MoreMasks(0);
    Within(w[..7], 0x7f);
    Within(w[7..], 0x1ff_ffff);
    Parts(w, 7);
    PartsTurned(w, 7);
    Up4(b, 0);
    Up2(b, 4);
    Up16(a, 0);
    Up8(a, 16);
    Turned7(a, b);
  }

  lemma FirstHalfIs(f: Four, w: Word, q: Quad, x: bv32)
    requires IsQuad(f, q) && Vector(w) == x
    ensures IsQuad(HalfMix(f, w, 16, 12), FirstHalf(q, x))
  {
    var r := HalfMix(f, w, 16, 12);
    SumVector(f.a, f.b);
    SumVector(Plus(f.a, f.b), w);
    XorVector(f.d, r.a);
    Rotated16(XorWords(f.d, r.a));
    SumVector(f.c, r.d);
    XorVector(f.b, r.c);
    Rotated12(XorWords(f.b, r.c));
  }

  lemma SecondHalfIs(f: Four, w: Word, q: Quad, x: bv32)
    requires IsQuad(f, q) && Vector(w) == x
    ensures IsQuad(HalfMix(f, w, 8, 7), SecondHalf(q, x))
  {
    var r := HalfMix(f, w, 8, 7);
    SumVector(f.a, f.b);
    SumVector(Plus(f.a, f.b), w);
    XorVector(f.d, r.a);
    Rotated8(XorWords(f.d, r.a));
    SumVector(f.c, r.d);
    XorVector(f.b, r.c);
    Rotated7(XorWords(f.b, r.c));
  }

  /** On any four words and any two words of a message the specification mixes as the machine does. */
  lemma MixIsG(f: Four, w: Word, z: Word, q: Quad, x: bv32, y: bv32)
    requires IsQuad(f, q) && Vector(w) == x && Vector(z) == y
    ensures IsQuad(Mix(f, w, z), G(q, x, y))
  {
    FirstHalfIs(f, w, q, x);
    SecondHalfIs(HalfMix(f, w, 16, 12), z, FirstHalf(q, x), y);
  }

  predicate IsState(v: Block, c: Columns) {
    && Vector(v[0]) == c.c0.a && Vector(v[1]) == c.c1.a && Vector(v[2]) == c.c2.a && Vector(v[3]) == c.c3.a
    && Vector(v[4]) == c.c0.b && Vector(v[5]) == c.c1.b && Vector(v[6]) == c.c2.b && Vector(v[7]) == c.c3.b
    && Vector(v[8]) == c.c0.c && Vector(v[9]) == c.c1.c && Vector(v[10]) == c.c2.c && Vector(v[11]) == c.c3.c
    && Vector(v[12]) == c.c0.d && Vector(v[13]) == c.c1.d && Vector(v[14]) == c.c2.d && Vector(v[15]) == c.c3.d
  }

  predicate IsEight(m: Block, s: Permutation, k: nat, x: Eight)
    requires k == 0 || k == 8
  {
    && Vector(m[s[k]]) == x.x0 && Vector(m[s[k + 1]]) == x.x1 && Vector(m[s[k + 2]]) == x.x2
    && Vector(m[s[k + 3]]) == x.x3 && Vector(m[s[k + 4]]) == x.x4 && Vector(m[s[k + 5]]) == x.x5
    && Vector(m[s[k + 6]]) == x.x6 && Vector(m[s[k + 7]]) == x.x7
  }

  lemma ColumnsAre(v: Block, c: Columns)
    requires IsState(v, c)
    ensures IsQuad(Column(v, 0), c.c0) && IsQuad(Column(v, 1), c.c1)
    ensures IsQuad(Column(v, 2), c.c2) && IsQuad(Column(v, 3), c.c3)
  {
  }

  lemma DiagonalsAre(v: Block, c: Columns)
    requires IsState(v, c)
    ensures IsQuad(Diagonal(v, 0), Skewed(c).c0) && IsQuad(Diagonal(v, 1), Skewed(c).c1)
    ensures IsQuad(Diagonal(v, 2), Skewed(c).c2) && IsQuad(Diagonal(v, 3), Skewed(c).c3)
  {
  }

  predicate IsColumns(v: Block, r0: Four, r1: Four, r2: Four, r3: Four) {
    && v[0] == r0.a && v[1] == r1.a && v[2] == r2.a && v[3] == r3.a
    && v[4] == r0.b && v[5] == r1.b && v[6] == r2.b && v[7] == r3.b
    && v[8] == r0.c && v[9] == r1.c && v[10] == r2.c && v[11] == r3.c
    && v[12] == r0.d && v[13] == r1.d && v[14] == r2.d && v[15] == r3.d
  }

  lemma ColumnsHold(r0: Four, r1: Four, r2: Four, r3: Four)
    ensures IsColumns(FromColumns(r0, r1, r2, r3), r0, r1, r2, r3)
  {
  }

  lemma StateOfColumns(v: Block, r0: Four, r1: Four, r2: Four, r3: Four, c: Columns)
    requires IsColumns(v, r0, r1, r2, r3)
    requires IsQuad(r0, c.c0) && IsQuad(r1, c.c1) && IsQuad(r2, c.c2) && IsQuad(r3, c.c3)
    ensures IsState(v, c)
  {
  }

  predicate IsDiagonals(v: Block, r0: Four, r1: Four, r2: Four, r3: Four) {
    && v[0] == r0.a && v[1] == r1.a && v[2] == r2.a && v[3] == r3.a
    && v[5] == r0.b && v[6] == r1.b && v[7] == r2.b && v[4] == r3.b
    && v[10] == r0.c && v[11] == r1.c && v[8] == r2.c && v[9] == r3.c
    && v[15] == r0.d && v[12] == r1.d && v[13] == r2.d && v[14] == r3.d
  }

  lemma DiagonalsHold(r0: Four, r1: Four, r2: Four, r3: Four)
    ensures IsDiagonals(FromDiagonals(r0, r1, r2, r3), r0, r1, r2, r3)
  {
  }

  lemma StateOfDiagonals(v: Block, r0: Four, r1: Four, r2: Four, r3: Four, c: Columns)
    requires IsDiagonals(v, r0, r1, r2, r3)
    requires IsQuad(r0, c.c0) && IsQuad(r1, c.c1) && IsQuad(r2, c.c2) && IsQuad(r3, c.c3)
    ensures IsState(v, Unskewed(c))
  {
  }

  lemma MixedColumn(v: Block, m: Block, s: Permutation, k: nat, q: Quad, x: bv32, y: bv32)
    requires k < 4 && IsQuad(Column(v, k), q) && Vector(m[s[2 * k]]) == x && Vector(m[s[2 * k + 1]]) == y
    ensures IsQuad(MixColumn(v, m, s, k), G(q, x, y))
  {
    MixIsG(Column(v, k), m[s[2 * k]], m[s[2 * k + 1]], q, x, y);
  }

  lemma MixedDiagonal(v: Block, m: Block, s: Permutation, k: nat, q: Quad, x: bv32, y: bv32)
    requires k < 4 && IsQuad(Diagonal(v, k), q) && Vector(m[s[8 + 2 * k]]) == x && Vector(m[s[9 + 2 * k]]) == y
    ensures IsQuad(MixDiagonal(v, m, s, k), G(q, x, y))
  {
    MixIsG(Diagonal(v, k), m[s[8 + 2 * k]], m[s[9 + 2 * k]], q, x, y);
  }

  lemma ColumnsMixed(v: Block, m: Block, s: Permutation, c: Columns, x: Eight, r: Columns)
    requires IsState(v, c) && IsEight(m, s, 0, x) && r == GFour(c, x)
    ensures IsState(MixColumns(v, m, s), r)
  {
    ColumnsAre(v, c);
    MixedColumn(v, m, s, 0, c.c0, x.x0, x.x1);
    MixedColumn(v, m, s, 1, c.c1, x.x2, x.x3);
    MixedColumn(v, m, s, 2, c.c2, x.x4, x.x5);
    MixedColumn(v, m, s, 3, c.c3, x.x6, x.x7);
    var r0, r1, r2, r3 := MixColumn(v, m, s, 0), MixColumn(v, m, s, 1), MixColumn(v, m, s, 2), MixColumn(v, m, s, 3);
    ColumnsHold(r0, r1, r2, r3);
    StateOfColumns(MixColumns(v, m, s), r0, r1, r2, r3, r);
  }

  lemma FirstDiagonalsMixed(v: Block, m: Block, s: Permutation, d: Columns, y: Eight)
    requires IsQuad(Diagonal(v, 0), d.c0) && IsQuad(Diagonal(v, 1), d.c1) && IsEight(m, s, 8, y)
    ensures IsQuad(MixDiagonal(v, m, s, 0), G(d.c0, y.x0, y.x1)) && IsQuad(MixDiagonal(v, m, s, 1), G(d.c1, y.x2, y.x3))
  {
    MixedDiagonal(v, m, s, 0, d.c0, y.x0, y.x1);
    MixedDiagonal(v, m, s, 1, d.c1, y.x2, y.x3);
  }

  lemma LastDiagonalsMixed(v: Block, m: Block, s: Permutation, d: Columns, y: Eight)
    requires IsQuad(Diagonal(v, 2), d.c2) && IsQuad(Diagonal(v, 3), d.c3) && IsEight(m, s, 8, y)
    ensures IsQuad(MixDiagonal(v, m, s, 2), G(d.c2, y.x4, y.x5)) && IsQuad(MixDiagonal(v, m, s, 3), G(d.c3, y.x6, y.x7))
  {
    MixedDiagonal(v, m, s, 2, d.c2, y.x4, y.x5);
    MixedDiagonal(v, m, s, 3, d.c3, y.x6, y.x7);
  }

  lemma DiagonalsMixed(v: Block, m: Block, s: Permutation, c: Columns, y: Eight, d: Columns, r: Columns)
    requires IsState(v, c) && IsEight(m, s, 8, y) && d == Skewed(c) && r == GFour(d, y)
    ensures IsState(MixDiagonals(v, m, s), Unskewed(r))
  {
    DiagonalsAre(v, c);
    FirstDiagonalsMixed(v, m, s, d, y);
    LastDiagonalsMixed(v, m, s, d, y);
    var r0, r1 := MixDiagonal(v, m, s, 0), MixDiagonal(v, m, s, 1);
    var r2, r3 := MixDiagonal(v, m, s, 2), MixDiagonal(v, m, s, 3);
    DiagonalsHold(r0, r1, r2, r3);
    StateOfDiagonals(MixDiagonals(v, m, s), r0, r1, r2, r3, r);
  }

  /** On every state, every block and every schedule a round of the specification is the machine's. */
  lemma RoundIsFullRound(v: Block, m: Block, s: Permutation, c: Columns, x: Eight, y: Eight)
    requires IsState(v, c) && IsEight(m, s, 0, x) && IsEight(m, s, 8, y)
    ensures IsState(Round(v, m, s), FullRound(c, x, y))
  {
    var w := GFour(c, x);
    ColumnsMixed(v, m, s, c, x, w);
    DiagonalsMixed(MixColumns(v, m, s), m, s, w, y, Skewed(w), GFour(Skewed(w), y));
  }

  // ---------------------------------------------------------------------------------------
  // The rounds of one message

  /** The words 0 to 15. */
  predicate Counts(m: Block) {
    && Vector(m[0]) == 0 && Vector(m[1]) == 1 && Vector(m[2]) == 2 && Vector(m[3]) == 3
    && Vector(m[4]) == 4 && Vector(m[5]) == 5 && Vector(m[6]) == 6 && Vector(m[7]) == 7
    && Vector(m[8]) == 8 && Vector(m[9]) == 9 && Vector(m[10]) == 10 && Vector(m[11]) == 11
    && Vector(m[12]) == 12 && Vector(m[13]) == 13 && Vector(m[14]) == 14 && Vector(m[15]) == 15
  }

  /** The extended state after each round. */
  function State0(): Columns {
    Columns(Quad(0x6b08_e647, 0x510e_527f, 0x6a09_e667, 0x510e_523f),
            Quad(0xbb67_ae85, 0x9b05_688c, 0xbb67_ae85, 0x9b05_688c),
            Quad(0x3c6e_f372, 0x1f83_d9ab, 0x3c6e_f372, 0xe07c_2654),
            Quad(0xa54f_f53a, 0x5be0_cd19, 0xa54f_f53a, 0x5be0_cd19))
  }

  function State1(): Columns {
    Columns(Quad(0xd4c3_0c9e, 0x53ef_79ed, 0x0bb9_4ea9, 0x416c_f22a),
            Quad(0xc32c_67dd, 0xfaa0_bca4, 0x4f2d_fbd1, 0xcd9d_b4be),
            Quad(0x7fd4_711a, 0x774f_7562, 0x7b07_83b8, 0xc6ce_ed35),
            Quad(0x2389_4c13, 0xf5c8_2c71, 0x5fb8_bfb3, 0x2ac1_f01c))
  }

  function State2(): Columns {
    Columns(Quad(0xed8e_322c, 0x8531_1245, 0xc0f9_dae0, 0xa31e_5fce),
            Quad(0xf050_a937, 0x9dd9_d31a, 0xf099_e41a, 0x46b4_a70e),
            Quad(0x4c2b_8032, 0xb5a9_123e, 0x6363_1aeb, 0x2756_365f),
            Quad(0x39b2_438e, 0x9d31_e2f2, 0x5df8_b907, 0xab89_9788))
  }

  function State3(): Columns {
    Columns(Quad(0x7151_68aa, 0x68e7_994b, 0xc9b1_7c15, 0x8386_4a85),
            Quad(0x2675_86f1, 0x8447_e81f, 0xd32c_05d7, 0x96a2_8151),
            Quad(0xfa9c_c9a2, 0x485c_997c, 0x23a7_b11e, 0x36c0_b1df),
            Quad(0x569b_541f, 0x0523_09f3, 0x0773_ce9f, 0xf992_a5cc))
  }

  function State4(): Columns {
    Columns(Quad(0x6400_fe71, 0x40fc_a6c7, 0x7401_c560, 0x3c2d_0d55),
            Quad(0x3642_4f60, 0xd637_374c, 0x7127_d791, 0xe738_a209),
            Quad(0x280d_0a1b, 0xd942_b0f6, 0xf06e_bbe9, 0x1cff_0c21),
            Quad(0x1e1f_5461, 0x5203_6787, 0x18d6_87e2, 0x6e6b_8f38))
  }

  function State5(): Columns {
    Columns(Quad(0xed68_f2da, 0x993d_6c21, 0x4c53_d1cc, 0x1566_8f31),
            Quad(0x12e0_2c2b, 0x28c4_b124, 0x69e3_6626, 0x0d12_09f7),
            Quad(0x1086_f6b7, 0xb332_1533, 0xde11_7da5, 0x2bda_44c2),
            Quad(0xeba1_bb48, 0x87a9_bbbd, 0x4c34_8142, 0x7bc0_e8b7))
  }

  function State6(): Columns {
    Columns(Quad(0x01c8_58c0, 0x55fd_1dc1, 0xcefa_b40f, 0x6a8e_83e3),
            Quad(0xeb79_c8be, 0xe912_9baa, 0xaa64_be6d, 0x4169_836d),
            Quad(0x3c03_7592, 0x6efa_53a1, 0xd5d8_0a38, 0x0fba_d6eb),
            Quad(0x2e82_2d20, 0x0524_382f, 0xc47d_21b7, 0xf790_9cf5))
  }

  function State7(): Columns {
    Columns(Quad(0x0363_8b6b, 0x8137_a3a0, 0xa8c0_c80d, 0x2208_759d),
            Quad(0xf417_0c61, 0xeb34_3d61, 0x8460_c4e9, 0x34c1_971b),
            Quad(0x3255_35d2, 0x2001_f4fc, 0x68b4_7369, 0xce87_2b1c),
            Quad(0xd416_32cc, 0x3135_7f32, 0xc985_619e, 0x25b0_7a77))
  }

  function State8(): Columns {
    Columns(Quad(0x2cf6_c1f2, 0xfd4e_5650, 0x10b0_f09d, 0xf3c4_3dc6),
            Quad(0x8adf_6979, 0x73ad_50d8, 0x1389_7a9a, 0xb9b4_d0e6),
            Quad(0x1377_6c9e, 0xc8a3_23c5, 0x28c8_3a32, 0xd5b8_886b),
            Quad(0xada6_cb4e, 0x1fa9_3d2d, 0xd6ca_e387, 0x4c34_8fed))
  }

  function State9(): Columns {
    Columns(Quad(0x17f6_93e5, 0x264d_5d3e, 0x8efb_c62d, 0x9ea9_212f),
            Quad(0xb95b_e9c8, 0x2e71_4feb, 0x8ee2_d107, 0x6ca0_9475),
            Quad(0x5ac4_dde8, 0x83f7_98aa, 0xad91_46c0, 0xefaa_4a0f),
            Quad(0x6dda_3fa7, 0xf7cc_3152, 0x7a73_6f14, 0xb4d5_de7d))
  }

  function State10(): Columns {
    Columns(Quad(0xded2_da38, 0x161e_01e0, 0x739e_ab1b, 0xfa93_03e5),
            Quad(0x5933_63a8, 0xcfcf_5899, 0x4a02_2fd4, 0xfd7e_a8c3),
            Quad(0xf058_0298, 0xbb70_7a03, 0xd1e3_8f1d, 0x9c8b_aa0d),
            Quad(0x4892_b5f9, 0xebe1_e15e, 0xf2ec_4e73, 0x964b_5477))
  }

  lemma OneMoreRound(v: Block, m: Block, i: nat, w: Block, s: Permutation)
    requires i < 10 && w == Rounds(v, m, i) && s == SIGMA[i]
    ensures Rounds(v, m, i + 1) == Round(w, m, s)
  {
  }

  lemma Evaluated0()
    ensures FullRound(State0(), Eight(0, 1, 2, 3, 4, 5, 6, 7), Eight(8, 9, 10, 11, 12, 13, 14, 15)) == State1()
  {
  }

  lemma Round0(v: Block, m: Block)
    requires Counts(m) && IsState(Rounds(v, m, 0), State0())
    ensures IsState(Rounds(v, m, 1), State1())
  {
    OneMoreRound(v, m, 0, Rounds(v, m, 0), SIGMA_0);
    RoundIsFullRound(Rounds(v, m, 0), m, SIGMA_0, State0(),
                     Eight(0, 1, 2, 3, 4, 5, 6, 7), Eight(8, 9, 10, 11, 12, 13, 14, 15));
    Evaluated0();
  }

  lemma Evaluated1()
    ensures FullRound(State1(), Eight(14, 10, 4, 8, 9, 15, 13, 6), Eight(1, 12, 0, 2, 11, 7, 5, 3)) == State2()
  {
  }

  lemma Round1(v: Block, m: Block)
    requires Counts(m) && IsState(Rounds(v, m, 1), State1())
    ensures IsState(Rounds(v, m, 2), State2())
  {
    OneMoreRound(v, m, 1, Rounds(v, m, 1), SIGMA_1);
    RoundIsFullRound(Rounds(v, m, 1), m, SIGMA_1, State1(),
                     Eight(14, 10, 4, 8, 9, 15, 13, 6), Eight(1, 12, 0, 2, 11, 7, 5, 3));
    Evaluated1();
  }

  lemma Evaluated2()
    ensures FullRound(State2(), Eight(11, 8, 12, 0, 5, 2, 15, 13), Eight(10, 14, 3, 6, 7, 1, 9, 4)) == State3()
  {
  }

  lemma Round2(v: Block, m: Block)
    requires Counts(m) && IsState(Rounds(v, m, 2), State2())
    ensures IsState(Rounds(v, m, 3), State3())
  {
    OneMoreRound(v, m, 2, Rounds(v, m, 2), SIGMA_2);
    RoundIsFullRound(Rounds(v, m, 2), m, SIGMA_2, State2(),
                     Eight(11, 8, 12, 0, 5, 2, 15, 13), Eight(10, 14, 3, 6, 7, 1, 9, 4));
    Evaluated2();
  }

  lemma Evaluated3()
    ensures FullRound(State3(), Eight(7, 9, 3, 1, 13, 12, 11, 14), Eight(2, 6, 5, 10, 4, 0, 15, 8)) == State4()
  {
  }

  lemma Round3(v: Block, m: Block)
    requires Counts(m) && IsState(Rounds(v, m, 3), State3())
    ensures IsState(Rounds(v, m, 4), State4())
  {
    OneMoreRound(v, m, 3, Rounds(v, m, 3), SIGMA_3);
    RoundIsFullRound(Rounds(v, m, 3), m, SIGMA_3, State3(),
                     Eight(7, 9, 3, 1, 13, 12, 11, 14), Eight(2, 6, 5, 10, 4, 0, 15, 8));
    Evaluated3();
  }

  lemma Evaluated4()
    ensures FullRound(State4(), Eight(9, 0, 5, 7, 2, 4, 10, 15), Eight(14, 1, 11, 12, 6, 8, 3, 13)) == State5()
  {
  }

  lemma Round4(v: Block, m: Block)
    requires Counts(m) && IsState(Rounds(v, m, 4), State4())
    ensures IsState(Rounds(v, m, 5), State5())
  {
    OneMoreRound(v, m, 4, Rounds(v, m, 4), SIGMA_4);
    RoundIsFullRound(Rounds(v, m, 4), m, SIGMA_4, State4(),
                     Eight(9, 0, 5, 7, 2, 4, 10, 15), Eight(14, 1, 11, 12, 6, 8, 3, 13));
    Evaluated4();
  }

  lemma Evaluated5()
    ensures FullRound(State5(), Eight(2, 12, 6, 10, 0, 11, 8, 3), Eight(4, 13, 7, 5, 15, 14, 1, 9)) == State6()
  {
  }

  lemma Round5(v: Block, m: Block)
    requires Counts(m) && IsState(Rounds(v, m, 5), State5())
    ensures IsState(Rounds(v, m, 6), State6())
  {
    OneMoreRound(v, m, 5, Rounds(v, m, 5), SIGMA_5);
    RoundIsFullRound(Rounds(v, m, 5), m, SIGMA_5, State5(),
                     Eight(2, 12, 6, 10, 0, 11, 8, 3), Eight(4, 13, 7, 5, 15, 14, 1, 9));
    Evaluated5();
  }

  lemma Evaluated6()
    ensures FullRound(State6(), Eight(12, 5, 1, 15, 14, 13, 4, 10), Eight(0, 7, 6, 3, 9, 2, 8, 11)) == State7()
  {
  }

  lemma Round6(v: Block, m: Block)
    requires Counts(m) && IsState(Rounds(v, m, 6), State6())
    ensures IsState(Rounds(v, m, 7), State7())
  {
    OneMoreRound(v, m, 6, Rounds(v, m, 6), SIGMA_6);
    RoundIsFullRound(Rounds(v, m, 6), m, SIGMA_6, State6(),
                     Eight(12, 5, 1, 15, 14, 13, 4, 10), Eight(0, 7, 6, 3, 9, 2, 8, 11));
    Evaluated6();
  }

  lemma Evaluated7()
    ensures FullRound(State7(), Eight(13, 11, 7, 14, 12, 1, 3, 9), Eight(5, 0, 15, 4, 8, 6, 2, 10)) == State8()
  {
  }

  lemma Round7(v: Block, m: Block)
    requires Counts(m) && IsState(Rounds(v, m, 7), State7())
    ensures IsState(Rounds(v, m, 8), State8())
  {
    OneMoreRound(v, m, 7, Rounds(v, m, 7), SIGMA_7);
    RoundIsFullRound(Rounds(v, m, 7), m, SIGMA_7, State7(),
                     Eight(13, 11, 7, 14, 12, 1, 3, 9), Eight(5, 0, 15, 4, 8, 6, 2, 10));
    Evaluated7();
  }

  lemma Evaluated8()
    ensures FullRound(State8(), Eight(6, 15, 14, 9, 11, 3, 0, 8), Eight(12, 2, 13, 7, 1, 4, 10, 5)) == State9()
  {
  }

  lemma Round8(v: Block, m: Block)
    requires Counts(m) && IsState(Rounds(v, m, 8), State8())
    ensures IsState(Rounds(v, m, 9), State9())
  {
    OneMoreRound(v, m, 8, Rounds(v, m, 8), SIGMA_8);
    RoundIsFullRound(Rounds(v, m, 8), m, SIGMA_8, State8(),
                     Eight(6, 15, 14, 9, 11, 3, 0, 8), Eight(12, 2, 13, 7, 1, 4, 10, 5));
    Evaluated8();
  }

  lemma Evaluated9()
    ensures FullRound(State9(), Eight(10, 2, 8, 4, 7, 6, 1, 5), Eight(15, 11, 9, 14, 3, 12, 13, 0)) == State10()
  {
  }

  lemma Round9(v: Block, m: Block)
    requires Counts(m) && IsState(Rounds(v, m, 9), State9())
    ensures IsState(Rounds(v, m, 10), State10())
  {
    OneMoreRound(v, m, 9, Rounds(v, m, 9), SIGMA_9);
    RoundIsFullRound(Rounds(v, m, 9), m, SIGMA_9, State9(),
                     Eight(10, 2, 8, 4, 7, 6, 1, 5), Eight(15, 11, 9, 14, 3, 12, 13, 0));
    Evaluated9();
  }

  // ---------------------------------------------------------------------------------------
  // Its beginning and its end

  lemma UpperDigits(n: nat, d4: nat, d5: nat, d6: nat, d7: nat)
    requires d4 < 16 && d5 < 16 && d6 < 16 && d7 < 16 && n == d4 + 16 * (d5 + 16 * (d6 + 16 * d7))
    ensures Vector(Bits(n, 16)) == Below(d4, Below(d5, Below(d6, Below(d7, 0))))
  {
    var n6 := d6 + 16 * d7;
    var n5 := d5 + 16 * n6;
    NextDigit(d7, d7, 0, 0, 0);
    NextDigit(n6, d6, d7, Vector(Bits(d7, 4)), 4);
    NextDigit(n5, d5, n6, Vector(Bits(n6, 8)), 8);
    NextDigit(n, d4, n5, Vector(Bits(n5, 12)), 12);
  }

  lemma LowerDigits(n: nat, h: nat, d0: nat, d1: nat, d2: nat, d3: nat)
    requires d0 < 16 && d1 < 16 && d2 < 16 && d3 < 16 && n == d0 + 16 * (d1 + 16 * (d2 + 16 * (d3 + 16 * h)))
    ensures Vector(Bits(n, 32)) == Below(d0, Below(d1, Below(d2, Below(d3, Vector(Bits(h, 16))))))
  {
    var n3 := d3 + 16 * h;
    var n2 := d2 + 16 * n3;
    var n1 := d1 + 16 * n2;
    NextDigit(n3, d3, h, Vector(Bits(h, 16)), 16);
    NextDigit(n2, d2, n3, Vector(Bits(n3, 20)), 20);
    NextDigit(n1, d1, n2, Vector(Bits(n2, 24)), 24);
    NextDigit(n, d0, n1, Vector(Bits(n1, 28)), 28);
  }

  /** Eight hexadecimal digits, the lowest first, are the number n and the vector x. */
  lemma Literal(n: nat, x: bv32, d0: nat, d1: nat, d2: nat, d3: nat, d4: nat, d5: nat, d6: nat, d7: nat)
    requires d0 < 16 && d1 < 16 && d2 < 16 && d3 < 16 && d4 < 16 && d5 < 16 && d6 < 16 && d7 < 16
    requires n == d0 + 16 * (d1 + 16 * (d2 + 16 * (d3 + 16 * (d4 + 16 * (d5 + 16 * (d6 + 16 * d7))))))
    requires x == Below(d0, Below(d1, Below(d2, Below(d3, Below(d4, Below(d5, Below(d6, Below(d7, 0))))))))
    ensures Vector(Bits(n, 32)) == x
  {
    var h := d4 + 16 * (d5 + 16 * (d6 + 16 * d7));
    UpperDigits(h, d4, d5, d6, d7);
    LowerDigits(n, h, d0, d1, d2, d3);
  }

  lemma IvVectors0()
    ensures Vector(Iv(0)) == 0x6a09_e667 && Vector(Iv(1)) == 0xbb67_ae85
  {
    Literal(IV_NUMBERS[0], 0x6a09_e667, 7, 6, 6, 14, 9, 0, 10, 6);
    Literal(IV_NUMBERS[1], 0xbb67_ae85, 5, 8, 14, 10, 7, 6, 11, 11);
  }

  lemma IvVectors1()
    ensures Vector(Iv(2)) == 0x3c6e_f372 && Vector(Iv(3)) == 0xa54f_f53a
  {
    Literal(IV_NUMBERS[2], 0x3c6e_f372, 2, 7, 3, 15, 14, 6, 12, 3);
    Literal(IV_NUMBERS[3], 0xa54f_f53a, 10, 3, 5, 15, 15, 4, 5, 10);
  }

  lemma IvVectors2()
    ensures Vector(Iv(4)) == 0x510e_527f && Vector(Iv(5)) == 0x9b05_688c
  {
    Literal(IV_NUMBERS[4], 0x510e_527f, 15, 7, 2, 5, 14, 0, 1, 5);
    Literal(IV_NUMBERS[5], 0x9b05_688c, 12, 8, 8, 6, 5, 0, 11, 9);
  }

  lemma IvVectors3()
    ensures Vector(Iv(6)) == 0x1f83_d9ab && Vector(Iv(7)) == 0x5be0_cd19
  {
    Literal(IV_NUMBERS[6], 0x1f83_d9ab, 11, 10, 9, 13, 3, 8, 15, 1);
    Literal(IV_NUMBERS[7], 0x5be0_cd19, 9, 1, 13, 12, 0, 14, 11, 5);
  }

  lemma ParameterVector()
    ensures Vector(ParameterWord(0)) == 0x0101_0020 && Vector(ToWord(64)) == 64
  {
    Literal(PARAMETERS[0], 0x0101_0020, 0, 2, 0, 0, 1, 0, 1, 0);
    Literal(64, 64, 0, 4, 0, 0, 0, 0, 0, 0);
  }

  lemma CountedWords(m: Block)
    requires forall i: nat :: i < 16 ==> m[i] == Bits(i, 32)
    ensures Counts(m)
  {
    Literal(0, 0, 0, 0, 0, 0, 0, 0, 0, 0);
    Literal(1, 1, 1, 0, 0, 0, 0, 0, 0, 0);
    Literal(2, 2, 2, 0, 0, 0, 0, 0, 0, 0);
    Literal(3, 3, 3, 0, 0, 0, 0, 0, 0, 0);
    Literal(4, 4, 4, 0, 0, 0, 0, 0, 0, 0);
    Literal(5, 5, 5, 0, 0, 0, 0, 0, 0, 0);
    Literal(6, 6, 6, 0, 0, 0, 0, 0, 0, 0);
    Literal(7, 7, 7, 0, 0, 0, 0, 0, 0, 0);
    Literal(8, 8, 8, 0, 0, 0, 0, 0, 0, 0);
    Literal(9, 9, 9, 0, 0, 0, 0, 0, 0, 0);
    Literal(10, 10, 10, 0, 0, 0, 0, 0, 0, 0);
    Literal(11, 11, 11, 0, 0, 0, 0, 0, 0, 0);
    Literal(12, 12, 12, 0, 0, 0, 0, 0, 0, 0);
    Literal(13, 13, 13, 0, 0, 0, 0, 0, 0, 0);
    Literal(14, 14, 14, 0, 0, 0, 0, 0, 0, 0);
    Literal(15, 15, 15, 0, 0, 0, 0, 0, 0, 0);
  }

  /** The initial state, as eight numbers. */
  predicate IsInitial(h: State) {
    && Vector(h[0]) == 0x6b08_e647 && Vector(h[1]) == 0xbb67_ae85 && Vector(h[2]) == 0x3c6e_f372
    && Vector(h[3]) == 0xa54f_f53a && Vector(h[4]) == 0x510e_527f && Vector(h[5]) == 0x9b05_688c
    && Vector(h[6]) == 0x1f83_d9ab && Vector(h[7]) == 0x5be0_cd19
  }

  lemma InitialVectors(h: State)
    requires h == InitialState()
    ensures IsInitial(h)
  {
    InitialWords(h);
    FirstVector();
    IvVectors0();
    IvVectors1();
    IvVectors2();
    IvVectors3();
  }

  lemma XorNothing(a: Word, z: Word)
    requires z == Bits(0, 32)
    ensures XorWords(a, z) == a
  {
    NoBits(32);
  }

  lemma ZeroParameter(i: nat, p: nat)
    requires 0 < i < 8 && p == PARAMETERS[i]
    ensures ParameterWord(i) == Bits(0, 32)
  {
    assert p == 0;
  }

  lemma InitialWords(h: State)
    requires h == InitialState()
    ensures h[0] == XorWords(Iv(0), ParameterWord(0)) && forall i: nat :: 0 < i < 8 ==> h[i] == Iv(i)
  {
    forall i: nat | 0 < i < 8
      ensures h[i] == Iv(i)
    {
      ZeroParameter(i, PARAMETERS[i]);
      XorNothing(Iv(i), ParameterWord(i));
    }
  }

  lemma FirstVector()
    ensures Vector(XorWords(Iv(0), ParameterWord(0))) == 0x6b08_e647
  {
    IvVectors0();
    ParameterVector();
    XorVector(Iv(0), ParameterWord(0));
  }

  lemma CounterVectors()
    ensures Vector(XorWords(Iv(4), ToWord(64))) == 0x510e_523f
    ensures Vector(XorWords(Iv(5), ToWord(64 / WORD_LIMIT))) == 0x9b05_688c
    ensures Vector(NotWord(Iv(6))) == 0xe07c_2654
  {
    IvVectors2();
    IvVectors3();
    ParameterVector();
    XorVector(Iv(4), ToWord(64));
    XorNothing(Iv(5), ToWord(64 / WORD_LIMIT));
    NotVector(Iv(6));
  }

  lemma ExtendedAt(h: State, low: Word, high: Word, v: Block, k: nat)
    requires k < 8 && v == Extended(h, low, high, true)
    ensures v[k] == h[k] && v[8 + k] == ExtensionWord(k, low, high, true)
  {
  }

  lemma ExtendedWords(h: State, low: Word, high: Word, v: Block)
    requires v == Extended(h, low, high, true)
    ensures forall i: nat :: i < 8 ==> v[i] == h[i]
    ensures v[8] == Iv(0) && v[9] == Iv(1) && v[10] == Iv(2) && v[11] == Iv(3)
    ensures v[12] == XorWords(Iv(4), low) && v[13] == XorWords(Iv(5), high)
    ensures v[14] == NotWord(Iv(6)) && v[15] == Iv(7)
  {
    forall i: nat | i < 8
      ensures v[i] == h[i] && v[8 + i] == ExtensionWord(i, low, high, true)
    {
      ExtendedAt(h, low, high, v, i);
    }
    assert v[8 + 0] == Iv(0) && v[8 + 1] == Iv(1) && v[8 + 2] == Iv(2) && v[8 + 3] == Iv(3);
    assert v[8 + 4] == XorWords(Iv(4), low) && v[8 + 5] == XorWords(Iv(5), high);
    assert v[8 + 6] == NotWord(Iv(6)) && v[8 + 7] == Iv(7);
  }

  lemma ExtendedState(h: State, v: Block)
    requires h == InitialState() && v == Extended(h, ToWord(64), ToWord(64 / WORD_LIMIT), true)
    ensures IsState(v, State0())
  {
    InitialVectors(h);
    ExtendedWords(h, ToWord(64), ToWord(64 / WORD_LIMIT), v);
    CounterVectors();
    IvVectors0();
    IvVectors1();
    IvVectors3();
  }

  // ---------------------------------------------------------------------------------------
  // The digest

  lemma Rounds0And1(v: Block, m: Block)
    requires Counts(m) && IsState(Rounds(v, m, 0), State0())
    ensures IsState(Rounds(v, m, 2), State2())
  {
    Round0(v, m);
    Round1(v, m);
  }

  lemma Rounds2And3(v: Block, m: Block)
    requires Counts(m) && IsState(Rounds(v, m, 2), State2())
    ensures IsState(Rounds(v, m, 4), State4())
  {
    Round2(v, m);
    Round3(v, m);
  }

  lemma Rounds4And5(v: Block, m: Block)
    requires Counts(m) && IsState(Rounds(v, m, 4), State4())
    ensures IsState(Rounds(v, m, 6), State6())
  {
    Round4(v, m);
    Round5(v, m);
  }

  lemma Rounds6And7(v: Block, m: Block)
    requires Counts(m) && IsState(Rounds(v, m, 6), State6())
    ensures IsState(Rounds(v, m, 8), State8())
  {
    Round6(v, m);
    Round7(v, m);
  }

  lemma Rounds8And9(v: Block, m: Block)
    requires Counts(m) && IsState(Rounds(v, m, 8), State8())
    ensures IsState(Rounds(v, m, 10), State10())
  {
    Round8(v, m);
    Round9(v, m);
  }

  lemma SixRounds(v: Block, m: Block)
    requires Counts(m) && IsState(v, State0())
    ensures IsState(Rounds(v, m, 6), State6())
  {
    Rounds0And1(v, m);
    Rounds2And3(v, m);
    Rounds4And5(v, m);
  }

  lemma TenRounds(v: Block, m: Block)
    requires Counts(m) && IsState(v, State0())
    ensures IsState(Rounds(v, m, 10), State10())
  {
    SixRounds(v, m);
    Rounds6And7(v, m);
    Rounds8And9(v, m);
  }

  /** The digest, as eight numbers. */
  predicate IsAnswer(d: State) {
    && Vector(d[0]) == 0xc644_9764 && Vector(d[1]) == 0xa856_e2f9 && Vector(d[2]) == 0x1dd5_7ef7
    && Vector(d[3]) == 0x1f31_0eb0 && Vector(d[4]) == 0xbd83_507a && Vector(d[5]) == 0xa9b4_98d6
    && Vector(d[6]) == 0x3878_09a5 && Vector(d[7]) == 0x264a_7830
  }

  lemma FoldedWord(h: Word, v: Word, w: Word, x: bv32, y: bv32, z: bv32, r: bv32)
    requires Vector(h) == x && Vector(v) == y && Vector(w) == z && r == Xor(Xor(x, y), z)
    ensures Vector(XorWords(XorWords(h, v), w)) == r
  {
    XorVector(h, v);
    XorVector(XorWords(h, v), w);
  }

  lemma FoldedAt(h: State, v: Block, d: State, i: nat, x: bv32, y: bv32, z: bv32, r: bv32)
    requires i < 8 && d == Fold(h, v)
    requires Vector(h[i]) == x && Vector(v[i]) == y && Vector(v[i + 8]) == z && r == Xor(Xor(x, y), z)
    ensures Vector(d[i]) == r
  {
    FoldedWord(h[i], v[i], v[i + 8], x, y, z, r);
  }

  lemma FirstAnswers(h: State, v: Block, d: State)
    requires IsInitial(h) && IsState(v, State10()) && d == Fold(h, v)
    ensures Vector(d[0]) == 0xc644_9764 && Vector(d[1]) == 0xa856_e2f9
    ensures Vector(d[2]) == 0x1dd5_7ef7 && Vector(d[3]) == 0x1f31_0eb0
  {
    FoldedAt(h, v, d, 0, 0x6b08_e647, 0xded2_da38, 0x739e_ab1b, 0xc644_9764);
    FoldedAt(h, v, d, 1, 0xbb67_ae85, 0x5933_63a8, 0x4a02_2fd4, 0xa856_e2f9);
    FoldedAt(h, v, d, 2, 0x3c6e_f372, 0xf058_0298, 0xd1e3_8f1d, 0x1dd5_7ef7);
    FoldedAt(h, v, d, 3, 0xa54f_f53a, 0x4892_b5f9, 0xf2ec_4e73, 0x1f31_0eb0);
  }

  lemma LastAnswers(h: State, v: Block, d: State)
    requires IsInitial(h) && IsState(v, State10()) && d == Fold(h, v)
    ensures Vector(d[4]) == 0xbd83_507a && Vector(d[5]) == 0xa9b4_98d6
    ensures Vector(d[6]) == 0x3878_09a5 && Vector(d[7]) == 0x264a_7830
  {
    FoldedAt(h, v, d, 4, 0x510e_527f, 0x161e_01e0, 0xfa93_03e5, 0xbd83_507a);
    FoldedAt(h, v, d, 5, 0x9b05_688c, 0xcfcf_5899, 0xfd7e_a8c3, 0xa9b4_98d6);
    FoldedAt(h, v, d, 6, 0x1f83_d9ab, 0xbb70_7a03, 0x9c8b_aa0d, 0x3878_09a5);
    FoldedAt(h, v, d, 7, 0x5be0_cd19, 0xebe1_e15e, 0x964b_5477, 0x264a_7830);
  }

  lemma CompressedAnswer(h: State, m: Block, v: Block, d: State)
    requires h == InitialState() && Counts(m)
    requires v == Extended(h, ToWord(64), ToWord(64 / WORD_LIMIT), true) && d == Fold(h, Rounds(v, m, 10))
    ensures IsAnswer(d)
  {
    ExtendedState(h, v);
    TenRounds(v, m);
    InitialVectors(h);
    FirstAnswers(h, Rounds(v, m, 10), d);
    LastAnswers(h, Rounds(v, m, 10), d);
  }

  lemma DigestIsFold(m: Block, h: State, v: Block)
    requires h == InitialState() && v == Extended(h, ToWord(64), ToWord(64 / WORD_LIMIT), true)
    ensures Digest(m, 10) == Fold(h, Rounds(v, m, 10))
  {
    OneBlock(Compressor(10), h, m);
    assert Compressor(10)(h, m, 64, true) == Compress(h, m, 64, true, 10);
  }

  /** The message of the words 0 to 15 has this digest. */
  lemma KnownAnswer(m: Block)
    requires forall i: nat :: i < 16 ==> m[i] == Bits(i, 32)
    ensures IsAnswer(Digest(m, 10))
  {
    var h := InitialState();
    var v := Extended(h, ToWord(64), ToWord(64 / WORD_LIMIT), true);
    CountedWords(m);
    DigestIsFold(m, h, v);
    CompressedAnswer(h, m, v, Digest(m, 10));
  }
}
