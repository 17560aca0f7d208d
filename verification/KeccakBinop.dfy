/** One 64-bit operation of the Keccak circuit: eight lookups in a byte table, or four in a table of
    16-bit rotations, routed to 16-bit limbs by constraints in the field. */
module KeccakBinop {
  import opened BitStrings
  import opened KeccakF
  import opened KeccakConstants
  import opened KeccakSchedule
  import opened KeccakWords
  import opened KeccakDatapath
  import M = Mersenne31

  // ---------------------------------------------------------------------------------------
  // Limbs and bytes

  type Limb = x: int | 0 <= x < 0x1_0000
  type Octet = x: int | 0 <= x < 0x100

  /** A lane as the circuit holds it: four 16-bit limbs. */
  datatype Limbs4 = Limbs4(l0: Limb, l1: Limb, l2: Limb, l3: Limb) {
    function Lane(): KeccakF.Lane { Bits(l0, 16) + Bits(l1, 16) + Bits(l2, 16) + Bits(l3, 16) }
  }

  lemma LimbBits(low: Octet, high: Octet)
    ensures Bits(low + 0x100 * high, 16) == Bits(low, 8) + Bits(high, 8)
  {
    SmallPowers();
    BitsAppend(low, high, 8, 0x100, 8);
  }

  predicate IsWidth(b: Bitstring, width: nat) { |b| == width }

  /** n is the number with these bits. */
  ghost predicate HasBits(n: nat, b: Bitstring) {
    forall width: nat :: IsWidth(b, width) ==> Bits(n, width) == b
  }

  /** A limb made of two bytes. */
  lemma BytesOfLimb(low: Octet, high: Octet, x: Limb, b: Bitstring)
    requires x == low + 0x100 * high && |b| == 16 && HasBits(x, b)
    ensures b == Bits(low, 8) + Bits(high, 8)
  {
    LimbBits(low, high);
    assert IsWidth(b, 16);
  }

  lemma LimbHasBits(x: Limb, b: Bitstring)
    requires b == Bits(x, 16)
    ensures HasBits(x, b)
  {
  }

  // ---------------------------------------------------------------------------------------
  // The tables

  datatype Table = XorTable | AndNotTable

  function Apply(t: Table, a: Bitstring, b: Bitstring): (c: Bitstring)
    requires |a| == |b|
    ensures |c| == |a|
  {
    match t
    case XorTable => XorWords(a, b)
    case AndNotTable => AndWords(NotWord(a), b)
  }

  predicate ByteWide(width: nat) { width == 8 }

  /** The bits of c are those of a and b combined. */
  ghost predicate InByteTable(t: Table, a: int, b: int, c: int) {
    && 0 <= a < 0x100 && 0 <= b < 0x100 && 0 <= c < 0x100
    && forall width: nat :: ByteWide(width) ==> Bits(c, width) == Apply(t, Bits(a, width), Bits(b, width))
  }

  lemma ApplyAppends(t: Table, a: Bitstring, b: Bitstring, c: Bitstring, d: Bitstring)
    requires |a| == |c| && |b| == |d|
    ensures Apply(t, a + b, c + d) == Apply(t, a, c) + Apply(t, b, d)
  {
    match t
    case XorTable =>
      XorAppends(a, b, c, d);
    case AndNotTable =>
      AndNotAppends(a, b, c, d);
  }

  lemma XorAppends(a: Bitstring, b: Bitstring, c: Bitstring, d: Bitstring)
    requires |a| == |c| && |b| == |d|
    ensures XorWords(a + b, c + d) == XorWords(a, c) + XorWords(b, d)
  {
  }

  lemma AndNotAppends(a: Bitstring, b: Bitstring, c: Bitstring, d: Bitstring)
    requires |a| == |c| && |b| == |d|
    ensures AndWords(NotWord(a + b), c + d) == AndWords(NotWord(a), c) + AndWords(NotWord(b), d)
  {
  }

  function Operation(t: Table, a: Lane, b: Lane): Lane {
    match t
    case XorTable => Xor(a, b)
    case AndNotTable => AndNot(a, b)
  }

  lemma OperationIsApply(t: Table, a: Lane, b: Lane)
    ensures Operation(t, a, b) == Apply(t, a, b)
  {
  }

  /** The two lookups of one limb. */
  datatype Lookups = Lookups(a0: int, a1: int, b0: int, b1: int, c0: int, c1: int)

  /** Two lookups and three routing constraints for one limb. */
  ghost predicate LimbRouted(t: Table, k: Lookups, x: Limb, y: Limb, z: Limb) {
    && InByteTable(t, k.a0, k.b0, k.c0) && InByteTable(t, k.a1, k.b1, k.c1)
    && M.Vanishes(k.a0 + 0x100 * k.a1 - x) && M.Vanishes(k.b0 + 0x100 * k.b1 - y) && M.Vanishes(k.c0 + 0x100 * k.c1 - z)
  }

  /** The lookups pin the limb of the result, and the bytes of a correct result are in the table. */
  lemma BytesDetermine(t: Table, k: Lookups, x: Bitstring, y: Bitstring, z: Bitstring)
    requires 0 <= k.a0 < 0x100 && 0 <= k.a1 < 0x100 && 0 <= k.b0 < 0x100 && 0 <= k.b1 < 0x100
    requires 0 <= k.c0 < 0x100 && 0 <= k.c1 < 0x100 && |x| == |y|
    requires x == Bits(k.a0, 8) + Bits(k.a1, 8) && y == Bits(k.b0, 8) + Bits(k.b1, 8)
    requires z == Bits(k.c0, 8) + Bits(k.c1, 8)
    ensures InByteTable(t, k.a0, k.b0, k.c0) && InByteTable(t, k.a1, k.b1, k.c1) <==> z == Apply(t, x, y)
  {
    assert ByteWide(8);
    ApplyAppends(t, Bits(k.a0, 8), Bits(k.a1, 8), Bits(k.b0, 8), Bits(k.b1, 8));
    var r0, r1 := Apply(t, Bits(k.a0, 8), Bits(k.b0, 8)), Apply(t, Bits(k.a1, 8), Bits(k.b1, 8));
    if z == r0 + r1 {
      SplitEqual(Bits(k.c0, 8), Bits(k.c1, 8), r0, r1);
    }
  }

  /** The same over the integers. */
  ghost predicate LimbMade(t: Table, k: Lookups, x: Limb, y: Limb, z: Limb) {
    && InByteTable(t, k.a0, k.b0, k.c0) && InByteTable(t, k.a1, k.b1, k.c1)
    && x == k.a0 + 0x100 * k.a1 && y == k.b0 + 0x100 * k.b1 && z == k.c0 + 0x100 * k.c1
  }

  lemma LimbExact(t: Table, k: Lookups, x: Limb, y: Limb, z: Limb)
    requires LimbRouted(t, k, x, y, z)
    ensures LimbMade(t, k, x, y, z)
  {
    M.VanishesExactly(k.a0 + 0x100 * k.a1 - x);
    M.VanishesExactly(k.b0 + 0x100 * k.b1 - y);
    M.VanishesExactly(k.c0 + 0x100 * k.c1 - z);
  }

  lemma LimbSound(t: Table, k: Lookups, x: Limb, y: Limb, z: Limb, xs: Bitstring, ys: Bitstring, zs: Bitstring)
    requires LimbMade(t, k, x, y, z) && HasBits(x, xs) && HasBits(y, ys) && HasBits(z, zs)
    requires |xs| == |ys| == |zs| == 16
    ensures zs == Apply(t, xs, ys)
  {
    BytesOfLimb(k.a0, k.a1, x, xs);
    BytesOfLimb(k.b0, k.b1, y, ys);
    BytesOfLimb(k.c0, k.c1, z, zs);
    BytesForce(t, k, xs, ys, zs);
  }

  lemma BytesForce(t: Table, k: Lookups, x: Bitstring, y: Bitstring, z: Bitstring)
    requires InByteTable(t, k.a0, k.b0, k.c0) && InByteTable(t, k.a1, k.b1, k.c1) && |x| == |y|
    requires x == Bits(k.a0, 8) + Bits(k.a1, 8) && y == Bits(k.b0, 8) + Bits(k.b1, 8)
    requires z == Bits(k.c0, 8) + Bits(k.c1, 8)
    ensures z == Apply(t, x, y)
  {
    BytesDetermine(t, k, x, y, z);
  }

  /** What the generator writes: the bytes of both operands and of the result. */
  function BytesOf(x: Limb, y: Limb, z: Limb): Lookups {
    Lookups(x % 0x100, x / 0x100, y % 0x100, y / 0x100, z % 0x100, z / 0x100)
  }

  lemma LimbComplete(t: Table, x: Limb, y: Limb, z: Limb)
    requires Bits(z, 16) == Apply(t, Bits(x, 16), Bits(y, 16))
    ensures LimbRouted(t, BytesOf(x, y, z), x, y, z)
  {
    LimbTables(t, x, y, z, BytesOf(x, y, z));
    Recomposed(x);
    Recomposed(y);
    Recomposed(z);
  }

  lemma LimbTables(t: Table, x: Limb, y: Limb, z: Limb, k: Lookups)
    requires Bits(z, 16) == Apply(t, Bits(x, 16), Bits(y, 16)) && k == BytesOf(x, y, z)
    ensures InByteTable(t, k.a0, k.b0, k.c0) && InByteTable(t, k.a1, k.b1, k.c1)
  {
    ByteBits(x, k.a0, k.a1);
    ByteBits(y, k.b0, k.b1);
    ByteBits(z, k.c0, k.c1);
    BytesDetermine(t, k, Bits(x, 16), Bits(y, 16), Bits(z, 16));
  }

  lemma ByteBits(x: Limb, low: int, high: int)
    requires low == x % 0x100 && high == x / 0x100
    ensures 0 <= low < 0x100 && 0 <= high < 0x100 && Bits(x, 16) == Bits(low, 8) + Bits(high, 8)
  {
    assert low + 0x100 * high == x;
    LimbBits(low, high);
  }

  lemma Recomposed(x: Limb)
    ensures M.Vanishes(x % 0x100 + 0x100 * (x / 0x100) - x)
  {
    assert x % 0x100 + 0x100 * (x / 0x100) - x == 0;
  }

  lemma SplitEqual(a: Bitstring, b: Bitstring, c: Bitstring, d: Bitstring)
    requires |a| == |c| && a + b == c + d
    ensures a == c && b == d
  {
    assert (a + b)[..|a|] == a && (c + d)[..|a|] == c;
    assert (a + b)[|a|..] == b && (c + d)[|a|..] == d;
  }

  // ---------------------------------------------------------------------------------------
  // A byte operation on a lane

  /** The eight lookups of a byte operation. */
  datatype Columns = Columns(k0: Lookups, k1: Lookups, k2: Lookups, k3: Lookups)

  ghost predicate BytesRouted(t: Table, k: Columns, x: Limbs4, y: Limbs4, z: Limbs4) {
    && LimbRouted(t, k.k0, x.l0, y.l0, z.l0) && LimbRouted(t, k.k1, x.l1, y.l1, z.l1)
    && LimbRouted(t, k.k2, x.l2, y.l2, z.l2) && LimbRouted(t, k.k3, x.l3, y.l3, z.l3)
  }

  predicate LimbsApplied(t: Table, x: Limbs4, y: Limbs4, z: Limbs4) {
    && Bits(z.l0, 16) == Apply(t, Bits(x.l0, 16), Bits(y.l0, 16))
    && Bits(z.l1, 16) == Apply(t, Bits(x.l1, 16), Bits(y.l1, 16))
    && Bits(z.l2, 16) == Apply(t, Bits(x.l2, 16), Bits(y.l2, 16))
    && Bits(z.l3, 16) == Apply(t, Bits(x.l3, 16), Bits(y.l3, 16))
  }

  lemma LimbsAreLane(t: Table, x: Limbs4, y: Limbs4, z: Limbs4)
    ensures LimbsApplied(t, x, y, z) <==> z.Lane() == Operation(t, x.Lane(), y.Lane())
  {
    OperationIsApply(t, x.Lane(), y.Lane());
    FourParts(t, Bits(x.l0, 16), Bits(x.l1, 16), Bits(x.l2, 16), Bits(x.l3, 16),
      Bits(y.l0, 16), Bits(y.l1, 16), Bits(y.l2, 16), Bits(y.l3, 16));
    FourEqual(Bits(z.l0, 16), Bits(z.l1, 16), Bits(z.l2, 16), Bits(z.l3, 16),
      Apply(t, Bits(x.l0, 16), Bits(y.l0, 16)), Apply(t, Bits(x.l1, 16), Bits(y.l1, 16)),
      Apply(t, Bits(x.l2, 16), Bits(y.l2, 16)), Apply(t, Bits(x.l3, 16), Bits(y.l3, 16)));
  }

  lemma FourParts(t: Table, x0: Bitstring, x1: Bitstring, x2: Bitstring, x3: Bitstring,
                  y0: Bitstring, y1: Bitstring, y2: Bitstring, y3: Bitstring)
    requires |x0| == |y0| && |x1| == |y1| && |x2| == |y2| && |x3| == |y3|
    ensures Apply(t, x0 + x1 + x2 + x3, y0 + y1 + y2 + y3)
         == Apply(t, x0, y0) + Apply(t, x1, y1) + Apply(t, x2, y2) + Apply(t, x3, y3)
  {
    ApplyAppends(t, x0, x1, y0, y1);
    ApplyAppends(t, x0 + x1, x2, y0 + y1, y2);
    ApplyAppends(t, x0 + x1 + x2, x3, y0 + y1 + y2, y3);
  }

  lemma FourEqual(a0: Bitstring, a1: Bitstring, a2: Bitstring, a3: Bitstring,
                  b0: Bitstring, b1: Bitstring, b2: Bitstring, b3: Bitstring)
    requires |a0| == |b0| && |a1| == |b1| && |a2| == |b2| && |a3| == |b3|
    ensures a0 + a1 + a2 + a3 == b0 + b1 + b2 + b3 <==> a0 == b0 && a1 == b1 && a2 == b2 && a3 == b3
  {
    if a0 + a1 + a2 + a3 == b0 + b1 + b2 + b3 {
      SplitEqual(a0 + a1 + a2, a3, b0 + b1 + b2, b3);
      SplitEqual(a0 + a1, a2, b0 + b1, b2);
      SplitEqual(a0, a1, b0, b1);
    }
  }

  /** Whatever the prover puts in the columns, the result is the operation on the operands. */
  lemma BytesSound(t: Table, k: Columns, x: Limbs4, y: Limbs4, z: Limbs4)
    requires BytesRouted(t, k, x, y, z)
    ensures z.Lane() == Operation(t, x.Lane(), y.Lane())
  {
    RoutedLimb(t, k.k0, x.l0, y.l0, z.l0);
    RoutedLimb(t, k.k1, x.l1, y.l1, z.l1);
    RoutedLimb(t, k.k2, x.l2, y.l2, z.l2);
    RoutedLimb(t, k.k3, x.l3, y.l3, z.l3);
    LimbsAreLane(t, x, y, z);
  }

  lemma RoutedLimb(t: Table, k: Lookups, x: Limb, y: Limb, z: Limb)
    requires LimbRouted(t, k, x, y, z)
    ensures Bits(z, 16) == Apply(t, Bits(x, 16), Bits(y, 16))
  {
    LimbExact(t, k, x, y, z);
    LimbHasBits(x, Bits(x, 16));
    LimbHasBits(y, Bits(y, 16));
    LimbHasBits(z, Bits(z, 16));
    LimbSound(t, k, x, y, z, Bits(x, 16), Bits(y, 16), Bits(z, 16));
  }

  function ByteColumns(x: Limbs4, y: Limbs4, z: Limbs4): Columns {
    Columns(BytesOf(x.l0, y.l0, z.l0), BytesOf(x.l1, y.l1, z.l1), BytesOf(x.l2, y.l2, z.l2), BytesOf(x.l3, y.l3, z.l3))
  }

  /** The triples the generator writes pass, for every correct result. */
  lemma BytesComplete(t: Table, x: Limbs4, y: Limbs4, z: Limbs4)
    requires z.Lane() == Operation(t, x.Lane(), y.Lane())
    ensures BytesRouted(t, ByteColumns(x, y, z), x, y, z)
  {
    LimbsAreLane(t, x, y, z);
    LimbComplete(t, x.l0, y.l0, z.l0);
    LimbComplete(t, x.l1, y.l1, z.l1);
    LimbComplete(t, x.l2, y.l2, z.l2);
    LimbComplete(t, x.l3, y.l3, z.l3);
  }

  // ---------------------------------------------------------------------------------------
  // The rotation table

  /** The key joins a limb and an amount below 16; the columns are what leaves the limb at the top
      and what stays, shifted up. */
  ghost predicate InRotationTable(key: int, left: int, right: int) {
    && 0 <= key < 0x10_0000 && 0 <= left < 0x1_0000 && 0 <= right < 0x1_0000
    && forall width: nat :: LimbWide(width) ==>
         && Bits(left, width) == Shr(Bits(key % 0x1_0000, width), 16 - key / 0x1_0000)
         && Bits(right, width) == Shl(Bits(key % 0x1_0000, width), key / 0x1_0000)
  }

  predicate LimbWide(width: nat) { width == 16 }

  /** The four lookups of a rotation. */
  datatype Turns = Turns(a0: int, a1: int, a2: int, a3: int, b0: int, b1: int, b2: int, b3: int,
                         c0: int, c1: int, c2: int, c3: int)

  ghost predicate KeyRouted(k: nat, key: int, left: int, right: int, x: Limb) {
    InRotationTable(key, left, right) && M.Vanishes(key - 0x1_0000 * k - x)
  }

  /** The limb sums, in the order they enter a result rotated by fewer than 16 bits. */
  function TurnSums(t: Turns): (int, int, int, int) {
    (t.c0 + t.b3, t.c1 + t.b0, t.c2 + t.b1, t.c3 + t.b2)
  }

  /** The sums moved by q limbs. */
  function Moved(s: (int, int, int, int), q: nat): (int, int, int, int) {
    if q == 0 then s
    else if q == 1 then (s.3, s.0, s.1, s.2)
    else if q == 2 then (s.2, s.3, s.0, s.1)
    else (s.1, s.2, s.3, s.0)
  }

  ghost predicate KeysRouted(k: nat, t: Turns, x: Limbs4) {
    && KeyRouted(k, t.a0, t.b0, t.c0, x.l0) && KeyRouted(k, t.a1, t.b1, t.c1, x.l1)
    && KeyRouted(k, t.a2, t.b2, t.c2, x.l2) && KeyRouted(k, t.a3, t.b3, t.c3, x.l3)
  }

  predicate SumsRouted(q: nat, t: Turns, z: Limbs4) {
    var s := Moved(TurnSums(t), q);
    M.Vanishes(s.0 - z.l0) && M.Vanishes(s.1 - z.l1) && M.Vanishes(s.2 - z.l2) && M.Vanishes(s.3 - z.l3)
  }

  ghost predicate RotationRouted(n: nat, t: Turns, x: Limbs4, z: Limbs4) {
    KeysRouted(n % 16, t, x) && SumsRouted(n / 16, t, z)
  }

  /** The key is the limb and the amount, and nothing else. */
  lemma KeyDetermined(k: nat, key: int, left: int, right: int, x: Limb, b: Bitstring)
    requires k < 16 && KeyRouted(k, key, left, right, x) && b == Bits(x, 16)
    ensures 0 <= left < 0x1_0000 && 0 <= right < 0x1_0000
    ensures HasBits(left, Shr(b, 16 - k)) && HasBits(right, Shl(b, k))
  {
    KeyParted(k, key, x);
    assert LimbWide(16);
  }

  lemma KeyParted(k: nat, key: int, x: Limb)
    requires k < 16 && 0 <= key < 0x10_0000 && M.Vanishes(key - 0x1_0000 * k - x)
    ensures key % 0x1_0000 == x && key / 0x1_0000 == k
  {
    M.VanishesExactly(key - 0x1_0000 * k - x);
  }

  /** A limb of the result: the low part of one limb over the high part of its neighbour. */
  lemma TurnedLimb(k: nat, right: nat, left: nat, z: nat, x: Bitstring, y: Bitstring, r: Bitstring)
    requires k < 16 && |x| == 16 && |y| == 16 && right + left == z
    requires HasBits(right, Shl(x, k)) && HasBits(left, Shr(y, 16 - k))
    requires r == y[16 - k..] + x[..16 - k]
    ensures HasBits(z, r)
  {
    ShiftsMeet(x, y, k);
    SumBits(right, left, z, Shl(x, k), Shr(y, 16 - k), r);
  }

  lemma SumBits(m: nat, n: nat, s: nat, a: Bitstring, b: Bitstring, r: Bitstring)
    requires s == m + n && |a| == |b| && HasBits(m, a) && HasBits(n, b) && Sum(a, b, false) == r
    ensures HasBits(s, r)
  {
    assert IsWidth(a, |a|) && IsWidth(b, |a|);
    BitsOfSum(m, n, false, |a|);
  }

  /** Rotating four limbs by fewer than 16 bits. */
  lemma RotLFewBits(x0: Bitstring, x1: Bitstring, x2: Bitstring, x3: Bitstring, k: nat)
    requires k < 16 && |x0| == |x1| == |x2| == |x3| == 16
    ensures RotL(x0 + x1 + x2 + x3, k)
         == (x3[16 - k..] + x0[..16 - k]) + (x0[16 - k..] + x1[..16 - k]) + (x1[16 - k..] + x2[..16 - k])
           + (x2[16 - k..] + x3[..16 - k])
  {
    var l: Lane := x0 + x1 + x2 + x3;
    RotLSplits(l, k);
    assert l[64 - k..] == x3[16 - k..];
    assert l[..64 - k] == x0 + x1 + x2 + x3[..16 - k];
    assert x0 == x0[..16 - k] + x0[16 - k..] && x1 == x1[..16 - k] + x1[16 - k..] && x2 == x2[..16 - k] + x2[16 - k..];
    RegroupLimbs(
      x3[16 - k..], x0[..16 - k], x0[16 - k..], x1[..16 - k], x1[16 - k..], x2[..16 - k], x2[16 - k..], x3[..16 - k]);
  }

  lemma RegroupLimbs(a: Bitstring, b: Bitstring, c: Bitstring, d: Bitstring, e: Bitstring, f: Bitstring,
                     g: Bitstring, h: Bitstring)
    ensures a + ((b + c) + (d + e) + (f + g) + h) == (a + b) + (c + d) + (e + f) + (g + h)
  {
  }

  /** Rotating by whole limbs. */
  lemma RotLLimbs(x0: Bitstring, x1: Bitstring, x2: Bitstring, x3: Bitstring)
    requires |x0| == |x1| == |x2| == |x3| == 16
    ensures RotL(x0 + x1 + x2 + x3, 16) == x3 + x0 + x1 + x2
    ensures RotL(x0 + x1 + x2 + x3, 32) == x2 + x3 + x0 + x1
    ensures RotL(x0 + x1 + x2 + x3, 48) == x1 + x2 + x3 + x0
  {
    var l: Lane := x0 + x1 + x2 + x3;
    RotLSplits(l, 16);
    RotLSplits(l, 32);
    RotLSplits(l, 48);
    assert l[48..] == x3 && l[..48] == x0 + x1 + x2;
    assert l[32..] == x2 + x3 && l[..32] == x0 + x1;
    assert l[16..] == x1 + x2 + x3 && l[..16] == x0;
  }

  lemma RotLTwice(a: Lane, n: nat, m: nat)
    ensures RotL(RotL(a, n), m) == RotL(a, n + m)
  {
    forall z: nat | z < 64
      ensures RotL(RotL(a, n), m)[z] == RotL(a, n + m)[z]
    {
      ModTwice(z, n, m);
    }
  }

  lemma ModTwice(z: int, n: int, m: int)
    ensures ((z - m) % 64 - n) % 64 == (z - (n + m)) % 64
  {
    var q := (z - m) / 64;
    assert (z - m) % 64 - n == z - (n + m) - 64 * q;
  }

  /** The sums are limbs, whatever field elements they are routed to. */
  lemma TurnSumsInRange(k: nat, t: Turns, x: Limbs4)
    requires k < 16 && KeysRouted(k, t, x)
    ensures TurnsInRange(t)
    ensures var s := TurnSums(t); s.0 < 0x1_0000 && s.1 < 0x1_0000 && s.2 < 0x1_0000 && s.3 < 0x1_0000
  {
    var x0, x1, x2, x3 := Bits(x.l0, 16), Bits(x.l1, 16), Bits(x.l2, 16), Bits(x.l3, 16);
    RotationKeys(k, t, x, x0, x1, x2, x3);
    SumInRange(k, t.c0, t.b3, x0, x3);
    SumInRange(k, t.c1, t.b0, x1, x0);
    SumInRange(k, t.c2, t.b1, x2, x1);
    SumInRange(k, t.c3, t.b2, x3, x2);
  }

  lemma SumInRange(k: nat, right: nat, left: nat, x: Bitstring, y: Bitstring)
    requires k < 16 && |x| == |y| == 16 && right < 0x1_0000 && left < 0x1_0000
    requires HasBits(right, Shl(x, k)) && HasBits(left, Shr(y, 16 - k))
    ensures right + left < 0x1_0000
  {
    assert IsWidth(Shl(x, k), 16) && IsWidth(Shr(y, 16 - k), 16);
    SmallPowers();
    PartsDisjoint(right, left, x, y, k);
  }

  /** Whatever the prover puts in the columns, the result is the rotated operand. */
  lemma RotationSound(n: nat, t: Turns, x: Limbs4, z: Limbs4)
    requires n < 64 && RotationRouted(n, t, x, z)
    ensures z.Lane() == RotL(x.Lane(), n)
  {
    var x0, x1, x2, x3 := Bits(x.l0, 16), Bits(x.l1, 16), Bits(x.l2, 16), Bits(x.l3, 16);
    RotationKeys(n % 16, t, x, x0, x1, x2, x3);
    SumsAreLimbs(t, n / 16, z);
    TurnsRotate(n, n % 16, t, z, x.Lane(), x0, x1, x2, x3);
  }

  ghost predicate TurnsHave(k: nat, t: Turns, x0: Bitstring, x1: Bitstring, x2: Bitstring, x3: Bitstring)
    requires k < 16 && |x0| == |x1| == |x2| == |x3| == 16
  {
    && t.b0 >= 0 && t.b1 >= 0 && t.b2 >= 0 && t.b3 >= 0 && t.c0 >= 0 && t.c1 >= 0 && t.c2 >= 0 && t.c3 >= 0
    && HasBits(t.b0, Shr(x0, 16 - k)) && HasBits(t.c0, Shl(x0, k))
    && HasBits(t.b1, Shr(x1, 16 - k)) && HasBits(t.c1, Shl(x1, k))
    && HasBits(t.b2, Shr(x2, 16 - k)) && HasBits(t.c2, Shl(x2, k))
    && HasBits(t.b3, Shr(x3, 16 - k)) && HasBits(t.c3, Shl(x3, k))
  }

  predicate TurnsInRange(t: Turns) {
    && 0 <= t.b0 < 0x1_0000 && 0 <= t.b1 < 0x1_0000 && 0 <= t.b2 < 0x1_0000 && 0 <= t.b3 < 0x1_0000
    && 0 <= t.c0 < 0x1_0000 && 0 <= t.c1 < 0x1_0000 && 0 <= t.c2 < 0x1_0000 && 0 <= t.c3 < 0x1_0000
  }

  lemma RotationKeys(k: nat, t: Turns, x: Limbs4, x0: Bitstring, x1: Bitstring, x2: Bitstring, x3: Bitstring)
    requires k < 16 && KeysRouted(k, t, x)
    requires x0 == Bits(x.l0, 16) && x1 == Bits(x.l1, 16) && x2 == Bits(x.l2, 16) && x3 == Bits(x.l3, 16)
    ensures TurnsHave(k, t, x0, x1, x2, x3) && TurnsInRange(t)
  {
    KeyDetermined(k, t.a0, t.b0, t.c0, x.l0, x0);
    KeyDetermined(k, t.a1, t.b1, t.c1, x.l1, x1);
    KeyDetermined(k, t.a2, t.b2, t.c2, x.l2, x2);
    KeyDetermined(k, t.a3, t.b3, t.c3, x.l3, x3);
  }

  lemma TurnsRotate(n: nat, k: nat, t: Turns, z: Limbs4, x: Lane, x0: Bitstring, x1: Bitstring, x2: Bitstring,
                    x3: Bitstring)
    requires n < 64 && k == n % 16 && |x0| == |x1| == |x2| == |x3| == 16 && x == x0 + x1 + x2 + x3
    requires TurnsHave(k, t, x0, x1, x2, x3)
    requires (z.l0, z.l1, z.l2, z.l3) == Moved(TurnSums(t), n / 16)
    ensures z.Lane() == RotL(x, n)
  {
    var r0, r1 := x3[16 - k..] + x0[..16 - k], x0[16 - k..] + x1[..16 - k];
    var r2, r3 := x1[16 - k..] + x2[..16 - k], x2[16 - k..] + x3[..16 - k];
    TurnedLimbs(k, t, TurnSums(t), x0, x1, x2, x3, r0, r1, r2, r3);
    RotLFewBits(x0, x1, x2, x3, k);
    MoveLimbs(n / 16, r0, r1, r2, r3, TurnSums(t), z, RotL(x, k));
    RotLTwice(x, k, 16 * (n / 16));
    assert k + 16 * (n / 16) == n;
  }

  lemma MoveLimbs(q: nat, r0: Bitstring, r1: Bitstring, r2: Bitstring, r3: Bitstring, s: (int, int, int, int),
                  z: Limbs4, x: Lane)
    requires q < 4 && |r0| == |r1| == |r2| == |r3| == 16 && x == r0 + r1 + r2 + r3
    requires s.0 >= 0 && s.1 >= 0 && s.2 >= 0 && s.3 >= 0
    requires HasBits(s.0, r0) && HasBits(s.1, r1) && HasBits(s.2, r2) && HasBits(s.3, r3)
    requires (z.l0, z.l1, z.l2, z.l3) == Moved(s, q)
    ensures z.Lane() == RotL(x, 16 * q)
  {
    RotLLimbs(r0, r1, r2, r3);
    RotLZero(x);
    if q == 0 {
      LaneOfBits(z, r0, r1, r2, r3);
    } else if q == 1 {
      LaneOfBits(z, r3, r0, r1, r2);
    } else if q == 2 {
      LaneOfBits(z, r2, r3, r0, r1);
    } else {
      LaneOfBits(z, r1, r2, r3, r0);
    }
  }

  lemma SumsAreLimbs(t: Turns, q: nat, z: Limbs4)
    requires q < 4 && TurnsInRange(t) && SumsRouted(q, t, z)
    ensures (z.l0, z.l1, z.l2, z.l3) == Moved(TurnSums(t), q)
  {
    var s := Moved(TurnSums(t), q);
    M.VanishesExactly(s.0 - z.l0);
    M.VanishesExactly(s.1 - z.l1);
    M.VanishesExactly(s.2 - z.l2);
    M.VanishesExactly(s.3 - z.l3);
  }

  lemma TurnedLimbs(k: nat, t: Turns, s: (int, int, int, int), x0: Bitstring, x1: Bitstring, x2: Bitstring,
                    x3: Bitstring,
                    r0: Bitstring, r1: Bitstring, r2: Bitstring, r3: Bitstring)
    requires k < 16 && |x0| == |x1| == |x2| == |x3| == 16 && s == TurnSums(t)
    requires TurnsHave(k, t, x0, x1, x2, x3)
    requires r0 == x3[16 - k..] + x0[..16 - k] && r1 == x0[16 - k..] + x1[..16 - k]
    requires r2 == x1[16 - k..] + x2[..16 - k] && r3 == x2[16 - k..] + x3[..16 - k]
    ensures HasBits(s.0, r0) && HasBits(s.1, r1) && HasBits(s.2, r2) && HasBits(s.3, r3)
  {
    TurnedLimb(k, t.c0, t.b3, s.0, x0, x3, r0);
    TurnedLimb(k, t.c1, t.b0, s.1, x1, x0, r1);
    TurnedLimb(k, t.c2, t.b1, s.2, x2, x1, r2);
    TurnedLimb(k, t.c3, t.b2, s.3, x3, x2, r3);
  }

  lemma LaneOfBits(z: Limbs4, r0: Bitstring, r1: Bitstring, r2: Bitstring, r3: Bitstring)
    requires |r0| == |r1| == |r2| == |r3| == 16
    requires HasBits(z.l0, r0) && HasBits(z.l1, r1) && HasBits(z.l2, r2) && HasBits(z.l3, r3)
    ensures z.Lane() == r0 + r1 + r2 + r3
  {
    assert IsWidth(r0, 16) && IsWidth(r1, 16) && IsWidth(r2, 16) && IsWidth(r3, 16);
  }

  lemma RotLZero(a: Lane)
    ensures RotL(a, 0) == a
  {
  }

  // ---------------------------------------------------------------------------------------
  // What the generator writes for a rotation

  /** A limb shifted down, and shifted up with the overflow dropped, bit by bit. */
  function Down(x: nat, m: nat): nat {
    if m == 0 then x else Down(x / 2, m - 1)
  }

  function Up(x: Limb, k: nat): Limb {
    if k == 0 then x else 2 * Up(x, k - 1) % 0x1_0000
  }

  function TurnsOf(x: Limbs4, k: nat): Turns
    requires k < 16
  {
    Turns(x.l0 + 0x1_0000 * k, x.l1 + 0x1_0000 * k, x.l2 + 0x1_0000 * k, x.l3 + 0x1_0000 * k,
          Down(x.l0, 16 - k), Down(x.l1, 16 - k), Down(x.l2, 16 - k), Down(x.l3, 16 - k),
          Up(x.l0, k), Up(x.l1, k), Up(x.l2, k), Up(x.l3, k))
  }

  lemma {:induction false} DownBits(x: nat, m: nat, width: nat, b: Bitstring)
    requires m <= width && x < Power(width) && b == Bits(x, width)
    ensures Bits(Down(x, m), width) == Shr(b, m) && Down(x, m) < Power(width)
    decreases m
  {
    if m == 0 {
      assert Shr(b, 0) == b;
    } else {
      assert b == [x % 2 == 1] + Bits(x / 2, width - 1);
      var h := Bits(x / 2, width);
      TopBitClear(x / 2, width);
      DownBits(x / 2, m - 1, width, h);
      assert h == b[1..] + [false];
      assert Shr(h, m - 1) == Shr(b, m);
    }
  }

  /** A number below half the range has no top bit. */
  lemma {:induction false} TopBitClear(x: nat, width: nat)
    requires width > 0 && 2 * x < Power(width)
    ensures Bits(x, width) == Bits(x, width - 1) + [false]
  {
    if width == 1 {
      assert x == 0 && Power(1) == 2;
      assert Bits(0, 1) == [false] + Bits(0, 0);
    } else {
      TopBitClear(x / 2, width - 1);
      assert Bits(x, width) == [x % 2 == 1] + (Bits(x / 2, width - 2) + [false]);
      assert Bits(x, width - 1) == [x % 2 == 1] + Bits(x / 2, width - 2);
    }
  }

  lemma {:induction false} UpBits(x: Limb, k: nat, b: Bitstring)
    requires k <= 16 && b == Bits(x, 16)
    ensures HasBits(Up(x, k), Shl(b, k))
  {
    if k == 0 {
      assert Shl(b, 0) == b;
    } else {
      UpBits(x, k - 1, b);
      DoubleBits(Up(x, k - 1), Up(x, k), Shl(b, k - 1));
      assert [false] + Shl(b, k - 1)[..15] == Shl(b, k);
    }
  }

  /** Doubling, with the overflow dropped. */
  lemma DoubleBits(y: Limb, z: Limb, b: Bitstring)
    requires z == 2 * y % 0x1_0000 && |b| == 16 && HasBits(y, b)
    ensures HasBits(z, [false] + b[..15])
  {
    DroppedTop(y, z);
    DoubleLow(y, y % 0x8000, y / 0x8000, z, b);
  }

  lemma DroppedTop(y: Limb, z: Limb)
    requires z == 2 * y % 0x1_0000
    ensures z == 2 * (y % 0x8000)
  {
  }

  lemma DoubleLow(y: nat, low: nat, top: nat, z: nat, b: Bitstring)
    requires y == low + 0x8000 * top && low < 0x8000 && z == 2 * low && |b| == 16 && HasBits(y, b)
    ensures HasBits(z, [false] + b[..15])
  {
    Powers();
    assert IsWidth(b, 16);
    BitsAppend(low, top, 15, 0x8000, 1);
    OneZero(low, 15);
    assert b[..15] == Bits(low, 15);
  }

  lemma OneZero(n: nat, width: nat)
    ensures Bits(2 * n, width + 1) == [false] + Bits(n, width)
  {
  }

  /** Numbers with no common bit add without leaving their range. */
  lemma {:induction false} DisjointSum(m: nat, n: nat, width: nat)
    requires m < Power(width) && n < Power(width)
    requires forall i :: 0 <= i < width ==> !(Bits(m, width)[i] && Bits(n, width)[i])
    ensures m + n < Power(width)
  {
    if width > 0 {
      var a, b := Bits(m, width), Bits(n, width);
      assert !(a[0] && b[0]);
      assert a[1..] == Bits(m / 2, width - 1) && b[1..] == Bits(n / 2, width - 1);
      DisjointSum(m / 2, n / 2, width - 1);
    }
  }

  /** The two parts of a limb are in the table. */
  lemma KeyComplete(x: Limb, k: nat)
    requires k < 16
    ensures KeyRouted(k, x + 0x1_0000 * k, Down(x, 16 - k), Up(x, k), x)
  {
    KeyParts(x, k, Down(x, 16 - k), Up(x, k), Bits(x, 16));
    KeyInTable(x, k, x + 0x1_0000 * k, Down(x, 16 - k), Up(x, k), Bits(x, 16));
  }

  lemma KeyParts(x: Limb, k: nat, left: nat, right: nat, b: Bitstring)
    requires k < 16 && left == Down(x, 16 - k) && right == Up(x, k) && b == Bits(x, 16)
    ensures left < 0x1_0000 && Bits(left, 16) == Shr(b, 16 - k) && Bits(right, 16) == Shl(b, k)
  {
    SmallPowers();
    DownBits(x, 16 - k, 16, b);
    UpBits(x, k, b);
    assert IsWidth(Shl(b, k), 16);
  }

  lemma KeyInTable(x: Limb, k: nat, key: int, left: nat, right: nat, b: Bitstring)
    requires k < 16 && key == x + 0x1_0000 * k && left < 0x1_0000 && right < 0x1_0000 && b == Bits(x, 16)
    requires Bits(left, 16) == Shr(b, 16 - k) && Bits(right, 16) == Shl(b, k)
    ensures InRotationTable(key, left, right) && M.Vanishes(key - 0x1_0000 * k - x)
  {
    assert key % 0x1_0000 == x && key / 0x1_0000 == k;
  }

  lemma KeysComplete(x: Limbs4, k: nat)
    requires k < 16
    ensures KeysRouted(k, TurnsOf(x, k), x)
  {
    KeyComplete(x.l0, k);
    KeyComplete(x.l1, k);
    KeyComplete(x.l2, k);
    KeyComplete(x.l3, k);
  }

  /** The limb sums are limbs: a part shifted up and a part shifted down never overlap. */
  lemma SumsBelow(x: Limb, y: Limb, k: nat)
    requires k < 16
    ensures Up(x, k) + Down(y, 16 - k) < 0x1_0000
  {
    SmallPowers();
    UpBits(x, k, Bits(x, 16));
    DownBits(y, 16 - k, 16, Bits(y, 16));
    assert IsWidth(Shl(Bits(x, 16), k), 16);
    PartsDisjoint(Up(x, k), Down(y, 16 - k), Bits(x, 16), Bits(y, 16), k);
  }

  lemma PartsDisjoint(m: nat, n: nat, x: Bitstring, y: Bitstring, k: nat)
    requires k < 16 && |x| == |y| == 16 && m < Power(16) && n < Power(16)
    requires Bits(m, 16) == Shl(x, k) && Bits(n, 16) == Shr(y, 16 - k)
    ensures m + n < Power(16)
  {
    DisjointSum(m, n, 16);
  }

  /** The triples the generator writes pass, for every correct result. */
  lemma RotationComplete(n: nat, x: Limbs4, z: Limbs4)
    requires n < 64 && z.Lane() == RotL(x.Lane(), n)
    ensures RotationRouted(n, TurnsOf(x, n % 16), x, z)
  {
    var k, q := n % 16, n / 16;
    var t := TurnsOf(x, k);
    var s := TurnSums(t);
    KeysComplete(x, k);
    SumsBelow(x.l0, x.l3, k);
    SumsBelow(x.l1, x.l0, k);
    SumsBelow(x.l2, x.l1, k);
    SumsBelow(x.l3, x.l2, k);
    var m := Moved(s, q);
    var w := Limbs4(m.0, m.1, m.2, m.3);
    SumsVanish(q, t, w);
    RotationSound(n, t, x, w);
    LaneInjective(z, w);
  }

  lemma SumsVanish(q: nat, t: Turns, w: Limbs4)
    requires (w.l0, w.l1, w.l2, w.l3) == Moved(TurnSums(t), q)
    ensures SumsRouted(q, t, w)
  {
  }

  lemma LaneInjective(z: Limbs4, w: Limbs4)
    requires z.Lane() == w.Lane()
    ensures z == w
  {
    FourEqual(Bits(z.l0, 16), Bits(z.l1, 16), Bits(z.l2, 16), Bits(z.l3, 16),
      Bits(w.l0, 16), Bits(w.l1, 16), Bits(w.l2, 16), Bits(w.l3, 16));
    SmallPowers();
    BitsInjective(z.l0, w.l0, 16);
    BitsInjective(z.l1, w.l1, 16);
    BitsInjective(z.l2, w.l2, 16);
    BitsInjective(z.l3, w.l3, 16);
  }

  // ---------------------------------------------------------------------------------------
  // Adding a round constant

  function Byte(a: Lane, i: nat): (b: Bitstring)
    requires i < 8
    ensures |b| == 8
  {
    a[8 * i..8 * i + 8]
  }

  /** The byte a key selects: five bits of round, three of position; no constant past the last. */
  function ConstantByte(key: int): (b: Bitstring)
    requires 0 <= key < 0x100
    ensures |b| == 8
  {
    if key % 32 <= ROUNDS then Byte(AdjustedConstant(key % 32).Join(), key / 32) else Zeros(8)
  }

  predicate SameKey(key: int, k: int) { key == k }

  /** y is the byte that the key selects. */
  ghost predicate Chosen(key: int, y: Bitstring) {
    |y| == 8 && forall k: int :: SameKey(key, k) && 0 <= k < 0x100 ==> y == ConstantByte(k)
  }

  ghost predicate InIotaTable(a: int, b: int, c: int) {
    && 0 <= a < 0x100 && 0 <= b < 0x100 && 0 <= c < 0x100
    && forall y: Bitstring :: Chosen(b, y) ==> Bits(c, 8) == XorWords(Bits(a, 8), y)
  }

  /** The keys of limb j, 32 apart, as one 16-bit value. */
  function IotaKeys(round: nat, j: nat): nat { 257 * round + 0x4040 * j + 0x2000 }

  ghost predicate IotaLimbRouted(round: nat, j: nat, k: Lookups, x: Limb, z: Limb) {
    && InIotaTable(k.a0, k.b0, k.c0) && InIotaTable(k.a1, k.b1, k.c1)
    && M.Vanishes(k.a0 + 0x100 * k.a1 - x) && M.Vanishes(k.b0 + 0x100 * k.b1 - IotaKeys(round, j))
    && M.Vanishes(k.c0 + 0x100 * k.c1 - z)
  }

  ghost predicate IotaRouted(round: nat, k: Columns, x: Limbs4, z: Limbs4) {
    && IotaLimbRouted(round, 0, k.k0, x.l0, z.l0) && IotaLimbRouted(round, 1, k.k1, x.l1, z.l1)
    && IotaLimbRouted(round, 2, k.k2, x.l2, z.l2) && IotaLimbRouted(round, 3, k.k3, x.l3, z.l3)
  }

  /** The keys are the round with positions 2 * j and 2 * j + 1. */
  lemma KeysOfLimb(round: nat, j: nat, b0: Octet, b1: Octet)
    requires round <= ROUNDS && j < 4 && M.Vanishes(b0 + 0x100 * b1 - IotaKeys(round, j))
    ensures b0 == round + 64 * j && b1 == round + 64 * j + 32
  {
    M.VanishesExactly(b0 + 0x100 * b1 - IotaKeys(round, j));
  }

  lemma XorDetermines(a0: Octet, a1: Octet, c0: Octet, c1: Octet, y0: Bitstring, y1: Bitstring,
                      x: Bitstring, z: Bitstring, y: Bitstring)
    requires |y0| == |y1| == 8 && x == Bits(a0, 8) + Bits(a1, 8) && z == Bits(c0, 8) + Bits(c1, 8) && y == y0 + y1
    ensures Bits(c0, 8) == XorWords(Bits(a0, 8), y0) && Bits(c1, 8) == XorWords(Bits(a1, 8), y1)
        <==> z == XorWords(x, y)
  {
    XorAppends(Bits(a0, 8), Bits(a1, 8), y0, y1);
    var r0, r1 := XorWords(Bits(a0, 8), y0), XorWords(Bits(a1, 8), y1);
    if z == r0 + r1 {
      SplitEqual(Bits(c0, 8), Bits(c1, 8), r0, r1);
    }
  }

  function LimbOf(a: Lane, j: nat): (b: Bitstring)
    requires j < 4
    ensures |b| == 16
  {
    a[16 * j..16 * j + 16]
  }

  lemma ConstantBytes(round: nat, j: nat, y: Bitstring) returns (y0: Bitstring, y1: Bitstring)
    requires round <= ROUNDS && j < 4 && y == LimbOf(DelayedConstant(round), j)
    ensures Chosen(round + 64 * j, y0) && Chosen(round + 64 * j + 32, y1) && y0 + y1 == y
  {
    var d := DelayedConstant(round);
    y0, y1 := Byte(d, 2 * j), Byte(d, 2 * j + 1);
    KeySelects(round, 2 * j, round + 64 * j, d);
    KeySelects(round, 2 * j + 1, round + 64 * j + 32, d);
    BytesJoin(d, j);
  }

  lemma KeySelects(round: nat, position: nat, key: int, d: Lane)
    requires round <= ROUNDS && position < 8 && key == round + 32 * position && d == DelayedConstant(round)
    ensures Chosen(key, Byte(d, position))
  {
    assert key % 32 == round && key / 32 == position;
    AdjustedIsDelayed(round);
  }

  lemma OnlySelection(key: int, y: Bitstring, z: Bitstring)
    requires 0 <= key < 0x100 && Chosen(key, y) && Chosen(key, z)
    ensures y == z
  {
    assert SameKey(key, key);
  }

  lemma BytesJoin(a: Lane, j: nat)
    requires j < 4
    ensures Byte(a, 2 * j) + Byte(a, 2 * j + 1) == LimbOf(a, j)
  {
  }

  lemma IotaEntry(a: int, b: int, c: int, y: Bitstring)
    requires InIotaTable(a, b, c) && Chosen(b, y)
    ensures Bits(c, 8) == XorWords(Bits(a, 8), y)
  {
  }

  /** The same over the integers, with the keys known. */
  ghost predicate IotaLimbMade(round: nat, j: nat, k: Lookups, x: Limb, z: Limb) {
    && InIotaTable(k.a0, k.b0, k.c0) && InIotaTable(k.a1, k.b1, k.c1)
    && x == k.a0 + 0x100 * k.a1 && z == k.c0 + 0x100 * k.c1
    && k.b0 == round + 64 * j && k.b1 == round + 64 * j + 32
  }

  lemma IotaLimbExact(round: nat, j: nat, k: Lookups, x: Limb, z: Limb)
    requires round <= ROUNDS && j < 4 && IotaLimbRouted(round, j, k, x, z)
    ensures IotaLimbMade(round, j, k, x, z)
  {
    M.VanishesExactly(k.a0 + 0x100 * k.a1 - x);
    M.VanishesExactly(k.c0 + 0x100 * k.c1 - z);
    KeysOfLimb(round, j, k.b0, k.b1);
  }

  lemma IotaLimbSound(round: nat, j: nat, k: Lookups, x: Limb, z: Limb, y: Bitstring, xs: Bitstring, zs: Bitstring)
    requires round <= ROUNDS && j < 4 && IotaLimbMade(round, j, k, x, z) && y == LimbOf(DelayedConstant(round), j)
    requires HasBits(x, xs) && HasBits(z, zs) && |xs| == |zs| == 16
    ensures zs == XorWords(xs, y)
  {
    BytesOfLimb(k.a0, k.a1, x, xs);
    BytesOfLimb(k.c0, k.c1, z, zs);
    var y0, y1 := ConstantBytes(round, j, y);
    IotaEntry(k.a0, k.b0, k.c0, y0);
    IotaEntry(k.a1, k.b1, k.c1, y1);
    XorDetermines(k.a0, k.a1, k.c0, k.c1, y0, y1, xs, zs, y);
  }

  lemma LanesFromLimbs(x: Limbs4, z: Limbs4, y: Lane)
    ensures Bits(z.l0, 16) == XorWords(Bits(x.l0, 16), LimbOf(y, 0))
         && Bits(z.l1, 16) == XorWords(Bits(x.l1, 16), LimbOf(y, 1))
         && Bits(z.l2, 16) == XorWords(Bits(x.l2, 16), LimbOf(y, 2))
         && Bits(z.l3, 16) == XorWords(Bits(x.l3, 16), LimbOf(y, 3))
        <==> z.Lane() == Xor(x.Lane(), y)
  {
    OperationIsApply(XorTable, x.Lane(), y);
    assert y == LimbOf(y, 0) + LimbOf(y, 1) + LimbOf(y, 2) + LimbOf(y, 3);
    FourParts(
      XorTable, Bits(x.l0, 16), Bits(x.l1, 16), Bits(x.l2, 16), Bits(x.l3, 16), LimbOf(y, 0), LimbOf(y, 1),
      LimbOf(y, 2), LimbOf(y, 3));
    FourEqual(Bits(z.l0, 16), Bits(z.l1, 16), Bits(z.l2, 16), Bits(z.l3, 16),
      XorWords(Bits(x.l0, 16), LimbOf(y, 0)), XorWords(Bits(x.l1, 16), LimbOf(y, 1)),
      XorWords(Bits(x.l2, 16), LimbOf(y, 2)), XorWords(Bits(x.l3, 16), LimbOf(y, 3)));
  }

  /** Whatever the prover puts in the columns, the result is the operand plus the constant. */
  lemma IotaSound(round: nat, k: Columns, x: Limbs4, z: Limbs4)
    requires round <= ROUNDS && IotaRouted(round, k, x, z)
    ensures z.Lane() == Xor(x.Lane(), DelayedConstant(round))
  {
    IotaRoutedLimb(round, 0, k.k0, x.l0, z.l0);
    IotaRoutedLimb(round, 1, k.k1, x.l1, z.l1);
    IotaRoutedLimb(round, 2, k.k2, x.l2, z.l2);
    IotaRoutedLimb(round, 3, k.k3, x.l3, z.l3);
    LanesFromLimbs(x, z, DelayedConstant(round));
  }

  lemma IotaRoutedLimb(round: nat, j: nat, k: Lookups, x: Limb, z: Limb)
    requires round <= ROUNDS && j < 4 && IotaLimbRouted(round, j, k, x, z)
    ensures Bits(z, 16) == XorWords(Bits(x, 16), LimbOf(DelayedConstant(round), j))
  {
    IotaLimbExact(round, j, k, x, z);
    LimbHasBits(x, Bits(x, 16));
    LimbHasBits(z, Bits(z, 16));
    IotaLimbSound(round, j, k, x, z, LimbOf(DelayedConstant(round), j), Bits(x, 16), Bits(z, 16));
  }

  function IotaBytes(round: nat, j: nat, x: Limb, z: Limb): Lookups {
    Lookups(x % 0x100, x / 0x100, round + 64 * j, round + 64 * j + 32, z % 0x100, z / 0x100)
  }

  lemma IotaLimbComplete(round: nat, j: nat, x: Limb, z: Limb, y: Bitstring)
    requires round <= ROUNDS && j < 4 && y == LimbOf(DelayedConstant(round), j)
    requires Bits(z, 16) == XorWords(Bits(x, 16), y)
    ensures IotaLimbRouted(round, j, IotaBytes(round, j, x, z), x, z)
  {
    var k := IotaBytes(round, j, x, z);
    ByteBits(x, k.a0, k.a1);
    ByteBits(z, k.c0, k.c1);
    var y0, y1 := ConstantBytes(round, j, y);
    XorDetermines(k.a0, k.a1, k.c0, k.c1, y0, y1, Bits(x, 16), Bits(z, 16), y);
    IotaRow(k.a0, k.b0, k.c0, y0);
    IotaRow(k.a1, k.b1, k.c1, y1);
    Recomposed(x);
    Recomposed(z);
    assert k.b0 + 0x100 * k.b1 - IotaKeys(round, j) == 0;
  }

  lemma IotaRow(a: Octet, b: Octet, c: Octet, y: Bitstring)
    requires Chosen(b, y) && Bits(c, 8) == XorWords(Bits(a, 8), y)
    ensures InIotaTable(a, b, c)
  {
    forall w: Bitstring | Chosen(b, w)
      ensures Bits(c, 8) == XorWords(Bits(a, 8), w)
    {
      OnlySelection(b, y, w);
    }
  }

  function IotaColumns(round: nat, x: Limbs4, z: Limbs4): Columns {
    Columns(
      IotaBytes(round, 0, x.l0, z.l0), IotaBytes(round, 1, x.l1, z.l1), IotaBytes(round, 2, x.l2, z.l2),
      IotaBytes(round, 3, x.l3, z.l3))
  }

  lemma IotaComplete(round: nat, x: Limbs4, z: Limbs4)
    requires round <= ROUNDS && z.Lane() == Xor(x.Lane(), DelayedConstant(round))
    ensures IotaRouted(round, IotaColumns(round, x, z), x, z)
  {
    LanesFromLimbs(x, z, DelayedConstant(round));
    IotaLimbComplete(round, 0, x.l0, z.l0, LimbOf(DelayedConstant(round), 0));
    IotaLimbComplete(round, 1, x.l1, z.l1, LimbOf(DelayedConstant(round), 1));
    IotaLimbComplete(round, 2, x.l2, z.l2, LimbOf(DelayedConstant(round), 2));
    IotaLimbComplete(round, 3, x.l3, z.l3, LimbOf(DelayedConstant(round), 3));
  }
}
