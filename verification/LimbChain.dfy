/** The multiplication relation of the signed circuits: op1 * op2 + addend == result modulo 2^64,
    on sign-extended operands, checked limb by limb with 16-bit carries. */
module LimbChain {
  import opened Words
  import opened Mersenne31

  const B24 := 0x100_0000
  const B48 := 0x1_0000_0000_0000

  /** A 32-bit factor split into bytes, with the sign that extends it to 64 bits. */
  datatype Factor = Factor(b0: int, b1: int, b2: int, b3: int, sign: int) {
    predicate Valid() {
      0 <= b0 < B8 && 0 <= b1 < B8 && 0 <= b2 < B8 && 0 <= b3 < B8 && IsBit(sign)
    }
    function Unsigned(): int { b0 + B8 * b1 + B16 * b2 + B24 * b3 }
    function Value(): int { Unsigned() - B32 * sign }
    /** Each byte of the sign extension. */
    function Ext(): int { 0xff * sign }
    function Bytes(): int { b0 + b1 + b2 + b3 }
  }

  /** The additive term: a register and the sign that extends it. */
  datatype Addend = Addend(low: int, high: int, sign: int) {
    predicate Valid() { 0 <= low < B16 && 0 <= high < B16 && IsBit(sign) }
    function Value(): int { low + B16 * high - B32 * sign }
  }

  /** A 64-bit result as 16-bit limbs. */
  datatype Limbs = Limbs(l0: int, l1: int, l2: int, l3: int) {
    predicate Valid() {
      0 <= l0 < B16 && 0 <= l1 < B16 && 0 <= l2 < B16 && 0 <= l3 < B16
    }
    function Value(): int { l0 + B16 * l1 + B32 * l2 + B48 * l3 }
  }

  datatype Carries = Carries(c0: int, c1: int, c2: int, c3: int)

  // The four limb sums before the incoming carry.

  function Sum0(a: Factor, b: Factor, r: Addend): int {
    a.b0 * b.b0 + B8 * (a.b0 * b.b1) + B8 * (a.b1 * b.b0) + r.low
  }

  function Sum1(a: Factor, b: Factor, r: Addend): int {
    a.b0 * b.b2 + B8 * (a.b0 * b.b3) + a.b1 * b.b1 + B8 * (a.b1 * b.b2)
    + a.b2 * b.b0 + B8 * (a.b2 * b.b1) + B8 * (a.b3 * b.b0) + r.high
  }

  function Sum2(a: Factor, b: Factor, r: Addend): int {
    a.b0 * b.Ext() + B8 * (a.b0 * b.Ext()) + a.b1 * b.b3 + B8 * (a.b1 * b.Ext())
    + a.b2 * b.b2 + B8 * (a.b2 * b.b3) + a.b3 * b.b1 + B8 * (a.b3 * b.b2)
    + a.Ext() * b.b0 + B8 * (a.Ext() * b.b1) + B8 * (a.Ext() * b.b0) + 0xffff * r.sign
  }

  function Sum3(a: Factor, b: Factor, r: Addend): int {
    a.b0 * b.Ext() + B8 * (a.b0 * b.Ext()) + a.b1 * b.Ext() + B8 * (a.b1 * b.Ext())
    + a.b2 * b.Ext() + B8 * (a.b2 * b.Ext()) + a.b3 * b.b3 + B8 * (a.b3 * b.Ext())
    + a.Ext() * b.b2 + B8 * (a.Ext() * b.b3) + a.Ext() * b.b1 + B8 * (a.Ext() * b.b2)
    + a.Ext() * b.b0 + B8 * (a.Ext() * b.b1) + B8 * (a.Ext() * b.b0) + 0xffff * r.sign
  }

  /** The four limb equations. */
  predicate Chain(a: Factor, b: Factor, r: Addend, m: Limbs, c: Carries) {
    && Sum0(a, b, r) == m.l0 + B16 * c.c0
    && c.c0 + Sum1(a, b, r) == m.l1 + B16 * c.c1
    && c.c1 + Sum2(a, b, r) == m.l2 + B16 * c.c2
    && c.c2 + Sum3(a, b, r) == m.l3 + B16 * c.c3
  }

  /** The same four equations as constraints in the field. */
  predicate FieldChain(a: Factor, b: Factor, r: Addend, m: Limbs, c: Carries) {
    && Vanishes(Sum0(a, b, r) - m.l0 - B16 * c.c0)
    && Vanishes(c.c0 + Sum1(a, b, r) - m.l1 - B16 * c.c1)
    && Vanishes(c.c1 + Sum2(a, b, r) - m.l2 - B16 * c.c2)
    && Vanishes(c.c2 + Sum3(a, b, r) - m.l3 - B16 * c.c3)
  }

  lemma ChainVanishes(a: Factor, b: Factor, r: Addend, m: Limbs, c: Carries)
    requires Chain(a, b, r, m, c)
    ensures FieldChain(a, b, r, m, c)
  {
    Difference(Sum0(a, b, r), m.l0 + B16 * c.c0);
    Difference(c.c0 + Sum1(a, b, r), m.l1 + B16 * c.c1);
    Difference(c.c1 + Sum2(a, b, r), m.l2 + B16 * c.c2);
    Difference(c.c2 + Sum3(a, b, r), m.l3 + B16 * c.c3);
  }

  lemma Difference(x: int, y: int)
    requires x == y
    ensures Vanishes(x - y)
  {
  }

  /** The field equations hold over the integers: no limb sum reaches the modulus. */
  lemma FieldChainExact(a: Factor, b: Factor, r: Addend, m: Limbs, c: Carries)
    requires a.Valid() && b.Valid() && r.Valid() && m.Valid() && FieldChain(a, b, r, m, c)
    requires 0 <= c.c0 < 0x800 && 0 <= c.c1 < 0x800 && 0 <= c.c2 < 0x800 && 0 <= c.c3 < 0x800
    ensures Chain(a, b, r, m, c)
  {
    SumBounds(a, b, r);
    ExactLimbs(Sum0(a, b, r), Sum1(a, b, r), Sum2(a, b, r), Sum3(a, b, r), m, c);
  }

  lemma ExactLimbs(s0: int, s1: int, s2: int, s3: int, p: Limbs, c: Carries)
    requires p.Valid()
    requires 0 <= s0 < 0x7ff_0000 && 0 <= s1 < 0x7ff_0000 && 0 <= s2 < 0x7ff_0000 && 0 <= s3 < 0x7ff_0000
    requires 0 <= c.c0 < 0x800 && 0 <= c.c1 < 0x800 && 0 <= c.c2 < 0x800 && 0 <= c.c3 < 0x800
    requires Vanishes(s0 - p.l0 - B16 * c.c0) && Vanishes(c.c0 + s1 - p.l1 - B16 * c.c1)
    requires Vanishes(c.c1 + s2 - p.l2 - B16 * c.c2) && Vanishes(c.c2 + s3 - p.l3 - B16 * c.c3)
    ensures s0 == p.l0 + B16 * c.c0 && c.c0 + s1 == p.l1 + B16 * c.c1
    ensures c.c1 + s2 == p.l2 + B16 * c.c2 && c.c2 + s3 == p.l3 + B16 * c.c3
  {
    VanishesExactly(s0 - p.l0 - B16 * c.c0);
    VanishesExactly(c.c0 + s1 - p.l1 - B16 * c.c1);
    VanishesExactly(c.c1 + s2 - p.l2 - B16 * c.c2);
    VanishesExactly(c.c2 + s3 - p.l3 - B16 * c.c3);
  }

  /** The limb sums, weighted, are the product of the sign-extended operands up to a multiple
      of 2^64. */
  lemma WeightedSums(a: Factor, b: Factor, r: Addend)
    ensures a.Value() * b.Value() + r.Value()
         == Sum0(a, b, r) + B16 * Sum1(a, b, r) + B32 * Sum2(a, b, r) + B48 * Sum3(a, b, r)
            + B64 * (a.sign * b.sign - b.sign * a.Bytes() - a.sign * b.Bytes() - r.sign)
  {
  }

  /** Soundness: equations with any carries force the relation modulo 2^64. */
  lemma ChainSound(a: Factor, b: Factor, r: Addend, m: Limbs, c: Carries)
    requires Chain(a, b, r, m, c)
    ensures (a.Value() * b.Value() + r.Value() - m.Value()) % B64 == 0
  {
    WeightedSums(a, b, r);
    MultipleOfB64(a.Value() * b.Value() + r.Value() - m.Value(),
      c.c3 + a.sign * b.sign - b.sign * a.Bytes() - a.sign * b.Bytes() - r.sign);
  }

  lemma MultipleOfB64(x: int, k: int)
    requires x == B64 * k
    ensures x % B64 == 0
  {
  }

  /** The carries the witness generator computes from the limb sums. */
  function CarriesOf(s0: int, s1: int, s2: int, s3: int, m: Limbs): Carries {
    var c0 := (s0 - m.l0) / B16;
    var c1 := (c0 + s1 - m.l1) / B16;
    var c2 := (c1 + s2 - m.l2) / B16;
    var c3 := (c2 + s3 - m.l3) / B16;
    Carries(c0, c1, c2, c3)
  }

  function ComputedCarries(a: Factor, b: Factor, r: Addend, m: Limbs): Carries {
    CarriesOf(Sum0(a, b, r), Sum1(a, b, r), Sum2(a, b, r), Sum3(a, b, r), m)
  }

  /** Completeness: when the relation holds modulo 2^64 every limb difference is a non-negative
      multiple of 2^16, and the carries fit in 9, 10, 11 and 11 bits. */
  lemma ChainComplete(a: Factor, b: Factor, r: Addend, m: Limbs)
    requires a.Valid() && b.Valid() && r.Valid() && m.Valid()
    requires (a.Value() * b.Value() + r.Value() - m.Value()) % B64 == 0
    ensures Chain(a, b, r, m, ComputedCarries(a, b, r, m))
    ensures var c := ComputedCarries(a, b, r, m);
      0 <= c.c0 < 0x200 && 0 <= c.c1 < 0x400 && 0 <= c.c2 < 0x800 && 0 <= c.c3 < 0x800
  {
    var k := WeightedSumsModB64(a, b, r, m);
    SumBounds(a, b, r);
    CarriesPropagate(Sum0(a, b, r), Sum1(a, b, r), Sum2(a, b, r), Sum3(a, b, r), m, k);
  }

  lemma WeightedSumsModB64(a: Factor, b: Factor, r: Addend, m: Limbs) returns (k: int)
    requires (a.Value() * b.Value() + r.Value() - m.Value()) % B64 == 0
    ensures Sum0(a, b, r) + B16 * Sum1(a, b, r) + B32 * Sum2(a, b, r) + B48 * Sum3(a, b, r) - m.Value() == B64 * k
  {
    WeightedSums(a, b, r);
    k := (a.Value() * b.Value() + r.Value() - m.Value()) / B64
       - (a.sign * b.sign - b.sign * a.Bytes() - a.sign * b.Bytes() - r.sign);
  }

  /** Divisibility of the weighted sum by 2^64 passes from limb to limb. */
  lemma CarriesPropagate(s0: int, s1: int, s2: int, s3: int, m: Limbs, k: int)
    requires m.Valid()
    requires s0 + B16 * s1 + B32 * s2 + B48 * s3 - m.Value() == B64 * k
    requires 0 <= s0 <= 0xff * 0xff * 513 + 0xffff && 0 <= s1 <= 0xff * 0xff * 1027 + 0xffff
    requires 0 <= s2 <= 0xff * 0xff * 1541 + 0xffff && 0 <= s3 <= 0xff * 0xff * 2055 + 0xffff
    ensures var c := CarriesOf(s0, s1, s2, s3, m);
      && s0 == m.l0 + B16 * c.c0 && c.c0 + s1 == m.l1 + B16 * c.c1
      && c.c1 + s2 == m.l2 + B16 * c.c2 && c.c2 + s3 == m.l3 + B16 * c.c3
      && 0 <= c.c0 < 0x200 && 0 <= c.c1 < 0x400 && 0 <= c.c2 < 0x800 && 0 <= c.c3 < 0x800
  {
    var c := CarriesOf(s0, s1, s2, s3, m);
    LimbStep(s0, m.l0, s1 - m.l1 + B16 * (s2 - m.l2) + B32 * (s3 - m.l3), B48 * k);
    LimbStep(c.c0 + s1, m.l1, s2 - m.l2 + B16 * (s3 - m.l3), B32 * k);
    LimbStep(c.c1 + s2, m.l2, s3 - m.l3, B16 * k);
    LimbStep(c.c2 + s3, m.l3, 0, k);
  }

  /** If a limb sum, together with what the higher limbs contribute, is a multiple of 2^16, its
      excess over the result limb is a non-negative carry. */
  lemma LimbStep(s: int, l: int, rest: int, k: int)
    requires s >= 0 && 0 <= l < B16
    requires s - l + B16 * rest == B16 * k
    ensures var c := (s - l) / B16;
      s == l + B16 * c && c + rest == k && 0 <= c <= s / B16
  {
    assert (s - l) / B16 == k - rest;
  }

  lemma NonNegativeProduct(x: int, y: int)
    requires x >= 0 && y >= 0
    ensures x * y >= 0
  {
  }

  lemma ByteProduct(x: int, y: int)
    requires 0 <= x < B8 && 0 <= y < B8
    ensures 0 <= x * y <= 0xff * 0xff
  {
    NonNegativeProduct(x, y);
    NonNegativeProduct(0xff - x, y);
    assert (0xff - x) * y == 0xff * y - x * y;
  }

  lemma SumBounds(a: Factor, b: Factor, r: Addend)
    requires a.Valid() && b.Valid() && r.Valid()
    ensures 0 <= Sum0(a, b, r) <= 0xff * 0xff * 513 + 0xffff
    ensures 0 <= Sum1(a, b, r) <= 0xff * 0xff * 1027 + 0xffff
    ensures 0 <= Sum2(a, b, r) <= 0xff * 0xff * 1541 + 0xffff
    ensures 0 <= Sum3(a, b, r) <= 0xff * 0xff * 2055 + 0xffff
  {
    RowBounds(a.b0, b);
    RowBounds(a.b1, b);
    RowBounds(a.b2, b);
    RowBounds(a.b3, b);
    RowBounds(a.Ext(), b);
  }

  lemma RowBounds(x: int, b: Factor)
    requires 0 <= x < B8 && b.Valid()
    ensures 0 <= x * b.b0 <= 0xff * 0xff && 0 <= x * b.b1 <= 0xff * 0xff
    ensures 0 <= x * b.b2 <= 0xff * 0xff && 0 <= x * b.b3 <= 0xff * 0xff
    ensures 0 <= x * b.Ext() <= 0xff * 0xff
  {
    ByteProduct(x, b.b0);
    ByteProduct(x, b.b1);
    ByteProduct(x, b.b2);
    ByteProduct(x, b.b3);
    ByteProduct(x, b.Ext());
  }
}
