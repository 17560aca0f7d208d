/** Identities of 32-bit vectors. */
module VectorFacts {

  function Cons(b: bool, p: bv32): bv32 { if b then 1 | (p << 1) else p << 1 }

  function Xor(p: bv32, q: bv32): bv32 { p ^ q }

  function And(p: bv32, q: bv32): bv32 { p & q }

  function Add(p: bv32, q: bv32): bv32 { p + q }

  // ---------------------------------------------------------------------------------------
  // One bit below the others

  lemma Even(u: bv32, v: bv32, p: bv32, q: bv32)
    requires u == p << 1 && v == q << 1
    ensures u ^ v == (p ^ q) << 1 && u & v == (p & q) << 1
  {
  }

  lemma OddEven(u: bv32, v: bv32, p: bv32, q: bv32)
    requires u == 1 | (p << 1) && v == q << 1
    ensures u ^ v == 1 | ((p ^ q) << 1) && u & v == (p & q) << 1
  {
  }

  lemma EvenOdd(u: bv32, v: bv32, p: bv32, q: bv32)
    requires u == p << 1 && v == 1 | (q << 1)
    ensures u ^ v == 1 | ((p ^ q) << 1) && u & v == (p & q) << 1
  {
  }

  lemma Odd(u: bv32, v: bv32, p: bv32, q: bv32)
    requires u == 1 | (p << 1) && v == 1 | (q << 1)
    ensures u ^ v == (p ^ q) << 1 && u & v == 1 | ((p & q) << 1)
  {
  }

  // ---------------------------------------------------------------------------------------
  // The carries of a sum

  function CarriesOf(x: bv32, y: bv32): bv32 { (x + y) ^ x ^ y }

  /** What the carries into x + y are, one bit up, when they are k. */
  function NextCarries(x: bv32, y: bv32, k: bv32): bv32 { (((x ^ k) & (y ^ k)) ^ k) << 1 }

  // Four bits at a time; all 32 at once are out of reach of the solver.

  lemma Carries0(x: bv32, y: bv32)
    ensures CarriesOf(x, y) & 0x0000_000f == NextCarries(x, y, CarriesOf(x, y)) & 0x0000_000f
  {
  }

  lemma Carries1(x: bv32, y: bv32)
    ensures CarriesOf(x, y) & 0x0000_00f0 == NextCarries(x, y, CarriesOf(x, y)) & 0x0000_00f0
  {
  }

  lemma Carries2(x: bv32, y: bv32)
    ensures CarriesOf(x, y) & 0x0000_0f00 == NextCarries(x, y, CarriesOf(x, y)) & 0x0000_0f00
  {
  }

  lemma Carries3(x: bv32, y: bv32)
    ensures CarriesOf(x, y) & 0x0000_f000 == NextCarries(x, y, CarriesOf(x, y)) & 0x0000_f000
  {
  }

  lemma Carries4(x: bv32, y: bv32)
    ensures CarriesOf(x, y) & 0x000f_0000 == NextCarries(x, y, CarriesOf(x, y)) & 0x000f_0000
  {
  }

  lemma Carries5(x: bv32, y: bv32)
    ensures CarriesOf(x, y) & 0x00f0_0000 == NextCarries(x, y, CarriesOf(x, y)) & 0x00f0_0000
  {
  }

  lemma Carries6(x: bv32, y: bv32)
    ensures CarriesOf(x, y) & 0x0f00_0000 == NextCarries(x, y, CarriesOf(x, y)) & 0x0f00_0000
  {
  }

  lemma Carries7(x: bv32, y: bv32)
    ensures CarriesOf(x, y) & 0x7000_0000 == NextCarries(x, y, CarriesOf(x, y)) & 0x7000_0000
  {
  }

  lemma Carries8(x: bv32, y: bv32)
    ensures CarriesOf(x, y) & 0x8000_0000 == NextCarries(x, y, CarriesOf(x, y)) & 0x8000_0000
  {
  }

  lemma Nibbles(u: bv32, v: bv32)
    requires u & 0x0000_000f == v & 0x0000_000f && u & 0x0000_00f0 == v & 0x0000_00f0
    requires u & 0x0000_0f00 == v & 0x0000_0f00 && u & 0x0000_f000 == v & 0x0000_f000
    requires u & 0x000f_0000 == v & 0x000f_0000 && u & 0x00f0_0000 == v & 0x00f0_0000
    requires u & 0x0f00_0000 == v & 0x0f00_0000 && u & 0x7000_0000 == v & 0x7000_0000
    requires u & 0x8000_0000 == v & 0x8000_0000
    ensures u == v
  {
  }

  lemma CarriesFollow(x: bv32, y: bv32)
    ensures CarriesOf(x, y) == NextCarries(x, y, CarriesOf(x, y))
  {
    Carries0(x, y);
    Carries1(x, y);
    Carries2(x, y);
    Carries3(x, y);
    Carries4(x, y);
    Carries5(x, y);
    Carries6(x, y);
    Carries7(x, y);
    Carries8(x, y);
    Nibbles(CarriesOf(x, y), NextCarries(x, y, CarriesOf(x, y)));
  }

  lemma XoredBack(x: bv32, y: bv32, z: bv32, k: bv32, u: bv32, w: bv32)
    requires k == z ^ x ^ y && u == x ^ y && w == u ^ k
    ensures w == z
  {
  }

  lemma XorTakenBack(x: bv32, y: bv32, z: bv32, k: bv32)
    requires k == z ^ x ^ y
    ensures Xor(Xor(x, y), k) == z
  {
    XoredBack(x, y, z, k, Xor(x, y), Xor(Xor(x, y), k));
  }

  /** With its carries a sum is an exclusive-or. */
  lemma SumFromCarries(x: bv32, y: bv32)
    ensures Xor(Xor(x, y), CarriesOf(x, y)) == Add(x, y)
  {
    XorTakenBack(x, y, x + y, CarriesOf(x, y));
  }

  /** Carries that agree on some low bits agree on the next four. */
  lemma FourCarries(x: bv32, y: bv32, k: bv32, l: bv32, m: bv32, n: bv32)
    requires k == NextCarries(x, y, k) && l == NextCarries(x, y, l)
    requires (k ^ l) & m == 0 && n == 15 | (m << 4)
    ensures (k ^ l) & n == 0
  {
  }

  lemma CarriesAreUnique(x: bv32, y: bv32, k: bv32, l: bv32)
    requires k == NextCarries(x, y, k) && l == NextCarries(x, y, l)
    ensures k == l
  {
    FourCarries(x, y, k, l, 0, 0xf);
    FourCarries(x, y, k, l, 0xf, 0xff);
    FourCarries(x, y, k, l, 0xff, 0xfff);
    FourCarries(x, y, k, l, 0xfff, 0xffff);
    FourCarries(x, y, k, l, 0xffff, 0xf_ffff);
    FourCarries(x, y, k, l, 0xf_ffff, 0xff_ffff);
    FourCarries(x, y, k, l, 0xff_ffff, 0xfff_ffff);
    FourCarries(x, y, k, l, 0xfff_ffff, 0xffff_ffff);
  }

  lemma MaskedOdd(p: bv32, m: bv32, rest: bv32, u: bv32)
    requires p & rest == p && rest == m >> 1 && m & 1 == 1 && u == 1 | (p << 1)
    ensures u & m == u
  {
  }

  lemma MaskedEven(p: bv32, m: bv32, rest: bv32, u: bv32)
    requires p & rest == p && rest == m >> 1 && u == p << 1
    ensures u & m == u
  {
  }

  // ---------------------------------------------------------------------------------------
  // Shifts and rotations

  function Shl2(p: bv32): bv32 { p << 2 }

  function Shl4(p: bv32): bv32 { p << 4 }

  function Shl8(p: bv32): bv32 { p << 8 }

  function Shl16(p: bv32): bv32 { p << 16 }

  lemma ShlTwice(p: bv32)
    ensures Cons(false, Cons(false, p)) == Shl2(p)
  {
  }

  lemma Shl2Twice(p: bv32)
    ensures Shl2(Shl2(p)) == Shl4(p)
  {
  }

  lemma Shl4Twice(p: bv32)
    ensures Shl4(Shl4(p)) == Shl8(p)
  {
  }

  lemma Shl8Twice(p: bv32)
    ensures Shl8(Shl8(p)) == Shl16(p)
  {
  }

  lemma Shl16Twice(p: bv32)
    ensures Shl16(Shl16(p)) == 0
  {
  }

  function Ror16(x: bv32): bv32 { (x >> 16) | (x << 16) }

  function Ror12(x: bv32): bv32 { (x >> 12) | (x << 20) }

  function Ror8(x: bv32): bv32 { (x >> 8) | (x << 24) }

  function Ror7(x: bv32): bv32 { (x >> 7) | (x << 25) }

  lemma Turned16(a: bv32, b: bv32)
    requires And(a, 0xffff) == a && And(b, 0xffff) == b
    ensures Xor(b, Shl16(a)) == Ror16(Xor(a, Shl16(b)))
  {
  }

  lemma Turned12(a: bv32, b: bv32)
    requires And(a, 0xfff) == a && And(b, 0xf_ffff) == b
    ensures Xor(b, Shl4(Shl16(a))) == Ror12(Xor(a, Shl4(Shl8(b))))
  {
  }

  lemma Turned8(a: bv32, b: bv32)
    requires And(a, 0xff) == a && And(b, 0xff_ffff) == b
    ensures Xor(b, Shl8(Shl16(a))) == Ror8(Xor(a, Shl8(b)))
  {
  }

  lemma Turned7(a: bv32, b: bv32)
    requires And(a, 0x7f) == a && And(b, 0x1ff_ffff) == b
    ensures Xor(b, Cons(false, Shl8(Shl16(a)))) == Ror7(Xor(a, Cons(false, Shl2(Shl4(b)))))
  {
  }
}
