/** The field the circuits compute in: residues modulo the Mersenne prime 2^31 - 1.  That the
    modulus is prime is what makes the zero test and the inverse of the circuits sound. */
module Mersenne31 {
  import opened NumberTheory

  const P := 0x7FFF_FFFF

  /** A canonical field element. */
  type Felt = x: int | 0 <= x < P

  function Reduce(x: int): (r: Felt) {
    x % P
  }

  function Add(x: Felt, y: Felt): Felt { Reduce(x + y) }

  function Sub(x: Felt, y: Felt): Felt { Reduce(x - y) }

  function Mul(x: Felt, y: Felt): Felt { Reduce(x * y) }

  /** A constraint of a circuit: its polynomial, evaluated over the integers, vanishes in the
      field. */
  predicate Vanishes(e: int) {
    e % P == 0
  }

  /** A constraint whose polynomial cannot leave (-P, P) holds over the integers. */
  lemma VanishesExactly(e: int)
    requires Vanishes(e) && -P < e < P
    ensures e == 0
  {
  }

  lemma NoZeroDivisors(x: int, y: int)
    requires Vanishes(x * y)
    ensures Vanishes(x) || Vanishes(y)
  {
    ModulusIsPrime();
    EuclidLemma(x, y, P);
  }

  // ---------------------------------------------------------------------------------------
  // 2^31 - 1 is prime.  The group of units has elements of order 331 and of order 151, and
  // neither is trivial modulo any factor, so every prime factor is 1 modulo 331 * 151, which
  // already exceeds the square root of 2^31 - 1.

  function Sum(i: nat, j: nat): nat { i + j }

  /** f is a sequence of powers modulo P. */
  ghost predicate IsExponential(f: nat -> int) {
    forall i, j {:trigger Sum(i, j)} :: f(Sum(i, j)) == (f(i) * f(j)) % P
  }

  lemma AddExponents(f: nat -> int, i: nat, j: nat, x: int, y: int, z: int)
    requires IsExponential(f)
    requires f(i) == x && f(j) == y && (x * y) % P == z
    ensures f(i + j) == z
  {
    assert f(Sum(i, j)) == z;
  }

  const ROOT_331 := 272122089
  const ROOT_151 := 556613938

  lemma Root331(f: nat -> int)
    requires IsExponential(f) && f(1) == ROOT_331
    ensures f(331) == 1
  {
    AddExponents(f, 1, 1, 272122089, 272122089, 410221828);
    AddExponents(f, 2, 2, 410221828, 410221828, 1397792548);
    AddExponents(f, 4, 1, 1397792548, 272122089, 379095342);
    AddExponents(f, 5, 5, 379095342, 379095342, 471820594);
    AddExponents(f, 10, 10, 471820594, 471820594, 461624191);
    AddExponents(f, 20, 20, 461624191, 461624191, 1923005950);
    AddExponents(f, 40, 1, 1923005950, 272122089, 1090433);
    AddExponents(f, 41, 41, 1090433, 1090433, 1485670698);
    AddExponents(f, 82, 82, 1485670698, 1485670698, 2131047422);
    AddExponents(f, 164, 1, 2131047422, 272122089, 946096990);
    AddExponents(f, 165, 165, 946096990, 946096990, 813188876);
    AddExponents(f, 330, 1, 813188876, 272122089, 1);
  }

  lemma Root151(f: nat -> int)
    requires IsExponential(f) && f(1) == ROOT_151
    ensures f(151) == 1
  {
    AddExponents(f, 1, 1, 556613938, 556613938, 1757926241);
    AddExponents(f, 2, 2, 1757926241, 1757926241, 1964833331);
    AddExponents(f, 4, 4, 1964833331, 1964833331, 953591326);
    AddExponents(f, 8, 1, 953591326, 556613938, 974880537);
    AddExponents(f, 9, 9, 974880537, 974880537, 2093007239);
    AddExponents(f, 18, 18, 2093007239, 2093007239, 509832813);
    AddExponents(f, 36, 1, 509832813, 556613938, 746495793);
    AddExponents(f, 37, 37, 746495793, 746495793, 2125558292);
    AddExponents(f, 74, 1, 2125558292, 556613938, 251258427);
    AddExponents(f, 75, 75, 251258427, 251258427, 596943833);
    AddExponents(f, 150, 1, 596943833, 556613938, 1);
  }

  lemma {:induction false} RootOfUnity(b: int, r: nat)
    requires (b == ROOT_331 && r == 331) || (b == ROOT_151 && r == 151)
    ensures Pow(b, r) % P == 1
  {
    var f := (e: nat) => Pow(b, e) % P;
    forall i: nat, j: nat
      ensures f(Sum(i, j)) == (f(i) * f(j)) % P
    {
      PowAdd(b, i, j);
      ModMul(Pow(b, i), Pow(b, j), P);
    }
    assert f(1) == b by {
      assert Pow(b, 1) == b * Pow(b, 0) == b;
    }
    if r == 331 { Root331(f); } else { Root151(f); }
    assert f(r) == 1;
  }

  lemma NoSmallDivisor(r: int, c: int)
    requires r == 331 || r == 151
    requires 2 <= c < 19
    ensures r % c != 0
  {
    assert c == 2 || c == 3 || c == 4 || c == 5 || c == 6 || c == 7 || c == 8 || c == 9 || c == 10
        || c == 11 || c == 12 || c == 13 || c == 14 || c == 15 || c == 16 || c == 17 || c == 18;
  }

  lemma SmallPrime(r: int)
    requires r == 331 || r == 151
    ensures IsPrime(r)
  {
    if !IsPrime(r) {
      var d :| 1 < d < r && r % d == 0;
      var c := LeastDivisor(r, d);
      SmallRoot(c, r);
      NoSmallDivisor(r, c);
    }
  }

  lemma SmallRoot(c: nat, r: int)
    requires c * c <= r < 19 * 19
    ensures c < 19
  {
    assert c >= 19 ==> c * c >= 19 * 19;
  }

  lemma RemainderOfFactor(x: int, q: int)
    requires q > 0 && P % q == 0
    ensures (x % P) % q == x % q
  {
    var k := P / q;
    assert x == x % P + q * (k * (x / P)) by { assert x == P * (x / P) + x % P && P == q * k; }
    ModAddMultiple(x % P, k * (x / P), q);
  }

  /** A prime factor of the modulus is one more than a multiple of the order r of b. */
  lemma {:induction false} FactorIsOneModOrder(b: int, r: nat, u: int, q: int)
    requires IsPrime(q) && P % q == 0 && IsPrime(r)
    requires Pow(b, r) % P == 1 && ((b - 1) * u) % P == 1
    ensures (q - 1) % r == 0
  {
    DivModUnique(1, q, 0, 1);
    RemainderOfFactor(Pow(b, r), q);
    RemainderOfFactor((b - 1) * u, q);
    NontrivialUnit(b, Pow(b, r - 1), u, q);
    FermatLittle(b, q);
    OrderDivides(b, r, q - 1, q);
  }

  lemma NontrivialUnit(b: int, c: int, u: int, q: int)
    requires q > 1
    requires (b * c) % q == 1 && ((b - 1) * u) % q == 1
    ensures b % q != 0 && b % q != 1
  {
    NotDivisible(b, c, q);
    NotDivisible(b - 1, u, q);
    if b % q == 1 {
      DivModUnique(1, q, 0, 1);
      SameRemainder(b, 1, q);
    }
  }

  lemma NotDivisible(x: int, y: int, q: int)
    requires q > 1 && (x * y) % q == 1
    ensures x % q != 0
  {
    ModMulLeft(x, y, q);
    assert 0 * y == 0;
  }

  lemma {:induction false} FactorOfOrder(b: int, r: nat, u: int, q: int)
    requires (b == ROOT_331 && r == 331) || (b == ROOT_151 && r == 151)
    requires IsPrime(q) && P % q == 0 && ((b - 1) * u) % P == 1
    ensures (q - 1) % r == 0
  {
    SmallPrime(r);
    RootOfUnity(b, r);
    FactorIsOneModOrder(b, r, u, q);
  }

  lemma {:induction false} ModulusIsPrime()
    ensures IsPrime(P)
  {
    if !IsPrime(P) {
      var d :| 1 < d < P && P % d == 0;
      var q := LeastDivisor(P, d);
      FactorOfOrder(ROOT_331, 331, 411595504, q);
      FactorOfOrder(ROOT_151, 151, 2069584139, q);
      LargeFactor(q, (q - 1) / 331);
    }
  }

  lemma LargeFactor(q: int, i: int)
    requires q > 1 && q - 1 == 331 * i && (q - 1) % 151 == 0
    ensures q * q > P
  {
    SmallPrime(151);
    EuclidLemma(331, i, 151);
    assert q == 49981 * (i / 151) + 1;
    assert q * q >= 49982 * 49982;
  }

  // ---------------------------------------------------------------------------------------
  // Inverses

  lemma InverseExists(x: Felt) returns (inv: Felt)
    requires x != 0
    ensures Mul(x, inv) == 1
  {
    ModulusIsPrime();
    inv := Inverse(x, P);
  }

  /** The inverse of an element, zero for zero. */
  ghost function InverseOrZero(x: Felt): (inv: Felt)
    ensures x == 0 ==> inv == 0
    ensures x != 0 ==> Mul(x, inv) == 1
  {
    if x == 0 then 0
    else
      assert exists inv: Felt :: Mul(x, inv) == 1 by { var y := InverseExists(x); }
      var inv: Felt :| Mul(x, inv) == 1;
      inv
  }

  lemma InverseUnique(x: Felt, u: Felt, v: Felt)
    requires Mul(x, u) == 1 && Mul(x, v) == 1
    ensures u == v
  {
    SameRemainder(x * u, x * v, P);
    assert x * u - x * v == x * (u - v);
    NoZeroDivisors(x, u - v);
  }

  /** Repeated squaring: the e-th power becomes the (e * 2^k)-th. */
  method ExpPowerOf2(x: Felt, k: nat, ghost f: nat -> int, ghost e: nat) returns (r: Felt, ghost d: nat)
    requires IsExponential(f) && x == f(e)
    ensures d == e * Pow(2, k) && r == f(d)
  {
    var i := 0;
    r, d := x, e;
    while i < k
      invariant 0 <= i <= k
      invariant d == e * Pow(2, i) && r == f(d)
    {
      AddExponents(f, d, d, r, r, Mul(r, r));
      r, d := Mul(r, r), d + d;
      i := i + 1;
    }
  }

  method MulPowers(x: Felt, y: Felt, ghost f: nat -> int, ghost d: nat, ghost e: nat) returns (r: Felt, ghost g: nat)
    requires IsExponential(f) && x == f(d) && y == f(e)
    ensures g == d + e && r == f(g)
  {
    AddExponents(f, d, e, x, y, Mul(x, y));
    r, g := Mul(x, y), d + e;
  }

  lemma SmallPowersOfTwo()
    ensures Pow(2, 1) == 2 && Pow(2, 2) == 4 && Pow(2, 3) == 8 && Pow(2, 4) == 16 && Pow(2, 12) == 4096
  {
  }

  /** The addition chain for the exponent P - 2 computes the inverse: variables are named by the
      binary expansion of the exponent they hold. */
  method Invert(x: Felt) returns (inv: Felt)
    ensures inv == InverseOrZero(x)
  {
    if x == 0 { return 0; }
    ghost var f := (e: nat) => Pow(x, e) % P;
    PowersAreExponential(x);
    SmallPowersOfTwo();
    assert f(1) == x by { assert Pow(x, 1) == x * Pow(x, 0); }
    ghost var e, d, d5, d15, d255, d12, d16, d28;
    var t;
    t, e := ExpPowerOf2(x, 2, f, 1);
    var p101; p101, d5 := MulPowers(t, x, f, e, 1);
    t, e := ExpPowerOf2(p101, 1, f, d5);
    var p1111; p1111, d15 := MulPowers(t, p101, f, e, d5);
    t, e := ExpPowerOf2(p1111, 4, f, d15);
    var p11111111; p11111111, d255 := MulPowers(t, p1111, f, e, d15);
    var p111111110000; p111111110000, d := ExpPowerOf2(p11111111, 4, f, d255);
    var p12ones; p12ones, d12 := MulPowers(p111111110000, p1111, f, d, d15);
    t, e := ExpPowerOf2(p111111110000, 4, f, d);
    var p16ones; p16ones, d16 := MulPowers(t, p11111111, f, e, d255);
    t, e := ExpPowerOf2(p16ones, 12, f, d16);
    var p28ones; p28ones, d28 := MulPowers(t, p12ones, f, e, d12);
    t, e := ExpPowerOf2(p28ones, 3, f, d28);
    inv, e := MulPowers(t, p101, f, e, d5);
    assert e == P - 2;
    FermatInverse(x, e, inv);
    InverseUnique(x, inv, InverseOrZero(x));
  }

  lemma {:induction false} PowersAreExponential(x: int)
    ensures IsExponential((e: nat) => Pow(x, e) % P)
  {
    forall i: nat, j: nat
      ensures Pow(x, Sum(i, j)) % P == (Pow(x, i) % P * (Pow(x, j) % P)) % P
    {
      PowAdd(x, i, j);
      ModMul(Pow(x, i), Pow(x, j), P);
    }
  }

  lemma {:induction false} FermatInverse(x: Felt, e: nat, inv: Felt)
    requires x != 0 && e == P - 2 && inv == Pow(x, e) % P
    ensures Mul(x, inv) == 1
  {
    ModulusIsPrime();
    FermatLittle(x, P);
    assert Pow(x, e + 1) == x * Pow(x, e);
    ModMulLeft(Pow(x, e), x, P);
    assert inv * x == x * inv && Pow(x, e) * x == x * Pow(x, e);
  }
}
