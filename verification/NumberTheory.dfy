/** The elementary number theory behind the Mersenne31 field: remainders, inverses modulo a
    prime, Fermat's little theorem and the order of an element.  Everything is proved for an
    arbitrary prime; the field module instantiates it at 2^31 - 1. */
module NumberTheory {

  ghost predicate IsPrime(q: int) {
    q > 1 && forall d :: 1 < d < q ==> q % d != 0
  }

  function Pow(a: int, e: nat): int {
    if e == 0 then 1 else a * Pow(a, e - 1)
  }

  /** A multiple of m smaller than m in size is zero. */
  lemma SmallMultiple(m: int, d: int)
    requires -m < m * d < m
    ensures d == 0
  {
    assert d >= 1 ==> m * d >= m;
    assert d <= -1 ==> m * d <= -m;
  }

  /** Quotient and remainder are unique. */
  lemma DivModUnique(x: int, m: int, k: int, r: int)
    requires 0 <= r < m
    requires x == m * k + r
    ensures x / m == k && x % m == r
  {
    var d := x / m - k;
    assert m * d == r - x % m by {
      assert x == m * (x / m) + x % m;
    }
    SmallMultiple(m, d);
  }

  lemma ModAddMultiple(x: int, k: int, m: int)
    requires m > 0
    ensures (x + m * k) % m == x % m
  {
    assert x + m * k == m * (x / m + k) + x % m;
    DivModUnique(x + m * k, m, x / m + k, x % m);
  }

  lemma SameRemainder(x: int, y: int, m: int)
    requires m > 0 && x % m == y % m
    ensures (x - y) % m == 0
  {
    var k := x / m - y / m;
    assert x - y == 0 + m * k;
    ModAddMultiple(0, k, m);
  }

  lemma ModMulLeft(x: int, y: int, m: int)
    requires m > 0
    ensures (x % m * y) % m == (x * y) % m
  {
    var k := x / m;
    assert x * y == x % m * y + m * (k * y) by {
      assert x == m * k + x % m;
      assert (m * k + x % m) * y == m * (k * y) + x % m * y;
    }
    ModAddMultiple(x % m * y, k * y, m);
  }

  lemma ModMul(x: int, y: int, m: int)
    requires m > 0
    ensures (x % m * (y % m)) % m == (x * y) % m
  {
    ModMulLeft(x, y % m, m);
    ModMulLeft(y, x, m);
    assert x * (y % m) == y % m * x && y * x == x * y;
  }

  /** Every residue that a prime does not divide has an inverse: extended Euclid, one division
      at a time. */
  function Inverse(a: int, q: int): (inv: int)
    requires IsPrime(q) && 0 < a < q
    ensures 0 < inv < q && (a * inv) % q == 1
    decreases a
  {
    if a == 1 then
      DivModUnique(1, q, 0, 1);
      1
    else
      var k, r := q / a, q % a;
      var y := Inverse(r, q);
      InverseStep(a, q, k, r, y);
      (-k * y) % q
  }

  lemma UnitIsNonzero(a: int, w: int, q: int)
    requires q > 1 && (a * w) % q == 1
    ensures w != 0
  {
  }

  lemma InverseStep(a: int, q: int, k: int, r: int, y: int)
    requires q > 1 && q == a * k + r
    requires (r * y) % q == 1
    ensures 0 < (-k * y) % q
    ensures (a * ((-k * y) % q)) % q == 1
  {
    var z := -k * y;
    assert (z % q * a) % q == (z * a) % q by { ModMulLeft(z, a, q); }
    assert z * a == r * y + q * (-y) by {
      assert r == q - a * k;
      assert (q - a * k) * y == q * y - a * k * y;
    }
    ModAddMultiple(r * y, -y, q);
    assert a * (z % q) == z % q * a;
    UnitIsNonzero(a, z % q, q);
  }

  /** Euclid's lemma. */
  lemma EuclidLemma(a: int, b: int, q: int)
    requires IsPrime(q) && (a * b) % q == 0
    ensures a % q == 0 || b % q == 0
  {
    if a % q != 0 {
      var z := EuclidQuotient(a, b, q, a % q, a / q);
      ModAddMultiple(0, z, q);
    }
  }

  lemma EuclidQuotient(a: int, b: int, q: int, r: int, k: int) returns (z: int)
    requires IsPrime(q) && 0 < r < q && a == q * k + r && (a * b) % q == 0
    ensures b == q * z
  {
    var inv := Inverse(r, q);
    z := EuclidStep(a, b, q, r, inv, k, r * inv / q, a * b / q);
  }

  lemma EuclidStep(a: int, b: int, q: int, r: int, inv: int, k: int, j: int, i: int) returns (z: int)
    requires a == q * k + r && r * inv == q * j + 1 && a * b == q * i
    ensures b == q * z
  {
    z := i * inv - k * (b * inv) - j * b;
    calc {
      b;
      (r * inv - q * j) * b;
      r * (b * inv) - q * (j * b);
      (a - q * k) * (b * inv) - q * (j * b);
      a * b * inv - q * (k * (b * inv)) - q * (j * b);
      q * (i * inv) - q * (k * (b * inv)) - q * (j * b);
      q * z;
    }
  }

  // ---------------------------------------------------------------------------------------
  // Powers

  lemma {:induction false} PowAdd(a: int, e: nat, f: nat)
    ensures Pow(a, e + f) == Pow(a, e) * Pow(a, f)
  {
    if e > 0 {
      PowAdd(a, e - 1, f);
      assert Pow(a, e + f) == a * (Pow(a, e - 1) * Pow(a, f));
    }
  }

  /** A power of something congruent to one is congruent to one. */
  lemma {:induction false} PowOfUnit(a: int, e: nat, k: nat, q: int)
    requires q > 1 && Pow(a, e) % q == 1
    ensures Pow(a, e * k) % q == 1
  {
    if k == 0 {
      assert e * k == 0;
      DivModUnique(1, q, 0, 1);
    } else {
      PowOfUnit(a, e, k - 1, q);
      assert e * k == e + e * (k - 1);
      PowAdd(a, e, e * (k - 1));
      ModMul(Pow(a, e), Pow(a, e * (k - 1)), q);
      DivModUnique(1, q, 0, 1);
    }
  }

  // ---------------------------------------------------------------------------------------
  // Fermat's little theorem

  ghost function Product(s: set<int>): int {
    if s == {} then 1
    else
      assert (forall y :: y !in s) ==> s == {};
      var x :| x in s;
      x * Product(s - {x})
  }

  /** A nonempty set has an element. */
  lemma Pick(s: set<int>) returns (x: int)
    requires s != {}
    ensures x in s
  {
    assert (forall y :: y !in s) ==> s == {};
    x :| x in s;
  }

  lemma {:induction false} ProductRemove(s: set<int>, y: int)
    requires y in s
    ensures Product(s) == y * Product(s - {y})
    decreases |s|
  {
    var x :| x in s && Product(s) == x * Product(s - {x});
    if x != y {
      ProductRemove(s - {x}, y);
      ProductRemove(s - {y}, x);
      assert s - {x} - {y} == s - {y} - {x};
      SwapFactors(x, y, Product(s - {x} - {y}));
    }
  }

  lemma SwapFactors(x: int, y: int, z: int)
    ensures x * (y * z) == y * (x * z)
  {
  }

  function MulMod(a: int, x: int, q: int): int
    requires q > 0
  {
    (a * x) % q
  }

  ghost function Scaled(s: set<int>, a: int, q: int): set<int>
    requires q > 0
  {
    set x | x in s :: MulMod(a, x, q)
  }

  ghost function Residues(n: int): set<int> {
    set x: int {:trigger MulMod(x, 1, n)} | 0 < x < n
  }

  /** Multiplication by a unit is injective on residues. */
  lemma ScaleInjective(a: int, x: int, y: int, q: int)
    requires IsPrime(q) && a % q != 0
    requires 0 < x < q && 0 < y < q && MulMod(a, x, q) == MulMod(a, y, q)
    ensures x == y
  {
    SameRemainder(a * x, a * y, q);
    assert a * (x - y) == a * x - a * y;
    EuclidLemma(a, x - y, q);
    SmallMultiple(q, (x - y) / q);
  }

  /** Scaling a set of residues keeps its size and multiplies its product by a power of a. */
  lemma {:induction false} ScaledProduct(s: set<int>, a: int, q: int)
    requires IsPrime(q) && a % q != 0
    requires forall x :: x in s ==> 0 < x < q
    ensures |Scaled(s, a, q)| == |s|
    ensures Product(Scaled(s, a, q)) % q == (Pow(a, |s|) * Product(s)) % q
    decreases |s|
  {
    if s == {} {
      assert Scaled(s, a, q) == {};
    } else {
      var x := Pick(s);
      var t, y := s - {x}, MulMod(a, x, q);
      ScaledProduct(t, a, q);
      forall z | z in t
        ensures MulMod(a, z, q) != y
      {
        if MulMod(a, z, q) == y { ScaleInjective(a, x, z, q); }
      }
      assert Scaled(s, a, q) == Scaled(t, a, q) + {y};
      ProductRemove(Scaled(s, a, q), y);
      assert Scaled(s, a, q) - {y} == Scaled(t, a, q);
      ProductRemove(s, x);
      ScaleStep(a, x, Pow(a, |t|), Product(t), Product(Scaled(t, a, q)), q);
    }
  }

  lemma ScaleStep(a: int, x: int, p: int, r: int, scaled: int, q: int)
    requires q > 0 && scaled % q == (p * r) % q
    ensures (MulMod(a, x, q) * scaled) % q == (a * p * (x * r)) % q
  {
    ModMulLeft(a * x, scaled, q);
    ModMul(a * x, scaled, q);
    ModMul(a * x, p * r, q);
    assert a * x * (p * r) == a * p * (x * r);
  }

  lemma ProductNotDivisible(s: set<int>, q: int)
    requires IsPrime(q) && forall x :: x in s ==> 0 < x < q
    ensures Product(s) % q != 0
    decreases |s|
  {
    if s == {} {
      DivModUnique(1, q, 0, 1);
    } else {
      var x := Pick(s);
      ProductRemove(s, x);
      ProductNotDivisible(s - {x}, q);
      DivModUnique(x, q, 0, x);
      if Product(s) % q == 0 { EuclidLemma(x, Product(s - {x}), q); }
    }
  }

  lemma ResiduesSize(n: nat)
    requires n > 0
    ensures |Residues(n)| == n - 1
  {
    if n == 1 {
      assert Residues(1) == {};
    } else {
      ResiduesSize(n - 1);
      assert Residues(n) == Residues(n - 1) + {n - 1};
    }
  }

  lemma SubsetOfSameSize<T>(s: set<T>, t: set<T>)
    requires s <= t && |s| == |t|
    ensures s == t
  {
    assert |t - s| == |t| - |s|;
    assert s + (t - s) == t;
  }

  lemma {:induction false} FermatLittle(a: int, q: int)
    requires IsPrime(q) && a % q != 0
    ensures Pow(a, q - 1) % q == 1
  {
    var s := Residues(q);
    ResiduesSize(q);
    ScaledProduct(s, a, q);
    forall y | y in Scaled(s, a, q)
      ensures 0 < y < q
    {
      var x :| x in s && MulMod(a, x, q) == y;
      DivModUnique(x, q, 0, x);
      if y == 0 { EuclidLemma(a, x, q); }
    }
    SubsetOfSameSize(Scaled(s, a, q), s);
    ProductNotDivisible(s, q);
    CancelFactor(Pow(a, q - 1), Product(s), q);
  }

  lemma CancelFactor(p: int, f: int, q: int)
    requires IsPrime(q) && f % q != 0
    requires (p * f) % q == f % q
    ensures p % q == 1
  {
    SameRemainder(p * f, f, q);
    assert f * (p - 1) == p * f - f;
    EuclidLemma(f, p - 1, q);
    DivModUnique(p, q, (p - 1) / q, 1);
  }

  // ---------------------------------------------------------------------------------------
  // Orders

  /** An element whose r-th power is one, r prime, has order r or one; so r divides every
      exponent that sends a nontrivial such element to one. */
  lemma {:induction false} OrderDivides(a: int, r: int, e: nat, q: int)
    requires q > 1 && IsPrime(r)
    requires Pow(a, r) % q == 1 && Pow(a, e) % q == 1 && a % q != 1
    ensures e % r == 0
  {
    var k, rest := e / r, e % r;
    assert e == r * k + rest;
    RestOfExponent(a, r, k, rest, q);
    if rest != 0 { CoprimeExponents(a, rest, r, q); }
  }

  lemma {:induction false} CoprimeExponents(a: int, e: nat, r: int, q: int)
    requires q > 1 && IsPrime(r) && 0 < e < r
    requires Pow(a, r) % q == 1 && Pow(a, e) % q == 1
    ensures a % q == 1
  {
    var inv := Inverse(e, r);
    var k := e * inv / r;
    assert e * inv == r * k + 1;
    assert k >= 0;
    BezoutPower(a, e, inv, r, k, q);
  }

  lemma RestOfExponent(a: int, r: nat, k: nat, rest: nat, q: int)
    requires q > 1 && Pow(a, r) % q == 1
    ensures Pow(a, r * k + rest) % q == Pow(a, rest) % q
  {
    PowOfUnit(a, r, k, q);
    PowAdd(a, r * k, rest);
    ModMulLeft(Pow(a, r * k), Pow(a, rest), q);
  }

  lemma {:induction false} BezoutPower(a: int, e: nat, inv: nat, r: nat, k: nat, q: int)
    requires q > 1 && e * inv == r * k + 1
    requires Pow(a, e) % q == 1 && Pow(a, r) % q == 1
    ensures a % q == 1
  {
    PowOfUnit(a, e, inv, q);
    PowOfUnit(a, r, k, q);
    PowAdd(a, r * k, 1);
    assert Pow(a, 1) == a * Pow(a, 0) == a;
    ModMulLeft(Pow(a, r * k), a, q);
  }

  /** A number with no divisor up to its square root is prime; the least divisor of a composite
      is a prime no larger than its cofactor. */
  lemma LeastDivisor(n: int, d: int) returns (q: int)
    requires 1 < d < n && n % d == 0
    ensures IsPrime(q) && n % q == 0 && q * q <= n
  {
    q := 2;
    while n % q != 0
      invariant 2 <= q <= d
      invariant forall c :: 1 < c < q ==> n % c != 0
      decreases d - q
    {
      q := q + 1;
    }
    forall c | 1 < c < q
      ensures q % c != 0
    {
      if q % c == 0 { DivisorOfDivisor(n, q, c, q / c, n / q); }
    }
    Cofactor(n, q, n / q);
  }

  lemma DivisorOfDivisor(n: int, q: int, c: int, i: int, j: int)
    requires c > 0 && q == c * i && n == q * j
    ensures n % c == 0
  {
    assert n == c * (i * j);
    ModAddMultiple(0, i * j, c);
  }

  lemma Cofactor(n: int, q: int, k: int)
    requires 1 < q < n && n == q * k
    requires forall c :: 1 < c < q ==> n % c != 0
    ensures q * q <= n
  {
    assert k <= 0 ==> q * k <= 0;
    assert k == 1 ==> q * k == q;
    if k < q {
      ModAddMultiple(0, q, k);
    } else {
      assert q * q <= q * k;
    }
  }
}
