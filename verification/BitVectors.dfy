/** Words against the machine's own 32-bit vectors: sums, exclusive-ors and rotations of strings of bits
    are those of the built-in type. */
module BitVectors {
  import opened BitStrings
  import opened WordFolds
  import opened VectorFacts

  /** The vector with these bits, and above them those of p. */
  function Onto(p: bv32, b: Bitstring): bv32 { Fold(Cons, p, b) }

  function Vector(b: Bitstring): bv32 { Onto(0, b) }

  // ---------------------------------------------------------------------------------------
  // One bit

  lemma XorEven(c: bool, d: bool, p: bv32, q: bv32)
    requires !c && !d
    ensures Xor(Cons(c, p), Cons(d, q)) == Cons(c != d, Xor(p, q))
  {
    Even(Cons(c, p), Cons(d, q), p, q);
  }

  lemma XorOddEven(c: bool, d: bool, p: bv32, q: bv32)
    requires c && !d
    ensures Xor(Cons(c, p), Cons(d, q)) == Cons(c != d, Xor(p, q))
  {
    OddEven(Cons(c, p), Cons(d, q), p, q);
  }

  lemma XorEvenOdd(c: bool, d: bool, p: bv32, q: bv32)
    requires !c && d
    ensures Xor(Cons(c, p), Cons(d, q)) == Cons(c != d, Xor(p, q))
  {
    EvenOdd(Cons(c, p), Cons(d, q), p, q);
  }

  lemma XorOdd(c: bool, d: bool, p: bv32, q: bv32)
    requires c && d
    ensures Xor(Cons(c, p), Cons(d, q)) == Cons(c != d, Xor(p, q))
  {
    Odd(Cons(c, p), Cons(d, q), p, q);
  }

  lemma AndEven(c: bool, d: bool, p: bv32, q: bv32)
    requires !c && !d
    ensures And(Cons(c, p), Cons(d, q)) == Cons(Both(c, d), And(p, q))
  {
    Even(Cons(c, p), Cons(d, q), p, q);
  }

  lemma AndOddEven(c: bool, d: bool, p: bv32, q: bv32)
    requires c && !d
    ensures And(Cons(c, p), Cons(d, q)) == Cons(Both(c, d), And(p, q))
  {
    OddEven(Cons(c, p), Cons(d, q), p, q);
  }

  lemma AndEvenOdd(c: bool, d: bool, p: bv32, q: bv32)
    requires !c && d
    ensures And(Cons(c, p), Cons(d, q)) == Cons(Both(c, d), And(p, q))
  {
    EvenOdd(Cons(c, p), Cons(d, q), p, q);
  }

  lemma AndOdd(c: bool, d: bool, p: bv32, q: bv32)
    requires c && d
    ensures And(Cons(c, p), Cons(d, q)) == Cons(Both(c, d), And(p, q))
  {
    Odd(Cons(c, p), Cons(d, q), p, q);
  }

  lemma XorBits(c: bool, d: bool, p: bv32, q: bv32)
    ensures Xor(Cons(c, p), Cons(d, q)) == Cons(c != d, Xor(p, q))
  {
    if c {
      if d { XorOdd(c, d, p, q); } else { XorOddEven(c, d, p, q); }
    } else {
      if d { XorEvenOdd(c, d, p, q); } else { XorEven(c, d, p, q); }
    }
  }

  lemma AndBits(c: bool, d: bool, p: bv32, q: bv32)
    ensures And(Cons(c, p), Cons(d, q)) == Cons(Both(c, d), And(p, q))
  {
    if c {
      if d { AndOdd(c, d, p, q); } else { AndOddEven(c, d, p, q); }
    } else {
      if d { AndEvenOdd(c, d, p, q); } else { AndEven(c, d, p, q); }
    }
  }

  lemma BitByBit()
    ensures Xors(Cons, Xor) && Ands(Cons, And)
  {
    forall c, d, p, q
      ensures Xor(Cons(c, p), Cons(d, q)) == Cons(c != d, Xor(p, q))
      ensures And(Cons(c, p), Cons(d, q)) == Cons(Both(c, d), And(p, q))
    {
      XorBits(c, d, p, q);
      AndBits(c, d, p, q);
    }
  }

  lemma XorOnto(p: bv32, q: bv32, a: Bitstring, b: Bitstring)
    requires |a| == |b|
    ensures Onto(Xor(p, q), XorWords(a, b)) == Xor(Onto(p, a), Onto(q, b))
  {
    BitByBit();
    FoldXor(Cons, Xor, p, q, a, b);
  }

  lemma AndOnto(p: bv32, q: bv32, a: Bitstring, b: Bitstring)
    requires |a| == |b|
    ensures Onto(And(p, q), AndWords(a, b)) == And(Onto(p, a), Onto(q, b))
  {
    BitByBit();
    FoldAnd(Cons, And, p, q, a, b);
  }

  // ---------------------------------------------------------------------------------------
  // Shifts

  function Up(p: bv32, n: nat): bv32 { if n == 0 then p else Cons(false, Up(p, n - 1)) }

  lemma {:induction false} OntoZeros(p: bv32, n: nat)
    ensures Onto(p, Zeros(n)) == Up(p, n)
  {
    if n > 0 {
      OntoZeros(p, n - 1);
      assert Zeros(n)[1..] == Zeros(n - 1);
    }
  }

  lemma Up2(p: bv32, n: nat)
    ensures Up(p, n + 2) == Shl2(Up(p, n))
  {
    ShlTwice(Up(p, n));
    assert Up(p, n + 2) == Cons(false, Up(p, n + 1));
  }

  lemma Up4(p: bv32, n: nat)
    ensures Up(p, n + 4) == Shl4(Up(p, n))
  {
    Up2(p, n);
    Up2(p, n + 2);
    Shl2Twice(Up(p, n));
  }

  lemma Up8(p: bv32, n: nat)
    ensures Up(p, n + 8) == Shl8(Up(p, n))
  {
    Up4(p, n);
    Up4(p, n + 4);
    Shl4Twice(Up(p, n));
  }

  lemma Up16(p: bv32, n: nat)
    ensures Up(p, n + 16) == Shl16(Up(p, n))
  {
    Up8(p, n);
    Up8(p, n + 8);
    Shl8Twice(Up(p, n));
  }

  /** Shifted by a whole word nothing is left. */
  lemma Up32(p: bv32, n: nat)
    ensures Up(p, n + 32) == 0
  {
    Up16(p, n);
    Up16(p, n + 16);
    Shl16Twice(Up(p, n));
  }

  lemma Equal(u: bv32, v: bv32)
    requires Xor(u, v) == 0
    ensures u == v
  {
  }

  /** A whole word hides what is above it. */
  lemma OntoWord(p: bv32, w: Word)
    ensures Onto(p, w) == Vector(w)
  {
    XorOnto(p, 0, w, w);
    assert XorWords(w, w) == Zeros(32);
    OntoZeros(Xor(p, 0), 32);
    Up32(Xor(p, 0), 0);
    Equal(Onto(p, w), Vector(w));
  }

  lemma NothingXored(p: bv32)
    ensures Xor(0, p) == p && Xor(p, 0) == p && And(0, 0) == 0
  {
  }

  lemma XorVector(a: Word, b: Word)
    ensures Vector(XorWords(a, b)) == Xor(Vector(a), Vector(b))
  {
    NothingXored(0);
    XorOnto(0, 0, a, b);
  }

  lemma AndVector(a: Word, b: Word)
    ensures Vector(AndWords(a, b)) == And(Vector(a), Vector(b))
  {
    NothingXored(0);
    AndOnto(0, 0, a, b);
  }

  lemma {:induction false} OnesOnto(n: nat)
    ensures Onto(0xffff_ffff, NotWord(Zeros(n))) == 0xffff_ffff
  {
    if n > 0 {
      OnesOnto(n - 1);
      assert NotWord(Zeros(n))[1..] == NotWord(Zeros(n - 1));
    }
  }

  lemma NotVector(a: Word)
    ensures Vector(NotWord(a)) == Xor(Vector(a), 0xffff_ffff)
  {
    var ones: Word := NotWord(Zeros(32));
    OnesOnto(32);
    OntoWord(0xffff_ffff, ones);
    assert NotWord(a) == XorWords(a, ones);
    XorVector(a, ones);
  }

  // ---------------------------------------------------------------------------------------
  // Addition

  lemma NextCarriesAre(x: bv32, y: bv32, k: bv32)
    ensures NextCarries(x, y, k) == Cons(false, Xor(And(Xor(x, k), Xor(y, k)), k))
  {
  }

  /** The majorities of three words, as a vector. */
  lemma MajoritiesVector(a: Word, b: Word, c: Word)
    ensures Vector(Majorities(a, b, c)) == Xor(And(Xor(Vector(a), Vector(c)), Xor(Vector(b), Vector(c))), Vector(c))
  {
    var u: Word, v: Word := XorWords(a, c), XorWords(b, c);
    XorVector(a, c);
    XorVector(b, c);
    AndVector(u, v);
    XorVector(AndWords(u, v), c);
  }

  lemma CarriesVector(a: Word, b: Word)
    ensures var k := Vector(Carries(a, b, false)); k == NextCarries(Vector(a), Vector(b), k)
  {
    var c: Word := Carries(a, b, false);
    var m: Word := Majorities(a, b, c);
    var out := [CarryOut(a, b, false)];
    CarriesShift(a, b, false);
    FoldAppend(Cons, 0, c, out);
    OntoWord(Onto(0, out), c);
    assert ([false] + m)[1..] == m;
    MajoritiesVector(a, b, c);
    NextCarriesAre(Vector(a), Vector(b), Vector(c));
  }

  lemma SumVector(a: Word, b: Word)
    ensures Vector(Sum(a, b, false)) == Add(Vector(a), Vector(b))
  {
    var c: Word := Carries(a, b, false);
    SumOfCarries(a, b, false);
    XorVector(a, b);
    XorVector(XorWords(a, b), c);
    CarriesVector(a, b);
    CarriesFollow(Vector(a), Vector(b));
    SumFromCarries(Vector(a), Vector(b));
    CarriesAreUnique(Vector(a), Vector(b), Vector(c), CarriesOf(Vector(a), Vector(b)));
  }

  // ---------------------------------------------------------------------------------------
  // Rotation

  /** The n low bits of a mask are set. */
  predicate LowOnes(m: bv32, n: nat) {
    n == 0 || (m & 1 == 1 && LowOnes(m >> 1, n - 1))
  }

  lemma OneMore(m: bv32, rest: bv32, n: nat)
    requires rest == m >> 1 && m & 1 == 1 && LowOnes(rest, n)
    ensures LowOnes(m, n + 1)
  {
  }

  lemma Masks(n: nat)
    requires n == 0
    ensures LowOnes(0x7f, n + 7) && LowOnes(0xff, n + 8) && LowOnes(0xfff, n + 12) && LowOnes(0xffff, n + 16)
  {
    OneMore(1, 0, n);
    OneMore(3, 1, n + 1);
    OneMore(7, 3, n + 2);
    OneMore(0xf, 7, n + 3);
    OneMore(0x1f, 0xf, n + 4);
    OneMore(0x3f, 0x1f, n + 5);
    OneMore(0x7f, 0x3f, n + 6);
    OneMore(0xff, 0x7f, n + 7);
    OneMore(0x1ff, 0xff, n + 8);
    OneMore(0x3ff, 0x1ff, n + 9);
    OneMore(0x7ff, 0x3ff, n + 10);
    OneMore(0xfff, 0x7ff, n + 11);
    OneMore(0x1fff, 0xfff, n + 12);
    OneMore(0x3fff, 0x1fff, n + 13);
    OneMore(0x7fff, 0x3fff, n + 14);
    OneMore(0xffff, 0x7fff, n + 15);
  }

  lemma MoreMasks(n: nat)
    requires LowOnes(0xffff, n + 16)
    ensures LowOnes(0xf_ffff, n + 20) && LowOnes(0xff_ffff, n + 24) && LowOnes(0x1ff_ffff, n + 25)
    ensures LowOnes(0xffff_ffff, n + 32)
  {
    OneMore(0x1_ffff, 0xffff, n + 16);
    OneMore(0x3_ffff, 0x1_ffff, n + 17);
    OneMore(0x7_ffff, 0x3_ffff, n + 18);
    OneMore(0xf_ffff, 0x7_ffff, n + 19);
    OneMore(0x1f_ffff, 0xf_ffff, n + 20);
    OneMore(0x3f_ffff, 0x1f_ffff, n + 21);
    OneMore(0x7f_ffff, 0x3f_ffff, n + 22);
    OneMore(0xff_ffff, 0x7f_ffff, n + 23);
    OneMore(0x1ff_ffff, 0xff_ffff, n + 24);
    OneMore(0x3ff_ffff, 0x1ff_ffff, n + 25);
    OneMore(0x7ff_ffff, 0x3ff_ffff, n + 26);
    OneMore(0xfff_ffff, 0x7ff_ffff, n + 27);
    OneMore(0x1fff_ffff, 0xfff_ffff, n + 28);
    OneMore(0x3fff_ffff, 0x1fff_ffff, n + 29);
    OneMore(0x7fff_ffff, 0x3fff_ffff, n + 30);
    OneMore(0xffff_ffff, 0x7fff_ffff, n + 31);
  }

  lemma MaskedOddCons(c: bool, p: bv32, m: bv32, rest: bv32)
    requires c && rest == m >> 1 && m & 1 == 1 && And(p, rest) == p
    ensures And(Cons(c, p), m) == Cons(c, p)
  {
    MaskedOdd(p, m, rest, Cons(c, p));
  }

  lemma MaskedEvenCons(c: bool, p: bv32, m: bv32, rest: bv32)
    requires !c && rest == m >> 1 && m & 1 == 1 && And(p, rest) == p
    ensures And(Cons(c, p), m) == Cons(c, p)
  {
    MaskedEven(p, m, rest, Cons(c, p));
  }

  /** A short string stays below its mask. */
  lemma {:induction false} Within(b: Bitstring, m: bv32)
    requires LowOnes(m, |b|)
    ensures And(Vector(b), m) == Vector(b)
  {
    if |b| > 0 {
      Within(b[1..], m >> 1);
      if b[0] {
        MaskedOddCons(b[0], Vector(b[1..]), m, m >> 1);
      } else {
        MaskedEvenCons(b[0], Vector(b[1..]), m, m >> 1);
      }
    } else {
      NoneMasked(m);
    }
  }

  lemma NoneMasked(m: bv32)
    ensures And(0, m) == 0
  {
  }

  lemma Joined(a: Bitstring, b: Bitstring)
    ensures Vector(a + b) == Xor(Vector(a), Up(Vector(b), |a|))
  {
    FoldAppend(Cons, 0, a, b);
    XorOnto(0, Vector(b), a, Zeros(|a|));
    OntoZeros(Vector(b), |a|);
    NothingXored(Vector(b));
    assert XorWords(a, Zeros(|a|)) == a;
  }

  /** A word from its low n bits and the others. */
  lemma Parts(w: Word, n: nat)
    requires n < 32
    ensures Vector(w) == Xor(Vector(w[..n]), Up(Vector(w[n..]), n))
  {
    Joined(w[..n], w[n..]);
    assert w[..n] + w[n..] == w;
  }

  /** The word of the others followed by the low n bits. */
  lemma PartsTurned(w: Word, n: nat)
    requires n < 32
    ensures Vector(w[n..] + w[..n]) == Xor(Vector(w[n..]), Up(Vector(w[..n]), 32 - n))
  {
    Joined(w[n..], w[..n]);
  }

  // ---------------------------------------------------------------------------------------
  // A word is known by its vector, and a literal by its digits

  lemma NothingBelow(c: bool, p: bv32, m: bv32)
    requires And(p, m >> 1) == p && Cons(c, p) == 0
    ensures !c && p == 0
  {
  }

  lemma {:induction false} ZeroVector(b: Bitstring, m: bv32)
    requires LowOnes(m, |b|) && Vector(b) == 0
    ensures forall i :: 0 <= i < |b| ==> !b[i]
  {
    if |b| > 0 {
      Within(b[1..], m >> 1);
      NothingBelow(b[0], Vector(b[1..]), m);
      ZeroVector(b[1..], m >> 1);
      assert forall i :: 0 < i < |b| ==> b[i] == b[1..][i - 1];
    }
  }

  lemma XoredAlike(p: bv32)
    ensures Xor(p, p) == 0
  {
  }

  lemma VectorDetermines(a: Word, b: Word)
    requires Vector(a) == Vector(b)
    ensures a == b
  {
    var c: Word := XorWords(a, b);
    XorVector(a, b);
    XoredAlike(Vector(a));
    Masks(0);
    MoreMasks(0);
    ZeroVector(c, 0xffff_ffff);
    forall i: nat | i < 32
      ensures a[i] == b[i]
    {
      assert !c[i];
    }
  }

  function DigitOf(d: nat): bv32 {
    match d
    case 0 => 0
    case 1 => 1
    case 2 => 2
    case 3 => 3
    case 4 => 4
    case 5 => 5
    case 6 => 6
    case 7 => 7
    case 8 => 8
    case 9 => 9
    case 10 => 10
    case 11 => 11
    case 12 => 12
    case 13 => 13
    case 14 => 14
    case _ => 15
  }

  /** A hexadecimal digit below the others. */
  function Below(d: nat, rest: bv32): bv32 { Xor(DigitOf(d), Shl4(rest)) }

  lemma FourBits(d: nat)
    requires d < 16
    ensures Bits(d, 4) == [d % 2 == 1, d / 2 % 2 == 1, d / 4 % 2 == 1, d / 8 % 2 == 1]
  {
    assert Bits(d / 8, 1) == [d / 8 % 2 == 1];
    assert Bits(d / 4, 2) == [d / 4 % 2 == 1] + Bits(d / 8, 1);
    assert Bits(d / 2, 3) == [d / 2 % 2 == 1] + Bits(d / 4, 2);
  }

  lemma OneOnto(b: bool, rest: Bitstring)
    ensures Vector([b] + rest) == Cons(b, Vector(rest))
  {
    assert ([b] + rest)[1..] == rest;
  }

  lemma VectorOfFour(b0: bool, b1: bool, b2: bool, b3: bool)
    ensures Vector([b0, b1, b2, b3]) == Cons(b0, Cons(b1, Cons(b2, Cons(b3, 0))))
  {
    OneOnto(b3, []);
    OneOnto(b2, [b3]);
    OneOnto(b1, [b2, b3]);
    OneOnto(b0, [b1, b2, b3]);
    assert [b3] + [] == [b3] && [b2] + [b3] == [b2, b3] && [b1] + [b2, b3] == [b1, b2, b3];
    assert [b0] + [b1, b2, b3] == [b0, b1, b2, b3];
  }

  lemma DigitOfBits(d: nat, b0: bool, b1: bool, b2: bool, b3: bool)
    requires d < 16 && b0 == (d % 2 == 1) && b1 == (d / 2 % 2 == 1) && b2 == (d / 4 % 2 == 1) && b3 == (d / 8 % 2 == 1)
    ensures Cons(b0, Cons(b1, Cons(b2, Cons(b3, 0)))) == DigitOf(d)
  {
  }

  lemma DigitVector(d: nat)
    requires d < 16
    ensures Vector(Bits(d, 4)) == DigitOf(d)
  {
    var b0, b1, b2, b3 := d % 2 == 1, d / 2 % 2 == 1, d / 4 % 2 == 1, d / 8 % 2 == 1;
    FourBits(d);
    VectorOfFour(b0, b1, b2, b3);
    DigitOfBits(d, b0, b1, b2, b3);
  }

  lemma NextDigit(n: nat, d: nat, rest: nat, y: bv32, width: nat)
    requires d < 16 && n == d + 16 * rest && Vector(Bits(rest, width)) == y
    ensures Vector(Bits(n, width + 4)) == Below(d, y)
  {
    assert Power(4) == 16;
    BitsAppend(d, rest, 4, 16, width);
    Joined(Bits(d, 4), Bits(rest, width));
    DigitVector(d);
    Up4(y, 0);
  }
}
