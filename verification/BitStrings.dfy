/** Machine words as strings of bits, least significant first, and the numbers they stand for. */
module BitStrings {

  type Bitstring = seq<bool>

  /** The low bits of a number, least significant first. */
  function Bits(n: nat, width: nat): (b: Bitstring)
    ensures |b| == width
  {
    if width == 0 then [] else [n % 2 == 1] + Bits(n / 2, width - 1)
  }

  function Zeros(k: nat): (z: Bitstring)
    ensures |z| == k
  {
    seq(k, i => false)
  }

  lemma {:induction false} NoBits(width: nat)
    ensures Bits(0, width) == Zeros(width)
  {
    if width > 0 { NoBits(width - 1); }
  }

  function Power(k: nat): (p: nat)
    ensures p > 0
  {
    if k == 0 then 1 else 2 * Power(k - 1)
  }

  lemma {:induction false} Shifted(n: nat, k: nat, width: nat)
    ensures Bits(Power(k) * n, k + width) == Zeros(k) + Bits(n, width)
  {
    if k == 0 {
      assert Zeros(0) + Bits(n, width) == Bits(n, width);
    } else {
      var m := Power(k - 1) * n;
      assert Power(k) * n == 2 * m;
      Shifted(n, k - 1, width);
      assert Bits(2 * m, k + width) == [false] + Bits(m, k + width - 1);
      assert [false] + (Zeros(k - 1) + Bits(n, width)) == Zeros(k) + Bits(n, width);
    }
  }

  function Weight(b: bool): nat { if b then 1 else 0 }

  function XorWords(a: Bitstring, b: Bitstring): (c: Bitstring)
    requires |a| == |b|
    ensures |c| == |a|
  {
    seq(|a|, i requires 0 <= i < |a| => a[i] != b[i])
  }

  function AndWords(a: Bitstring, b: Bitstring): (c: Bitstring)
    requires |a| == |b|
    ensures |c| == |a|
  {
    seq(|a|, i requires 0 <= i < |a| => a[i] && b[i])
  }

  function NotWord(a: Bitstring): (c: Bitstring)
    ensures |c| == |a|
  {
    seq(|a|, i requires 0 <= i < |a| => !a[i])
  }

  /** Shifts by the full width give zero. */
  function Shl(a: Bitstring, n: nat): (c: Bitstring)
    requires n <= |a|
    ensures |c| == |a|
  {
    Zeros(n) + a[..|a| - n]
  }

  function Shr(a: Bitstring, n: nat): (c: Bitstring)
    requires n <= |a|
    ensures |c| == |a|
  {
    a[n..] + Zeros(n)
  }

  /** Wrapping addition, bit by bit with a carry. */
  function Sum(a: Bitstring, b: Bitstring, carry: bool): (c: Bitstring)
    requires |a| == |b|
    ensures |c| == |a|
  {
    if |a| == 0 then []
    else
      [(a[0] != b[0]) != carry] +
      Sum(a[1..], b[1..], (a[0] && b[0]) || (carry && (a[0] || b[0])))
  }

  /** Words with no common bit add without carries. */
  lemma {:induction false} SumOfDisjoint(a: Bitstring, b: Bitstring, c: Bitstring)
    requires |a| == |b| == |c|
    requires forall i :: 0 <= i < |a| ==> !(a[i] && b[i]) && c[i] == (a[i] || b[i])
    ensures Sum(a, b, false) == c
  {
    if |a| > 0 {
      SumOfDisjoint(a[1..], b[1..], c[1..]);
      assert c == [c[0]] + c[1..];
    }
  }

  /** A word shifted up and another shifted down meet without overlap. */
  lemma ShiftsMeet(a: Bitstring, b: Bitstring, n: nat)
    requires |a| == |b| && n <= |a|
    ensures Sum(Shl(a, n), Shr(b, |a| - n), false) == b[|a| - n..] + a[..|a| - n]
  {
    SumOfDisjoint(Shl(a, n), Shr(b, |a| - n), b[|a| - n..] + a[..|a| - n]);
  }

  type Word = w: Bitstring | |w| == 32 witness Zeros(32)


  // ---------------------------------------------------------------------------------------
  // Numbers and their bits

  /** The bits of a number made of two parts. */
  lemma {:induction false} BitsAppend(low: nat, high: nat, k: nat, p: nat, width: nat)
    requires p == Power(k) && low < p
    ensures Bits(low + p * high, k + width) == Bits(low, k) + Bits(high, width)
    decreases k
  {
    if k == 0 {
      assert Bits(high, width) == [] + Bits(high, width);
    } else {
      var q := Power(k - 1);
      var m := low + p * high;
      HalfOfSum(low, q, high, m);
      BitsAppend(low / 2, high, k - 1, q, width);
      assert [low % 2 == 1] + (Bits(low / 2, k - 1) + Bits(high, width)) == Bits(low, k) + Bits(high, width);
    }
  }

  lemma HalfOfSum(low: nat, q: nat, high: nat, m: nat)
    requires m == low + 2 * q * high
    ensures m % 2 == low % 2 && m / 2 == low / 2 + q * high
  {
    var h := q * high;
    assert 2 * q * high == 2 * h;
  }

  lemma {:induction false} BitsInjective(m: nat, n: nat, width: nat)
    requires m < Power(width) && n < Power(width) && Bits(m, width) == Bits(n, width)
    ensures m == n
  {
    if width > 0 {
      var a, b := Bits(m, width), Bits(n, width);
      assert a[0] == b[0];
      assert a[1..] == Bits(m / 2, width - 1) && b[1..] == Bits(n / 2, width - 1);
      BitsInjective(m / 2, n / 2, width - 1);
    }
  }

  /** Addition of numbers is ripple addition of their bits. */
  lemma {:induction false} BitsOfSum(m: nat, n: nat, carry: bool, width: nat)
    ensures Bits(m + n + Weight(carry), width) == Sum(Bits(m, width), Bits(n, width), carry)
  {
    if width > 0 {
      var next := (m % 2 == 1 && n % 2 == 1) || (carry && (m % 2 == 1 || n % 2 == 1));
      assert (m + n + Weight(carry)) / 2 == m / 2 + n / 2 + Weight(next);
      assert ((m + n + Weight(carry)) % 2 == 1) == (((m % 2 == 1) != (n % 2 == 1)) != carry);
      BitsOfSum(m / 2, n / 2, next, width - 1);
      assert Bits(m, width)[1..] == Bits(m / 2, width - 1);
      assert Bits(n, width)[1..] == Bits(n / 2, width - 1);
    }
  }

  lemma SmallPowers()
    ensures Power(8) == 0x100 && Power(16) == 0x1_0000
  {
    assert Power(4) == 16;
    assert Power(12) == 0x1000;
  }
}
