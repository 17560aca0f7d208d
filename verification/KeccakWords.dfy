/** Machine words as strings of bits, least significant first, with the operations the witness
    generator performs on them; a lane is a pair of 32-bit words, four 16-bit limbs or eight bytes. */
module KeccakWords {
  import opened BitStrings
  import opened KeccakF

  // ---------------------------------------------------------------------------------------
  // Pairs of 32-bit words

  datatype Pair = Pair(low: Word, high: Word) {
    function Join(): Lane { low + high }
  }

  function XorPair(a: Pair, b: Pair): Pair { Pair(XorWords(a.low, b.low), XorWords(a.high, b.high)) }

  function AndNotPair(a: Pair, b: Pair): Pair {
    Pair(AndWords(NotWord(a.low), b.low), AndWords(NotWord(a.high), b.high))
  }

  /** The rotation of a 64-bit word held as two 32-bit words: shifts, added, after a swap when the
      amount reaches 32. */
  function RotPair(a: Pair, n: nat): Pair
    requires n < 64
  {
    if n < 32 then RotHalves(a.low, a.high, n) else RotHalves(a.high, a.low, n - 32)
  }

  function RotHalves(low: Word, high: Word, k: nat): Pair
    requires k < 32
  {
    Pair(Sum(Shl(low, k), Shr(high, 32 - k), false), Sum(Shl(high, k), Shr(low, 32 - k), false))
  }

  lemma PairOperations(a: Pair, b: Pair)
    ensures XorPair(a, b).Join() == Xor(a.Join(), b.Join())
    ensures AndNotPair(a, b).Join() == AndNot(a.Join(), b.Join())
  {
  }

  lemma RotLSplits(a: Lane, n: nat)
    requires n < 64
    ensures RotL(a, n) == a[64 - n..] + a[..64 - n]
  {
    forall z | 0 <= z < 64
      ensures RotL(a, n)[z] == (a[64 - n..] + a[..64 - n])[z]
    {
      if z < n { assert (z - n) % 64 == z - n + 64; }
    }
  }

  lemma Regroup(x: Bitstring, y: Bitstring, z: Bitstring, w: Bitstring)
    ensures (x + y) + (z + w) == x + ((y + z) + w)
  {
  }

  /** Two words rotated as one by less than a word. */
  lemma RotatedHalves(low: Word, high: Word, k: nat)
    requires k < 32
    ensures (high[32 - k..] + low[..32 - k]) + (low[32 - k..] + high[..32 - k])
         == high[32 - k..] + (low + high[..32 - k])
  {
    Regroup(high[32 - k..], low[..32 - k], low[32 - k..], high[..32 - k]);
    assert low[..32 - k] + low[32 - k..] == low;
  }

  lemma RotLBelow32(low: Word, high: Word, n: nat)
    requires n < 32
    ensures RotL(low + high, n) == high[32 - n..] + (low + high[..32 - n])
  {
    var l: Lane := low + high;
    RotLSplits(l, n);
    assert l[64 - n..] == high[32 - n..];
    assert l[..64 - n] == low + high[..32 - n];
  }

  lemma RotLFrom32(low: Word, high: Word, k: nat)
    requires k < 32
    ensures RotL(low + high, 32 + k) == low[32 - k..] + (high + low[..32 - k])
  {
    var l: Lane := low + high;
    RotLSplits(l, 32 + k);
    assert l[32 - k..] == low[32 - k..] + high;
    assert l[..32 - k] == low[..32 - k];
    assert (low[32 - k..] + high) + low[..32 - k] == low[32 - k..] + (high + low[..32 - k]);
  }

  lemma HalvesJoin(low: Word, high: Word, k: nat)
    requires k < 32
    ensures RotHalves(low, high, k).Join() == high[32 - k..] + (low + high[..32 - k])
  {
    ShiftsMeet(low, high, k);
    ShiftsMeet(high, low, k);
    RotatedHalves(low, high, k);
  }

  /** For every amount, zero and 32 included. */
  lemma RotPairIsRotL(a: Pair, n: nat)
    requires n < 64
    ensures RotPair(a, n).Join() == RotL(a.Join(), n)
  {
    if n < 32 {
      HalvesJoin(a.low, a.high, n);
      RotLBelow32(a.low, a.high, n);
    } else {
      HalvesJoin(a.high, a.low, n - 32);
      RotLFrom32(a.low, a.high, n - 32);
    }
  }
}
