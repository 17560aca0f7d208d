/** What the constants and the helpers of BLAKE2s mean, on numbers: rotations, counters, octets, the
    initialization vector, the parameters and the message schedule. */
module Blake2sLaws {
  import opened BitStrings
  import opened Blake2s

  // ---------------------------------------------------------------------------------------
  // Words and numbers

  /** The number of a string of bits. */
  function Number(b: Bitstring): nat {
    if |b| == 0 then 0 else Weight(b[0]) + 2 * Number(b[1..])
  }

  lemma {:induction false} NumberOfBits(n: nat, width: nat)
    requires n < Power(width)
    ensures Number(Bits(n, width)) == n
  {
    if width > 0 {
      NumberOfBits(n / 2, width - 1);
      assert Bits(n, width)[1..] == Bits(n / 2, width - 1);
    }
  }

  lemma WordLimit()
    ensures Power(32) == WORD_LIMIT
  {
    SmallPowers();
    PowerAdds(16, 16);
  }

  lemma {:induction false} PowerAdds(j: nat, k: nat)
    ensures Power(j + k) == Power(j) * Power(k)
  {
    if j > 0 {
      PowerAdds(j - 1, k);
      assert Power(j + k) == 2 * (Power(j - 1) * Power(k));
    }
  }

  /** A word keeps a number modulo 2^32. */
  lemma NumberOfWord(n: nat)
    ensures Number(ToWord(n)) == n % WORD_LIMIT
  {
    var low, high := n % WORD_LIMIT, n / WORD_LIMIT;
    WordLimit();
    BitsAppend(low, high, 32, WORD_LIMIT, 0);
    assert Bits(low, 32) + Bits(high, 0) == Bits(low, 32);
    NumberOfBits(low, 32);
  }

  /** A right rotation is a division, with the remainder moved to the top. */
  lemma RotationDivides(x: nat, n: nat)
    requires x < WORD_LIMIT && n < 32
    ensures RotateRight(Bits(x, 32), n) == Bits(x / Power(n) + Power(32 - n) * (x % Power(n)), 32)
  {
    var p, q := Power(n), Power(32 - n);
    PowersMeet(n);
    DivisionBelow(x, p, q);
    Divided(x, p);
    PartsRotate(x, n, x % p, x / p, p, q);
  }

  lemma PowersMeet(n: nat)
    requires n < 32
    ensures Power(n) * Power(32 - n) == WORD_LIMIT
  {
    WordLimit();
    PowerAdds(n, 32 - n);
  }

  lemma Divided(x: nat, p: nat)
    requires p > 0
    ensures x == x % p + p * (x / p) && x % p < p
  {
  }

  lemma PartsRotate(x: nat, n: nat, low: nat, high: nat, p: nat, q: nat)
    requires n < 32 && p == Power(n) && q == Power(32 - n) && low < p && high < q && x == low + p * high
    ensures RotateRight(Bits(x, 32), n) == Bits(high + q * low, 32)
  {
    BitsAppend(low, high, n, p, 32 - n);
    BitsAppend(high, low, 32 - n, q, n);
    Rotated(Bits(x, 32), Bits(low, n), Bits(high, 32 - n), n);
  }

  lemma Rotated(w: Word, a: Bitstring, b: Bitstring, n: nat)
    requires n < 32 && |a| == n && w == a + b
    ensures RotateRight(w, n) == b + a
  {
  }

  lemma DivisionBelow(x: nat, p: nat, q: nat)
    requires p > 0 && x < p * q
    ensures x / p < q
  {
    Multiples(p, x / p, q);
    assert p * (x / p) <= x;
  }

  lemma Multiples(p: nat, a: nat, b: nat)
    ensures a >= b ==> p * a >= p * b
  {
  }

  // ---------------------------------------------------------------------------------------
  // The counter

  lemma XorTwice(a: Word, b: Word)
    ensures XorWords(XorWords(a, b), a) == b
  {
  }

  /** The extended state carries the byte counter: its words 12 and 13, with the vector taken out again,
      are the two halves of t modulo 2^64. */
  lemma CounterMixed(h: State, t: nat, last: bool)
    ensures var v := Extended(h, ToWord(t), ToWord(t / WORD_LIMIT), last);
      Number(XorWords(v[12], Iv(4))) == t % WORD_LIMIT && Number(XorWords(v[13], Iv(5))) == t / WORD_LIMIT % WORD_LIMIT
  {
    XorTwice(Iv(4), ToWord(t));
    XorTwice(Iv(5), ToWord(t / WORD_LIMIT));
    NumberOfWord(t);
    NumberOfWord(t / WORD_LIMIT);
  }

  /** The mark of the last block inverts word 14, bit by bit, and nothing else. */
  lemma MarkInverts(h: State, low: Word, high: Word, k: nat, z: nat)
    requires k < 16 && z < 32
    ensures Extended(h, low, high, true)[k][z] != Extended(h, low, high, false)[k][z] <==> k == 14
  {
    if k >= 8 {
      assert Extended(h, low, high, true)[k] == ExtensionWord(k - 8, low, high, true);
      assert Extended(h, low, high, false)[k] == ExtensionWord(k - 8, low, high, false);
    }
  }

  // ---------------------------------------------------------------------------------------
  // Constants

  const PRIMES: seq<nat> := [2, 3, 5, 7, 11, 13, 17, 19]
  const ROOTS: seq<nat> := [1, 1, 2, 2, 3, 3, 4, 4]

  /** The initialization vector is the first 32 bits of the fractional parts of the square roots of the
      first eight primes. */
  lemma VectorIsRoots(i: nat)
    requires i < 8
    ensures ROOTS[i] * ROOTS[i] < PRIMES[i] < (ROOTS[i] + 1) * (ROOTS[i] + 1)
    ensures var r := ROOTS[i] * WORD_LIMIT + IV_NUMBERS[i];
      r * r < PRIMES[i] * WORD_LIMIT * WORD_LIMIT < (r + 1) * (r + 1)
  {
    assert i == 0 || i == 1 || i == 2 || i == 3 || i == 4 || i == 5 || i == 6 || i == 7;
  }

  /** The parameters: digest length, key length, fanout and depth, one octet each, and nothing else. */
  lemma ParametersAre(digest: nat, key: nat, fanout: nat, depth: nat)
    requires digest == 4 * STATE_WORDS && key == 0 && fanout == 1 && depth == 1
    ensures PARAMETERS[0] == digest + 0x100 * key + 0x1_0000 * fanout + 0x100_0000 * depth
    ensures forall i :: 0 < i < 8 ==> PARAMETERS[i] == 0
  {
  }

  /** No word twice in a round, and no word in the same place as in a later round. */
  predicate Scheduled(s: Permutation, later: seq<Permutation>) {
    && (forall j, k :: 0 <= j < k < 16 ==> s[j] != s[k])
    && forall q, k :: 0 <= q < |later| && 0 <= k < 16 ==> later[q][k] != s[k]
  }

  lemma Together(s: Permutation, near: seq<Permutation>, far: seq<Permutation>)
    requires Scheduled(s, near) && Scheduled(s, far)
    ensures Scheduled(s, near + far)
  {
    forall q, k | 0 <= q < |near + far| && 0 <= k < 16
      ensures (near + far)[q][k] != s[k]
    {
      if q >= |near| { assert far[q - |near|][k] != s[k]; } else { assert near[q][k] != s[k]; }
    }
  }

  lemma Schedule0Near()
    ensures Scheduled(SIGMA_0, [SIGMA_1, SIGMA_2, SIGMA_3, SIGMA_4])
  {
  }

  lemma Schedule0Far()
    ensures Scheduled(SIGMA_0, [SIGMA_5, SIGMA_6, SIGMA_7, SIGMA_8, SIGMA_9])
  {
  }

  lemma Schedule0()
    ensures Scheduled(SIGMA_0, SIGMA[1..])
  {
    var near, far := [SIGMA_1, SIGMA_2, SIGMA_3, SIGMA_4], [SIGMA_5, SIGMA_6, SIGMA_7, SIGMA_8, SIGMA_9];
    Schedule0Near();
    Schedule0Far();
    Together(SIGMA_0, near, far);
    assert SIGMA[1..] == near + far;
  }

  lemma Schedule1Near()
    ensures Scheduled(SIGMA_1, [SIGMA_2, SIGMA_3, SIGMA_4, SIGMA_5])
  {
  }

  lemma Schedule1Far()
    ensures Scheduled(SIGMA_1, [SIGMA_6, SIGMA_7, SIGMA_8, SIGMA_9])
  {
  }

  lemma Schedule1()
    ensures Scheduled(SIGMA_1, SIGMA[2..])
  {
    var near, far := [SIGMA_2, SIGMA_3, SIGMA_4, SIGMA_5], [SIGMA_6, SIGMA_7, SIGMA_8, SIGMA_9];
    Schedule1Near();
    Schedule1Far();
    Together(SIGMA_1, near, far);
    assert SIGMA[2..] == near + far;
  }

  lemma Schedule2Near()
    ensures Scheduled(SIGMA_2, [SIGMA_3, SIGMA_4, SIGMA_5])
  {
  }

  lemma Schedule2Far()
    ensures Scheduled(SIGMA_2, [SIGMA_6, SIGMA_7, SIGMA_8, SIGMA_9])
  {
  }

  lemma Schedule2()
    ensures Scheduled(SIGMA_2, SIGMA[3..])
  {
    var near, far := [SIGMA_3, SIGMA_4, SIGMA_5], [SIGMA_6, SIGMA_7, SIGMA_8, SIGMA_9];
    Schedule2Near();
    Schedule2Far();
    Together(SIGMA_2, near, far);
    assert SIGMA[3..] == near + far;
  }

  lemma Schedule3Near()
    ensures Scheduled(SIGMA_3, [SIGMA_4, SIGMA_5, SIGMA_6])
  {
  }

  lemma Schedule3Far()
    ensures Scheduled(SIGMA_3, [SIGMA_7, SIGMA_8, SIGMA_9])
  {
  }

  lemma Schedule3()
    ensures Scheduled(SIGMA_3, SIGMA[4..])
  {
    var near, far := [SIGMA_4, SIGMA_5, SIGMA_6], [SIGMA_7, SIGMA_8, SIGMA_9];
    Schedule3Near();
    Schedule3Far();
    Together(SIGMA_3, near, far);
    assert SIGMA[4..] == near + far;
  }

  lemma Schedule4()
    ensures Scheduled(SIGMA_4, [SIGMA_5, SIGMA_6, SIGMA_7, SIGMA_8, SIGMA_9])
  {
  }

  lemma Schedule5()
    ensures Scheduled(SIGMA_5, [SIGMA_6, SIGMA_7, SIGMA_8, SIGMA_9])
  {
  }

  lemma Schedule6()
    ensures Scheduled(SIGMA_6, [SIGMA_7, SIGMA_8, SIGMA_9])
  {
  }

  lemma Schedule7()
    ensures Scheduled(SIGMA_7, [SIGMA_8, SIGMA_9])
  {
  }

  lemma Schedule8()
    ensures Scheduled(SIGMA_8, [SIGMA_9])
  {
  }

  lemma Schedule9()
    ensures Scheduled(SIGMA_9, [])
  {
  }

  /** The ten rounds of the standard: each uses every word of the block once, and no two use the same word
      in the same place. */
  lemma Schedules(r: nat)
    requires r < 10
    ensures Scheduled(SIGMA[r], SIGMA[r + 1..])
  {
    match r
    case 0 => Schedule0();
    case 1 => Schedule1();
    case 2 => Schedule2();
    case 3 => Schedule3();
    case 4 =>
      Schedule4();
      assert SIGMA[5..] == [SIGMA_5, SIGMA_6, SIGMA_7, SIGMA_8, SIGMA_9];
    case 5 =>
      Schedule5();
      assert SIGMA[6..] == [SIGMA_6, SIGMA_7, SIGMA_8, SIGMA_9];
    case 6 =>
      Schedule6();
      assert SIGMA[7..] == [SIGMA_7, SIGMA_8, SIGMA_9];
    case 7 =>
      Schedule7();
      assert SIGMA[8..] == [SIGMA_8, SIGMA_9];
    case 8 =>
      Schedule8();
      assert SIGMA[9..] == [SIGMA_9];
    case _ =>
      Schedule9();
      assert SIGMA[10..] == [];
  }

  // ---------------------------------------------------------------------------------------
  // Octets

  /** Four octets are a word, the lowest first. */
  lemma LittleEndian(bytes: seq<Octet>, i: nat, n: nat, n0: nat, n1: nat, n2: nat, n3: nat)
    requires n0 < 0x100 && n1 < 0x100 && n2 < 0x100 && n3 < 0x100 && 4 * i + 3 < |bytes|
    requires bytes[4 * i] == Bits(n0, 8) && bytes[4 * i + 1] == Bits(n1, 8)
    requires bytes[4 * i + 2] == Bits(n2, 8) && bytes[4 * i + 3] == Bits(n3, 8)
    requires n == n0 + 0x100 * n1 + 0x1_0000 * n2 + 0x100_0000 * n3
    ensures WordOfOctets(bytes, i) == Bits(n, 32)
  {
    OctetsJoin(bytes[4 * i], bytes[4 * i + 1], bytes[4 * i + 2], bytes[4 * i + 3], bytes, i);
    var low, high := n0 + 0x100 * n1, n2 + 0x100 * n3;
    OctetPair(low, n0, n1);
    OctetPair(high, n2, n3);
    var a: Bitstring, b: Bitstring := bytes[4 * i], bytes[4 * i + 1];
    var c: Bitstring, d: Bitstring := bytes[4 * i + 2], bytes[4 * i + 3];
    FourOctets(n, low, high, a + b, c + d);
  }

  lemma OctetsJoin(a: Octet, b: Octet, c: Octet, d: Octet, bytes: seq<Octet>, i: nat)
    requires 4 * i + 3 < |bytes| && bytes[4 * i] == a && bytes[4 * i + 1] == b
    requires bytes[4 * i + 2] == c && bytes[4 * i + 3] == d
    ensures WordOfOctets(bytes, i) == (a + b) + (c + d)
  {
  }

  lemma FourOctets(n: nat, low: nat, high: nat, a: Bitstring, b: Bitstring)
    requires low < 0x1_0000 && n == low + 0x1_0000 * high && Bits(low, 16) == a && Bits(high, 16) == b
    ensures Bits(n, 32) == a + b
  {
    PowerOf16();
    BitsAppend(low, high, 16, 0x1_0000, 16);
  }

  lemma OctetPair(n: nat, low: nat, high: nat)
    requires low < 0x100 && n == low + 0x100 * high
    ensures Bits(n, 16) == Bits(low, 8) + Bits(high, 8)
  {
    SmallPowers();
    BitsAppend(low, high, 8, 0x100, 8);
  }

  lemma PowerOf16()
    ensures Power(16) == 0x1_0000
  {
    SmallPowers();
  }

  /** Octets past the end of a message count as zeros. */
  lemma PaddingIsZero(bytes: seq<Octet>)
    requires |bytes| < BLOCK_BYTES
    ensures PaddedBytes(bytes) == PaddedBytes(bytes + [Zeros(8)])
  {
    var longer := bytes + [Zeros(8)];
    forall i: nat | i < BLOCK_WORDS
      ensures PaddedBytes(bytes)[i] == PaddedBytes(longer)[i]
    {
      SameOctet(bytes, 4 * i);
      SameOctet(bytes, 4 * i + 1);
      SameOctet(bytes, 4 * i + 2);
      SameOctet(bytes, 4 * i + 3);
    }
  }

  lemma SameOctet(bytes: seq<Octet>, k: nat)
    ensures OctetOrZero(bytes + [Zeros(8)], k) == OctetOrZero(bytes, k)
  {
  }
}
