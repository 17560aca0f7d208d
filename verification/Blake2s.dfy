/** BLAKE2s with a 32-byte digest and no key, as RFC 7693 defines it on 32-bit words. */
module Blake2s {
  import opened BitStrings

  const BLOCK_WORDS := 16
  const BLOCK_BYTES := 64
  const STATE_WORDS := 8
  const WORD_LIMIT := 0x1_0000_0000

  type State = h: seq<Word> | |h| == STATE_WORDS witness seq(STATE_WORDS, i => Zeros(32))
  type Block = m: seq<Word> | |m| == BLOCK_WORDS witness seq(BLOCK_WORDS, i => Zeros(32))

  /** Section 2.6. */
  const IV_NUMBERS: seq<nat> := [
    0x6A09E667, 0xBB67AE85, 0x3C6EF372, 0xA54FF53A, 0x510E527F, 0x9B05688C, 0x1F83D9AB, 0x5BE0CD19]

  function Iv(i: nat): Word
    requires i < 8
  {
    Bits(IV_NUMBERS[i], 32)
  }

  /** Section 2.5: no tree, no key, 32 bytes out. */
  const PARAMETERS: seq<nat> := [0x0101_0020, 0, 0, 0, 0, 0, 0, 0]

  function ParameterWord(i: nat): Word
    requires i < 8
  {
    Bits(PARAMETERS[i], 32)
  }

  function InitialState(): State {
    seq(STATE_WORDS, i requires 0 <= i < STATE_WORDS => XorWords(Iv(i), ParameterWord(i)))
  }

  type Permutation = s: seq<nat> | |s| == 16 && forall i :: 0 <= i < 16 ==> s[i] < 16 witness seq(16, i => 0)

  /** Section 2.7. */
  const SIGMA_0: Permutation := [0, 1, 2, 3, 4, 5, 6, 7, 8, 9, 10, 11, 12, 13, 14, 15]
  const SIGMA_1: Permutation := [14, 10, 4, 8, 9, 15, 13, 6, 1, 12, 0, 2, 11, 7, 5, 3]
  const SIGMA_2: Permutation := [11, 8, 12, 0, 5, 2, 15, 13, 10, 14, 3, 6, 7, 1, 9, 4]
  const SIGMA_3: Permutation := [7, 9, 3, 1, 13, 12, 11, 14, 2, 6, 5, 10, 4, 0, 15, 8]
  const SIGMA_4: Permutation := [9, 0, 5, 7, 2, 4, 10, 15, 14, 1, 11, 12, 6, 8, 3, 13]
  const SIGMA_5: Permutation := [2, 12, 6, 10, 0, 11, 8, 3, 4, 13, 7, 5, 15, 14, 1, 9]
  const SIGMA_6: Permutation := [12, 5, 1, 15, 14, 13, 4, 10, 0, 7, 6, 3, 9, 2, 8, 11]
  const SIGMA_7: Permutation := [13, 11, 7, 14, 12, 1, 3, 9, 5, 0, 15, 4, 8, 6, 2, 10]
  const SIGMA_8: Permutation := [6, 15, 14, 9, 11, 3, 0, 8, 12, 2, 13, 7, 1, 4, 10, 5]
  const SIGMA_9: Permutation := [10, 2, 8, 4, 7, 6, 1, 5, 15, 11, 9, 14, 3, 12, 13, 0]
  const SIGMA: seq<Permutation> := [
    SIGMA_0, SIGMA_1, SIGMA_2, SIGMA_3, SIGMA_4, SIGMA_5, SIGMA_6, SIGMA_7, SIGMA_8, SIGMA_9]

  // ---------------------------------------------------------------------------------------
  // The compression function

  /** Addition modulo 2^32. */
  function Plus(a: Word, b: Word): Word { Sum(a, b, false) }

  function RotateRight(a: Word, n: nat): Word
    requires n < 32
  {
    a[n..] + a[..n]
  }

  datatype Four = Four(a: Word, b: Word, c: Word, d: Word)

  /** Half of the mixing function: one message word, two rotations. */
  function HalfMix(v: Four, x: Word, first: nat, second: nat): Four
    requires first < 32 && second < 32
  {
    var a := Plus(Plus(v.a, v.b), x);
    var d := RotateRight(XorWords(v.d, a), first);
    var c := Plus(v.c, d);
    var b := RotateRight(XorWords(v.b, c), second);
    Four(a, b, c, d)
  }

  /** Section 3.1, on the four words it touches. */
  function Mix(v: Four, x: Word, y: Word): Four {
    HalfMix(HalfMix(v, x, 16, 12), y, 8, 7)
  }

  /** Column k of the four-by-four state, and the diagonal that starts in column k. */
  function Column(v: Block, k: nat): Four
    requires k < 4
  {
    Four(v[k], v[4 + k], v[8 + k], v[12 + k])
  }

  function Diagonal(v: Block, k: nat): Four
    requires k < 4
  {
    Four(v[k], v[4 + (k + 1) % 4], v[8 + (k + 2) % 4], v[12 + (k + 3) % 4])
  }

  /** The state with these columns. */
  function FromColumns(r0: Four, r1: Four, r2: Four, r3: Four): Block {
    [r0.a, r1.a, r2.a, r3.a,
     r0.b, r1.b, r2.b, r3.b,
     r0.c, r1.c, r2.c, r3.c,
     r0.d, r1.d, r2.d, r3.d]
  }

  /** The state with these diagonals. */
  function FromDiagonals(r0: Four, r1: Four, r2: Four, r3: Four): Block {
    [r0.a, r1.a, r2.a, r3.a,
     r3.b, r0.b, r1.b, r2.b,
     r2.c, r3.c, r0.c, r1.c,
     r1.d, r2.d, r3.d, r0.d]
  }

  function MixColumn(v: Block, m: Block, s: Permutation, k: nat): Four
    requires k < 4
  {
    Mix(Column(v, k), m[s[2 * k]], m[s[2 * k + 1]])
  }

  function MixDiagonal(v: Block, m: Block, s: Permutation, k: nat): Four
    requires k < 4
  {
    Mix(Diagonal(v, k), m[s[8 + 2 * k]], m[s[9 + 2 * k]])
  }

  function MixColumns(v: Block, m: Block, s: Permutation): Block {
    FromColumns(MixColumn(v, m, s, 0), MixColumn(v, m, s, 1), MixColumn(v, m, s, 2), MixColumn(v, m, s, 3))
  }

  function MixDiagonals(v: Block, m: Block, s: Permutation): Block {
    FromDiagonals(MixDiagonal(v, m, s, 0), MixDiagonal(v, m, s, 1), MixDiagonal(v, m, s, 2), MixDiagonal(v, m, s, 3))
  }

  /** A round: all columns, then all diagonals. */
  function Round(v: Block, m: Block, s: Permutation): Block {
    MixDiagonals(MixColumns(v, m, s), m, s)
  }

  function Rounds(v: Block, m: Block, n: nat): Block
    requires n <= 10
  {
    if n == 0 then v else Round(Rounds(v, m, n - 1), m, SIGMA[n - 1])
  }

  /** The word of a counter. */
  function ToWord(n: nat): Word { Bits(n, 32) }

  /** The second half of the extended state: the initialization vector, with the 64-bit byte counter
      and the mark of the last block. */
  function ExtensionWord(k: nat, low: Word, high: Word, last: bool): Word
    requires k < 8
  {
    if k == 4 then XorWords(Iv(4), low)
    else if k == 5 then XorWords(Iv(5), high)
    else if k == 6 && last then NotWord(Iv(6))
    else Iv(k)
  }

  function Extended(h: State, low: Word, high: Word, last: bool): Block {
    seq(16, i requires 0 <= i < 16 => if i < 8 then h[i] else ExtensionWord(i - 8, low, high, last))
  }

  function Fold(h: State, v: Block): State {
    seq(8, i requires 0 <= i < 8 => XorWords(XorWords(h[i], v[i]), v[i + 8]))
  }

  /** The compression function F (section 3.2); the standard has ten rounds. */
  function Compress(h: State, m: Block, t: nat, last: bool, rounds: nat): State
    requires rounds <= 10
  {
    Fold(h, Rounds(Extended(h, ToWord(t), ToWord(t / WORD_LIMIT), last), m, rounds))
  }

  type Compression = (State, Block, nat, bool) -> State

  function Compressor(rounds: nat): Compression
    requires rounds <= 10
  {
    (h, m, t, last) => Compress(h, m, t, last, rounds)
  }

  // ---------------------------------------------------------------------------------------
  // The hash of a message

  function WordOrZero(words: seq<Word>, i: nat): Word {
    if i < |words| then words[i] else Zeros(32)
  }

  function Padded(words: seq<Word>): Block
    requires |words| <= BLOCK_WORDS
  {
    seq(BLOCK_WORDS, i requires 0 <= i < BLOCK_WORDS => WordOrZero(words, i))
  }

  /** Section 3.3, from a state that has taken t bytes: every block but the last is full, and the last
      is never empty unless the message is. */
  function Hash(f: Compression, h: State, words: seq<Word>, t: nat): State
    decreases |words|
  {
    if |words| <= BLOCK_WORDS then f(h, Padded(words), t + 4 * |words|, true)
    else Hash(f, f(h, words[..16], t + BLOCK_BYTES, false), words[16..], t + BLOCK_BYTES)
  }

  function Digest(words: seq<Word>, rounds: nat): State
    requires rounds <= 10
  {
    Hash(Compressor(rounds), InitialState(), words, 0)
  }

  /** A message of one full block is one compression, marked last. */
  lemma OneBlock(f: Compression, h: State, m: Block)
    ensures Hash(f, h, m, 0) == f(h, m, BLOCK_BYTES, true)
  {
    assert Padded(m) == m;
  }

  // The same on messages of octets, whose number need not be a multiple of four.

  type Octet = o: Bitstring | |o| == 8 witness Zeros(8)

  function OctetOrZero(bytes: seq<Octet>, i: nat): Octet {
    if i < |bytes| then bytes[i] else Zeros(8)
  }

  /** Section 2.4: octets make words least significant first. */
  function WordOfOctets(bytes: seq<Octet>, i: nat): Word {
    OctetOrZero(bytes, 4 * i) + OctetOrZero(bytes, 4 * i + 1)
    + OctetOrZero(bytes, 4 * i + 2) + OctetOrZero(bytes, 4 * i + 3)
  }

  function PaddedBytes(bytes: seq<Octet>): Block
    requires |bytes| <= BLOCK_BYTES
  {
    seq(BLOCK_WORDS, i requires 0 <= i < BLOCK_WORDS => WordOfOctets(bytes, i))
  }

  function HashBytes(f: Compression, h: State, bytes: seq<Octet>, t: nat): State
    decreases |bytes|
  {
    if |bytes| <= BLOCK_BYTES then f(h, PaddedBytes(bytes), t + |bytes|, true)
    else HashBytes(f, f(h, PaddedBytes(bytes[..64]), t + BLOCK_BYTES, false), bytes[64..], t + BLOCK_BYTES)
  }

  function DigestBytes(bytes: seq<Octet>, rounds: nat): State
    requires rounds <= 10
  {
    HashBytes(Compressor(rounds), InitialState(), bytes, 0)
  }

  /** Octet k of a word. */
  function OctetOf(w: Word, k: nat): Octet
    requires k < 4
  {
    w[8 * k..8 * k + 8]
  }

  function OctetsOf(words: seq<Word>): (bytes: seq<Octet>)
    ensures |bytes| == 4 * |words|
  {
    seq(4 * |words|, i requires 0 <= i < 4 * |words| => OctetOf(words[i / 4], i % 4))
  }

  lemma OctetsJoin(w: Word)
    ensures OctetOf(w, 0) + OctetOf(w, 1) + OctetOf(w, 2) + OctetOf(w, 3) == w
  {
  }

  lemma WordOfOctetsOf(words: seq<Word>, i: nat)
    ensures WordOfOctets(OctetsOf(words), i) == WordOrZero(words, i)
  {
    if i < |words| {
      OctetsJoin(words[i]);
    } else {
      assert Zeros(8) + Zeros(8) + Zeros(8) + Zeros(8) == Zeros(32);
    }
  }

  lemma PaddedOctets(words: seq<Word>)
    requires |words| <= BLOCK_WORDS
    ensures PaddedBytes(OctetsOf(words)) == Padded(words)
  {
    forall i: nat | i < BLOCK_WORDS
      ensures PaddedBytes(OctetsOf(words))[i] == Padded(words)[i]
    {
      WordOfOctetsOf(words, i);
    }
  }

  /** On whole words the two descriptions of a hash agree. */
  lemma {:induction false} HashOfOctets(f: Compression, h: State, words: seq<Word>, t: nat)
    ensures HashBytes(f, h, OctetsOf(words), t) == Hash(f, h, words, t)
    decreases |words|
  {
    if |words| <= BLOCK_WORDS {
      PaddedOctets(words);
    } else {
      var bytes := OctetsOf(words);
      assert bytes[..64] == OctetsOf(words[..16]) && bytes[64..] == OctetsOf(words[16..]);
      PaddedOctets(words[..16]);
      assert Padded(words[..16]) == words[..16];
      HashOfOctets(f, f(h, words[..16], t + BLOCK_BYTES, false), words[16..], t + BLOCK_BYTES);
    }
  }

  // A compression whose byte counter is a 32-bit word.

  function Wrapping(f: Compression): Compression {
    (h, m, t, last) => f(h, m, t % WORD_LIMIT, last)
  }

  /** Below 2^32 bytes the counter does not wrap. */
  lemma {:induction false} BelowTheLimit(f: Compression, h: State, words: seq<Word>, t: nat)
    requires t + 4 * |words| < WORD_LIMIT
    ensures Hash(Wrapping(f), h, words, t) == Hash(f, h, words, t)
    decreases |words|
  {
    if |words| > BLOCK_WORDS {
      BelowTheLimit(f, f(h, words[..16], t + BLOCK_BYTES, false), words[16..], t + BLOCK_BYTES);
    }
  }

  lemma {:induction false} BytesBelowTheLimit(f: Compression, h: State, bytes: seq<Octet>, t: nat)
    requires t + |bytes| < WORD_LIMIT
    ensures HashBytes(Wrapping(f), h, bytes, t) == HashBytes(f, h, bytes, t)
    decreases |bytes|
  {
    if |bytes| > BLOCK_BYTES {
      BytesBelowTheLimit(f, f(h, PaddedBytes(bytes[..64]), t + BLOCK_BYTES, false), bytes[64..], t + BLOCK_BYTES);
    }
  }
}
