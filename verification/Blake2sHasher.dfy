/** The hasher: words of state, a buffer, and a 32-bit byte counter, mixed in place. */
module Blake2sHasher {
  import opened BitStrings
  import opened Blake2s

  type u32 = x: int | 0 <= x < WORD_LIMIT

  // ---------------------------------------------------------------------------------------
  // Rounds in place

  /** Four places of the extended state. */
  function At(v: Block, a: nat, b: nat, c: nat, d: nat): Four
    requires a < 16 && b < 16 && c < 16 && d < 16
  {
    Four(v[a], v[b], v[c], v[d])
  }

  /** Only the four places change, to the words of r. */
  ghost predicate Mixed(before: Block, after: Block, a: nat, b: nat, c: nat, d: nat, r: Four)
    requires a < 16 && b < 16 && c < 16 && d < 16
  {
    && At(after, a, b, c, d) == r
    && forall i :: 0 <= i < 16 && i != a && i != b && i != c && i != d ==> after[i] == before[i]
  }

  /** G on four places. */
  method MixAt(v: array<Word>, a: nat, b: nat, c: nat, d: nat, x: Word, y: Word)
    requires v.Length == 16 && a < 4 <= b < 8 <= c < 12 <= d < 16
    modifies v
    ensures Mixed(old(v[..]), v[..], a, b, c, d, Mix(At(old(v[..]), a, b, c, d), x, y))
  {
    v[a] := Plus(Plus(v[a], v[b]), x);
    v[d] := RotateRight(XorWords(v[d], v[a]), 16);
    v[c] := Plus(v[c], v[d]);
    v[b] := RotateRight(XorWords(v[b], v[c]), 12);
    v[a] := Plus(Plus(v[a], v[b]), y);
    v[d] := RotateRight(XorWords(v[d], v[a]), 8);
    v[c] := Plus(v[c], v[d]);
    v[b] := RotateRight(XorWords(v[b], v[c]), 7);
  }

  /** Four disjoint columns, changed one after the other. */
  lemma ColumnsMixed(v0: Block, v1: Block, v2: Block, v3: Block, v4: Block, r0: Four, r1: Four, r2: Four, r3: Four)
    requires Mixed(v0, v1, 0, 4, 8, 12, r0) && Mixed(v1, v2, 1, 5, 9, 13, r1)
    requires Mixed(v2, v3, 2, 6, 10, 14, r2) && Mixed(v3, v4, 3, 7, 11, 15, r3)
    ensures v4 == FromColumns(r0, r1, r2, r3)
  {
    assert At(v4, 0, 4, 8, 12) == r0 && At(v4, 1, 5, 9, 13) == r1 && At(v4, 2, 6, 10, 14) == r2;
  }

  lemma DiagonalsMixed(v0: Block, v1: Block, v2: Block, v3: Block, v4: Block, r0: Four, r1: Four, r2: Four, r3: Four)
    requires Mixed(v0, v1, 0, 5, 10, 15, r0) && Mixed(v1, v2, 1, 6, 11, 12, r1)
    requires Mixed(v2, v3, 2, 7, 8, 13, r2) && Mixed(v3, v4, 3, 4, 9, 14, r3)
    ensures v4 == FromDiagonals(r0, r1, r2, r3)
  {
    assert At(v4, 0, 5, 10, 15) == r0 && At(v4, 1, 6, 11, 12) == r1 && At(v4, 2, 7, 8, 13) == r2;
  }

  method MixColumnsInPlace(v: array<Word>, m: Block, s: Permutation)
    requires v.Length == 16
    modifies v
    ensures v[..] == MixColumns(old(v[..]), m, s)
  {
    ghost var v0: Block := v[..];
    MixAt(v, 0, 4, 8, 12, m[s[0]], m[s[1]]);
    ghost var v1: Block := v[..];
    MixAt(v, 1, 5, 9, 13, m[s[2]], m[s[3]]);
    ghost var v2: Block := v[..];
    MixAt(v, 2, 6, 10, 14, m[s[4]], m[s[5]]);
    ghost var v3: Block := v[..];
    MixAt(v, 3, 7, 11, 15, m[s[6]], m[s[7]]);
    ColumnsMixed(v0, v1, v2, v3, v[..],
      MixColumn(v0, m, s, 0), MixColumn(v0, m, s, 1), MixColumn(v0, m, s, 2), MixColumn(v0, m, s, 3));
  }

  method MixDiagonalsInPlace(v: array<Word>, m: Block, s: Permutation)
    requires v.Length == 16
    modifies v
    ensures v[..] == MixDiagonals(old(v[..]), m, s)
  {
    ghost var v0: Block := v[..];
    MixAt(v, 0, 5, 10, 15, m[s[8]], m[s[9]]);
    ghost var v1: Block := v[..];
    MixAt(v, 1, 6, 11, 12, m[s[10]], m[s[11]]);
    ghost var v2: Block := v[..];
    MixAt(v, 2, 7, 8, 13, m[s[12]], m[s[13]]);
    ghost var v3: Block := v[..];
    MixAt(v, 3, 4, 9, 14, m[s[14]], m[s[15]]);
    DiagonalsMixed(v0, v1, v2, v3, v[..],
      MixDiagonal(v0, m, s, 0), MixDiagonal(v0, m, s, 1), MixDiagonal(v0, m, s, 2), MixDiagonal(v0, m, s, 3));
  }

  method RoundInPlace(v: array<Word>, m: Block, s: Permutation)
    requires v.Length == 16
    modifies v
    ensures v[..] == Round(old(v[..]), m, s)
  {
    MixColumnsInPlace(v, m, s);
    MixDiagonalsInPlace(v, m, s);
  }

  lemma NextRound(v: Block, m: Block, i: nat, w: Block, x: Block)
    requires i < 10 && w == Rounds(v, m, i) && x == Round(w, m, SIGMA[i])
    ensures x == Rounds(v, m, i + 1)
  {
  }

  /** Ten rounds, or seven in the reduced form. */
  method RoundFunction(v: array<Word>, m: Block, rounds: nat)
    requires v.Length == 16 && rounds <= 10
    modifies v
    ensures v[..] == Rounds(old(v[..]), m, rounds)
  {
    ghost var start: Block := v[..];
    for i := 0 to rounds
      invariant v[..] == Rounds(start, m, i)
    {
      ghost var before: Block := v[..];
      RoundInPlace(v, m, SIGMA[i]);
      NextRound(start, m, i, before, v[..]);
    }
  }

  // ---------------------------------------------------------------------------------------
  // The hasher

  /** The initial state as the hasher stores it: only the first word differs from the vector. */
  function ConfiguredIv(): State {
    seq(STATE_WORDS, i requires 0 <= i < STATE_WORDS => if i == 0 then XorWords(Iv(0), ParameterWord(0)) else Iv(i))
  }

  lemma XorZeros(a: Word, z: Word)
    requires z == Zeros(32)
    ensures XorWords(a, z) == a && XorWords(z, a) == a
  {
  }

  lemma ConfiguredIsInitial()
    ensures ConfiguredIv() == InitialState()
  {
    forall i: nat | i < 8
      ensures ConfiguredIv()[i] == InitialState()[i]
    {
      if i > 0 {
        NoBits(32);
        XorZeros(Iv(i), ParameterWord(i));
      }
    }
  }

  /** The counter is exclusive-ored from the left, and the mark of the last block is all ones. */
  lemma Marks(x4: Word, x5: Word, x6: Word, low: Word, high: Word, last: bool, mark: Word)
    requires high == Zeros(32) && mark == if last then NotWord(Zeros(32)) else Zeros(32)
    ensures XorWords(low, x4) == XorWords(x4, low) && XorWords(x5, high) == x5
    ensures XorWords(mark, x6) == if last then NotWord(x6) else x6
  {
    XorZeros(x5, high);
    if !last { XorZeros(x6, mark); }
  }

  lemma CounterHigh(t: u32)
    ensures ToWord(t / WORD_LIMIT) == Zeros(32)
  {
    NoBits(32);
    assert t / WORD_LIMIT == 0;
  }

  lemma SecondHalf(k: nat, low: Word, high: Word, last: bool, mark: Word)
    requires k < 8 && high == Zeros(32) && mark == if last then NotWord(Zeros(32)) else Zeros(32)
    ensures ExtensionWord(k, low, high, last)
         == if k == 4 then XorWords(low, Iv(4)) else if k == 6 then XorWords(mark, Iv(6)) else Iv(k)
  {
    Marks(Iv(4), Iv(5), Iv(6), low, high, last, mark);
  }

  method SecondHalfWord(k: nat, low: Word, ghost high: Word, last: bool) returns (x: Word)
    requires k < 8 && high == Zeros(32)
    ensures x == ExtensionWord(k, low, high, last)
  {
    var mark := if last then NotWord(Zeros(32)) else Zeros(32);
    SecondHalf(k, low, high, last, mark);
    if k == 4 {
      x := XorWords(low, Iv(4));
    } else if k == 6 {
      x := XorWords(mark, Iv(6));
    } else {
      x := Iv(k);
    }
  }

  ghost predicate Extends(v: Block, h: State, low: Word, high: Word, last: bool, n: nat) {
    n <= 8 && forall k :: 0 <= k < n ==> v[k] == h[k] && v[k + 8] == ExtensionWord(k, low, high, last)
  }

  /** The extended state with a 32-bit counter: its high half is not mixed in at all. */
  method Extend(h: State, low: Word, ghost high: Word, last: bool) returns (v: array<Word>)
    requires high == Zeros(32)
    ensures fresh(v) && v[..] == Extended(h, low, high, last)
  {
    var zero: Word := Zeros(32);
    v := new Word[16](i => zero);
    for i := 0 to 8
      invariant Extends(v[..], h, low, high, last, i)
    {
      var x := SecondHalfWord(i, low, high, last);
      v[i], v[i + 8] := h[i], x;
    }
    Assembled(h, v[..], low, high, last);
  }

  lemma Assembled(h: State, v: Block, low: Word, high: Word, last: bool)
    requires Extends(v, h, low, high, last, 8)
    ensures v == Extended(h, low, high, last)
  {
    forall i: nat | i < 16
      ensures v[i] == Extended(h, low, high, last)[i]
    {
      if i >= 8 { assert v[i - 8 + 8] == ExtensionWord(i - 8, low, high, last); }
    }
  }

  /** Both halves of the mixed state go back into the state. */
  method FoldBack(h: State, v: array<Word>) returns (r: State)
    requires v.Length == 16
    ensures r == Fold(h, v[..])
  {
    r := h;
    for i := 0 to 8
      invariant forall k :: 0 <= k < 8 ==> r[k] == if k < i then Fold(h, v[..])[k] else h[k]
    {
      var x := XorWords(r[i], v[i]);
      r := r[i := XorWords(x, v[i + 8])];
    }
  }

  /** One compression: the state extended, mixed, and folded back. */
  method CompressWords(h: State, m: Block, t: u32, last: bool, rounds: nat) returns (r: State)
    requires rounds <= 10
    ensures r == Compress(h, m, t, last, rounds)
  {
    CounterHigh(t);
    var v := Extend(h, ToWord(t), ToWord(t / WORD_LIMIT), last);
    RoundFunction(v, m, rounds);
    r := FoldBack(h, v);
  }

  /** What the single-round entry computes: the extended state is built from h, and the mixed state is
      folded into the initial vector. */
  function SingleRound(h: State, m: Block, t: u32, rounds: nat): State
    requires rounds <= 10
  {
    Fold(InitialState(), Rounds(Extended(h, ToWord(t), ToWord(t / WORD_LIMIT), true), m, rounds))
  }

  lemma FoldIsInjective(a: State, b: State, v: Block)
    ensures Fold(a, v) == Fold(b, v) <==> a == b
  {
    if Fold(a, v) == Fold(b, v) {
      forall i: nat | i < 8
        ensures a[i] == b[i]
      {
        assert Fold(a, v)[i] == Fold(b, v)[i];
        XorCancels(a[i], b[i], v[i], v[i + 8]);
      }
    }
  }

  lemma XorCancels(a: Word, b: Word, x: Word, y: Word)
    requires XorWords(XorWords(a, x), y) == XorWords(XorWords(b, x), y)
    ensures a == b
  {
    forall k: nat | k < 32
      ensures a[k] == b[k]
    {
      assert XorWords(XorWords(a, x), y)[k] == XorWords(XorWords(b, x), y)[k];
    }
  }

  /** It is the last compression of a hash exactly when the state is still the initial one. */
  lemma SingleRoundExact(h: State, m: Block, t: u32, rounds: nat)
    requires rounds <= 10
    ensures SingleRound(h, m, t, rounds) == Compress(h, m, t, true, rounds) <==> h == InitialState()
  {
    FoldIsInjective(InitialState(), h, Rounds(Extended(h, ToWord(t), ToWord(t / WORD_LIMIT), true), m, rounds));
  }

  /** The digest, then, of a message of up to one block. */
  lemma SingleRoundDigest(words: seq<Word>, rounds: nat)
    requires |words| <= BLOCK_WORDS && rounds <= 10
    ensures SingleRound(InitialState(), Padded(words), 4 * |words|, rounds) == Digest(words, rounds)
  {
    SingleRoundExact(InitialState(), Padded(words), 4 * |words|, rounds);
  }

  predicate SameRounds(n: nat, rounds: nat) { n == rounds }

  /** f is the compression function with this many rounds. */
  ghost predicate Implements(f: Compression, rounds: nat) {
    rounds <= 10 && forall n: nat :: SameRounds(n, rounds) && n <= 10 ==> f == Compressor(n)
  }

  method Apply(h: State, m: Block, t: u32, last: bool, rounds: nat, ghost f: Compression) returns (r: State)
    requires Implements(f, rounds)
    ensures r == f(h, m, t, last)
  {
    assert SameRounds(rounds, rounds);
    r := CompressWords(h, m, t, last, rounds);
  }

  lemma CounterStep(t: int, n: int, k: int)
    requires t == n % WORD_LIMIT
    ensures (t + k) % WORD_LIMIT == (n + k) % WORD_LIMIT
  {
  }

  // One block of a message, for a hasher whose counter has wrapped.

  lemma StreamStep(f: Compression, h: State, words: seq<Word>, n: nat, next: State, t: u32)
    requires |words| > BLOCK_WORDS && t == (n + BLOCK_BYTES) % WORD_LIMIT && next == f(h, words[..16], t, false)
    ensures Hash(Wrapping(f), next, words[16..], n + BLOCK_BYTES) == Hash(Wrapping(f), h, words, n)
  {
  }

  lemma StreamEnd(f: Compression, h: State, words: seq<Word>, n: nat, digest: State, t: u32)
    requires |words| <= BLOCK_WORDS && t == (n + 4 * |words|) % WORD_LIMIT && digest == f(h, Padded(words), t, true)
    ensures digest == Hash(Wrapping(f), h, words, n)
  {
  }

  lemma BufferStep(f: Compression, h: State, bytes: seq<Octet>, n: nat, next: State, t: u32)
    requires |bytes| > BLOCK_BYTES && t == (n + BLOCK_BYTES) % WORD_LIMIT
    requires next == f(h, PaddedBytes(bytes[..64]), t, false)
    ensures HashBytes(Wrapping(f), next, bytes[64..], n + BLOCK_BYTES) == HashBytes(Wrapping(f), h, bytes, n)
  {
  }

  lemma BufferEnd(f: Compression, h: State, bytes: seq<Octet>, n: nat, next: State, t: u32)
    requires |bytes| <= BLOCK_BYTES && t == (n + |bytes|) % WORD_LIMIT && next == f(h, PaddedBytes(bytes), t, true)
    ensures next == HashBytes(Wrapping(f), h, bytes, n)
  {
  }

  class Hasher {
    var state: State
    var buffer: Block
    var t: u32

    constructor ()
      ensures state == InitialState() && t == 0
    {
      ConfiguredIsInitial();
      state, buffer, t := ConfiguredIv(), seq(16, i => Zeros(32)), 0;
    }

    method Reset()
      modifies this
      ensures state == InitialState() && t == 0 && buffer == old(buffer)
    {
      ConfiguredIsInitial();
      state, t := ConfiguredIv(), 0;
    }

    /** The buffer has been filled, zero-padded, by the caller. The counter wraps. */
    method RunRoundFunctionWithByteLen(bytes: nat, last: bool, rounds: nat, ghost f: Compression)
      requires Implements(f, rounds)
      modifies this`state, this`t
      ensures t == (old(t) + bytes) % WORD_LIMIT && state == f(old(state), buffer, t, last)
    {
      t := (t + bytes) % WORD_LIMIT;
      state := Apply(state, buffer, t, last, rounds, f);
    }

    method RunRoundFunction(words: nat, last: bool, rounds: nat, ghost f: Compression)
      requires Implements(f, rounds)
      modifies this`state, this`t
      ensures t == (old(t) + 4 * words) % WORD_LIMIT && state == f(old(state), buffer, t, last)
    {
      RunRoundFunctionWithByteLen(4 * words, last, rounds, f);
    }

    method Absorb(m: Block, rounds: nat, ghost f: Compression)
      requires Implements(f, rounds)
      modifies this`state, this`t
      ensures t == (old(t) + BLOCK_BYTES) % WORD_LIMIT && state == f(old(state), m, t, false)
    {
      t := (t + BLOCK_BYTES) % WORD_LIMIT;
      state := Apply(state, m, t, false, rounds, f);
    }

    /** The last block leaves the state alone and writes the digest. */
    method AbsorbFinalBlock(m: Block, words: nat, rounds: nat, ghost f: Compression) returns (digest: State)
      requires Implements(f, rounds)
      modifies this`t
      ensures t == (old(t) + 4 * words) % WORD_LIMIT && digest == f(state, m, t, true)
    {
      t := (t + 4 * words) % WORD_LIMIT;
      digest := Apply(state, m, t, true, rounds, f);
    }

    /** The buffer as the only block of a message, on the state as it is; the counter is not used. */
    method RunSingleRound(words: nat, rounds: nat) returns (digest: State)
      requires rounds <= 10
      ensures digest == SingleRound(state, buffer, 4 * words % WORD_LIMIT, rounds)
      ensures digest == Compress(state, buffer, 4 * words % WORD_LIMIT, true, rounds) <==> state == InitialState()
    {
      var t: u32 := 4 * words % WORD_LIMIT;
      CounterHigh(t);
      ConfiguredIsInitial();
      var v := Extend(state, ToWord(t), ToWord(t / WORD_LIMIT), true);
      RoundFunction(v, buffer, rounds);
      digest := FoldBack(ConfiguredIv(), v);
      SingleRoundExact(state, buffer, t, rounds);
    }

    // The two ways to hash a message: block by block, or through the buffer.

    method StreamBlocks(words: seq<Word>, rounds: nat, ghost f: Compression) returns (digest: State)
      requires Implements(f, rounds)
      modifies this`state, this`t
      ensures digest == Hash(Wrapping(f), old(state), words, old(t))
    {
      var rest := words;
      ghost var n: nat := t;
      while |rest| > BLOCK_WORDS
        invariant t == n % WORD_LIMIT
        invariant Hash(Wrapping(f), state, rest, n) == Hash(Wrapping(f), old(state), words, old(t))
      {
        CounterStep(t, n, BLOCK_BYTES);
        ghost var h := state;
        Absorb(rest[..16], rounds, f);
        StreamStep(f, h, rest, n, state, t);
        rest, n := rest[16..], n + BLOCK_BYTES;
      }
      CounterStep(t, n, 4 * |rest|);
      digest := AbsorbFinalBlock(Padded(rest), |rest|, rounds, f);
      StreamEnd(f, state, rest, n, digest, t);
    }

    method BufferBytes(bytes: seq<Octet>, rounds: nat, ghost f: Compression)
      requires Implements(f, rounds)
      modifies this
      ensures state == HashBytes(Wrapping(f), old(state), bytes, old(t))
    {
      var rest := bytes;
      ghost var n: nat := t;
      while |rest| > BLOCK_BYTES
        invariant t == n % WORD_LIMIT
        invariant HashBytes(Wrapping(f), state, rest, n) == HashBytes(Wrapping(f), old(state), bytes, old(t))
      {
        CounterStep(t, n, BLOCK_BYTES);
        ghost var h := state;
        buffer := PaddedBytes(rest[..64]);
        RunRoundFunction(BLOCK_WORDS, false, rounds, f);
        BufferStep(f, h, rest, n, state, t);
        rest, n := rest[64..], n + BLOCK_BYTES;
      }
      CounterStep(t, n, |rest|);
      ghost var h := state;
      buffer := PaddedBytes(rest);
      RunRoundFunctionWithByteLen(|rest|, true, rounds, f);
      BufferEnd(f, h, rest, n, state, t);
    }

    /** A fresh hasher that absorbs a message block by block returns its digest, below 2^32 bytes; past
        that, what the digest becomes when the counter wraps. */
    method HashStreaming(words: seq<Word>, rounds: nat) returns (digest: State)
      requires rounds <= 10 && state == InitialState() && t == 0
      modifies this
      ensures digest == Hash(Wrapping(Compressor(rounds)), InitialState(), words, 0)
      ensures 4 * |words| < WORD_LIMIT ==> digest == Digest(words, rounds)
    {
      digest := StreamBlocks(words, rounds, Compressor(rounds));
      if 4 * |words| < WORD_LIMIT { BelowTheLimit(Compressor(rounds), InitialState(), words, 0); }
    }

    /** One that goes through the buffer ends with the digest of any message of bytes as its state. */
    method HashBuffered(bytes: seq<Octet>, rounds: nat)
      requires rounds <= 10 && state == InitialState() && t == 0
      modifies this
      ensures state == HashBytes(Wrapping(Compressor(rounds)), InitialState(), bytes, 0)
      ensures |bytes| < WORD_LIMIT ==> state == DigestBytes(bytes, rounds)
    {
      BufferBytes(bytes, rounds, Compressor(rounds));
      if |bytes| < WORD_LIMIT { BytesBelowTheLimit(Compressor(rounds), InitialState(), bytes, 0); }
    }

    /** And the two agree on whole words. */
    method HashBufferedWords(words: seq<Word>, rounds: nat)
      requires rounds <= 10 && state == InitialState() && t == 0
      modifies this
      ensures state == Hash(Wrapping(Compressor(rounds)), InitialState(), words, 0)
      ensures 4 * |words| < WORD_LIMIT ==> state == Digest(words, rounds)
    {
      HashBuffered(OctetsOf(words), rounds);
      HashOfOctets(Wrapping(Compressor(rounds)), InitialState(), words, 0);
      if 4 * |words| < WORD_LIMIT { BelowTheLimit(Compressor(rounds), InitialState(), words, 0); }
    }
  }

  /** Two digests into one, with no hasher: the digest of a message of one full block. */
  method CompressTwoToOne(m: Block, rounds: nat) returns (digest: State)
    requires rounds <= 10
    ensures digest == Digest(m, rounds)
  {
    ghost var f := Compressor(rounds);
    ConfiguredIsInitial();
    digest := Apply(ConfiguredIv(), m, BLOCK_BYTES, true, rounds, f);
    OneBlock(f, ConfiguredIv(), m);
  }
}
