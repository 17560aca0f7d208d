/** A whole permutation as the circuit proves it: 649 rows, linked by the control register and by the
    memory they read and write. */
module KeccakTrace {
  import opened KeccakF
  import opened KeccakSchedule
  import opened KeccakWholeRun
  import opened KeccakRouting
  import opened KeccakCircuit
  import opened KeccakRowGenerator
  import M = Mersenne31
  import Machine = KeccakMachine

  // ---------------------------------------------------------------------------------------
  // The index tables

  const PADDING: seq<nat> := [0, 0, 0, 0, 0, 0]
  const JUNK: seq<nat> := [0, 1, 2, 3, 4, 5]

  /** The words of a call; a control no call has gives junk. */
  function IndicesOrJunk(c: Control, execute: bool): (idx: seq<nat>)
    ensures IsIndex(idx)
  {
    if c.mode == IOTA_COLUMNXOR then
      if c.iteration < 5 && c.round <= 24 && execute then Indices(c)
      else if c.iteration == 0 && c.round == 0 then PADDING
      else JUNK
    else if c.mode < 7 && c.iteration < 5 && c.round < 24 then Indices(c)
    else JUNK
  }

  predicate IsIndex(idx: seq<nat>) {
    |idx| == 6 && forall k :: 0 <= k < 6 ==> idx[k] < STATE_WORDS
  }

  /** The lookup of an executing row, in three tables read together: 11 bits of control and one for
      execution. */
  predicate LooksUp(control: int, idx: seq<nat>) {
    var key := M.Reduce(control + 0x800);
    key < 0x1000 && idx == IndicesOrJunk(Unpack(key % 0x800), key / 0x800 == 1)
  }

  lemma KeyOfControl(control: nat, key: int)
    requires control < 0x800 && key == M.Reduce(control + 0x800)
    ensures key < 0x1000 && key % 0x800 == control && key / 0x800 == 1
  {
    assert key == control + 0x800;
  }

  lemma ValidIndices(c: Control)
    requires c.Valid()
    ensures IndicesOrJunk(c, true) == Indices(c)
  {
  }

  /** A valid control finds its own words, and nothing else. */
  lemma LookupDetermined(c: Control, control: nat, idx: seq<nat>)
    requires c.Valid() && control == c.Pack()
    ensures LooksUp(control, idx) <==> idx == Indices(c)
  {
    UnpackPack(c);
    KeyOfControl(control, M.Reduce(control + 0x800));
    ValidIndices(c);
  }

  // ---------------------------------------------------------------------------------------
  // Rows linked by memory

  /** The words of the delegation's memory: field elements, not known to be limbs. */
  type Words = m: seq<Quad> | |m| == STATE_WORDS witness seq(STATE_WORDS, k => NO_QUAD)

  predicate AllInRange(m: Words) {
    forall k :: 0 <= k < STATE_WORDS ==> m[k].InRange()
  }

  function LanesIn(m: Words): Memory
    requires AllInRange(m)
  {
    seq(STATE_WORDS, k requires 0 <= k < STATE_WORDS => LaneOf(m[k]))
  }

  function ReadWords(m: Words, idx: seq<nat>): (x: seq<Quad>)
    requires IsIndex(idx)
    ensures |x| == 6
  {
    [m[idx[0]], m[idx[1]], m[idx[2]], m[idx[3]], m[idx[4]], m[idx[5]]]
  }

  function WriteWords(m: Words, idx: seq<nat>, z: seq<Quad>): Words
    requires IsIndex(idx) && |z| == 6
  {
    m[idx[0] := z[0]][idx[1] := z[1]][idx[2] := z[2]][idx[3] := z[3]][idx[4] := z[4]][idx[5] := z[5]]
  }

  /** A row that satisfies its constraints and takes memory m to memory n. */
  ghost predicate Step(w: Row, idx: seq<nat>, m: Words, n: Words) {
    && Satisfied(w) && IsIndex(idx) && LooksUp(w.control, idx)
    && w.r.x == ReadWords(m, idx) && n == WriteWords(m, idx, w.r.z)
  }

  /** The rows of a permutation. */
  datatype Trace = Trace(rows: seq<Row>, indices: seq<seq<nat>>, memory: seq<Words>) {
    ghost predicate Linked(k: nat)
      requires |rows| == |indices| && |memory| == |rows| + 1 && k < |rows|
    {
      && Step(rows[k], indices[k], memory[k], memory[k + 1])
      && rows[k].control == if k == 0 then INITIAL_CONTROL else rows[k - 1].next
    }

    /** The first n rows. */
    ghost predicate Valid(n: nat) {
      && |rows| == n && |indices| == n && |memory| == n + 1
      && forall k: nat :: k < n ==> Linked(k)
    }
  }

  // ---------------------------------------------------------------------------------------
  // One row is one call

  lemma WordsRead(m: Words, idx: seq<nat>, r: Registers)
    requires IsIndex(idx) && AllInRange(m) && r.Valid() && r.x == ReadWords(m, idx)
    ensures InputsInRange(r) && Inputs(r) == Gather(LanesIn(m), idx)
  {
  }

  lemma WordsWritten(m: Words, idx: seq<nat>, r: Registers, n: Words)
    requires IsIndex(idx) && AllInRange(m) && OutputsInRange(r) && n == WriteWords(m, idx, r.z)
    ensures AllInRange(n) && LanesIn(n) == Scatter(LanesIn(m), idx, Written(r))
  {
    OneWritten(m, idx[0], r.z[0]);
    var m1: Words := m[idx[0] := r.z[0]];
    OneWritten(m1, idx[1], r.z[1]);
    var m2: Words := m1[idx[1] := r.z[1]];
    OneWritten(m2, idx[2], r.z[2]);
    var m3: Words := m2[idx[2] := r.z[2]];
    OneWritten(m3, idx[3], r.z[3]);
    var m4: Words := m3[idx[3] := r.z[3]];
    OneWritten(m4, idx[4], r.z[4]);
    var m5: Words := m4[idx[4] := r.z[4]];
    OneWritten(m5, idx[5], r.z[5]);
  }

  lemma OneWritten(m: Words, i: nat, q: Quad)
    requires AllInRange(m) && i < STATE_WORDS && q.InRange()
    ensures AllInRange(m[i := q]) && LanesIn(m[i := q]) == LanesIn(m)[i := LaneOf(q)]
  {
  }

  lemma RowIsCall(w: Row, idx: seq<nat>, m: Words, n: Words, c: Control)
    requires Step(w, idx, m, n) && AllInRange(m) && c.Valid() && w.control == c.Pack()
    ensures AllInRange(n) && LanesIn(n) == Call(LanesIn(m), c) && w.next == Bump(c).Pack()
  {
    UnpackPack(c);
    LookupDetermined(c, w.control, idx);
    WordsRead(m, idx, w.r);
    RowSound(w, c);
    WordsWritten(m, idx, w.r, n);
  }

  // ---------------------------------------------------------------------------------------
  // All rows are a run

  predicate SameCall(n: nat, k: nat) { n == k }

  /** The register holds the control of the n-th call. */
  ghost predicate AtCall(register: int, n: nat) {
    forall k: nat :: SameCall(n, k) ==> register == ControlAt(k).Pack()
  }

  lemma RunEnds(n: nat, register: int)
    requires n == 0 || n == CALLS
    ensures AtCall(register, n) <==> register == if n == 0 then INITIAL_CONTROL else FINAL_CONTROL
  {
    ControlEnds();
    assert SameCall(n, n);
  }

  lemma CallIs(n: nat, register: int) returns (c: Control)
    requires n < CALLS && AtCall(register, n)
    ensures c == ControlAt(n) && c.Valid() && register == c.Pack()
  {
    ControlAdvances(n);
    assert SameCall(n, n);
    c := ControlAt(n);
  }

  lemma CallAdvances(n: nat, c: Control, register: int)
    requires n < CALLS && c == ControlAt(n) && c.Valid() && register == Bump(c).Pack()
    ensures AtCall(register, n + 1)
  {
    ControlAdvances(n);
  }

  /** The k-th row is the k-th call. */
  lemma NthRow(t: Trace, n: nat, k: nat)
    requires t.Valid(n) && n <= CALLS && k < n && AllInRange(t.memory[k])
    requires AtCall(t.rows[k].control, k)
    ensures AllInRange(t.memory[k + 1]) && AtCall(t.rows[k].next, k + 1)
    ensures ControlAt(k).Valid() && LanesIn(t.memory[k + 1]) == Call(LanesIn(t.memory[k]), ControlAt(k))
  {
    var c := CallIs(k, t.rows[k].control);
    assert t.Linked(k);
    RowIsCall(t.rows[k], t.indices[k], t.memory[k], t.memory[k + 1], c);
    CallAdvances(k, c, t.rows[k].next);
  }

  lemma ControlLinks(t: Trace, n: nat, k: nat)
    requires t.Valid(n) && k < n
    ensures t.rows[k].control == if k == 0 then INITIAL_CONTROL else t.rows[k - 1].next
  {
    assert t.Linked(k);
  }

  /** The k-th row finds the control and the memory of the k-th call. */
  ghost predicate Reached(t: Trace, n: nat, k: nat)
    requires t.Valid(n) && k <= n
  {
    && AllInRange(t.memory[k]) && (k < n ==> AtCall(t.rows[k].control, k)) && (k > 0 ==> AtCall(t.rows[k - 1].next, k))
  }

  lemma FirstReached(t: Trace, n: nat)
    requires t.Valid(n) && AllInRange(t.memory[0])
    ensures Reached(t, n, 0)
  {
    RunEnds(0, INITIAL_CONTROL);
    if n > 0 { ControlLinks(t, n, 0); }
  }

  lemma NextReached(t: Trace, n: nat, k: nat)
    requires t.Valid(n) && n <= CALLS && k < n && Reached(t, n, k)
    ensures Reached(t, n, k + 1)
  {
    NthRow(t, n, k);
    if k + 1 < n { ControlLinks(t, n, k + 1); }
  }

  lemma {:induction false} RowsFollow(t: Trace, n: nat, k: nat)
    requires t.Valid(n) && n <= CALLS && k <= n && AllInRange(t.memory[0])
    ensures Reached(t, n, k)
  {
    if k == 0 {
      FirstReached(t, n);
    } else {
      RowsFollow(t, n, k - 1);
      NextReached(t, n, k - 1);
    }
  }

  ghost predicate TraceInRange(t: Trace) {
    forall k: nat :: k < |t.memory| ==> AllInRange(t.memory[k])
  }

  lemma RowsInRange(t: Trace, n: nat)
    requires t.Valid(n) && n <= CALLS && AllInRange(t.memory[0])
    ensures TraceInRange(t)
  {
    forall k: nat | k < |t.memory|
      ensures AllInRange(t.memory[k])
    {
      RowsFollow(t, n, k);
    }
  }

  ghost function Memories(t: Trace): (u: seq<Memory>)
    requires TraceInRange(t)
    ensures |u| == |t.memory|
  {
    seq(|t.memory|, k requires 0 <= k < |t.memory| => LanesIn(t.memory[k]))
  }

  lemma MemoriesFollow(t: Trace, u: seq<Memory>)
    requires t.Valid(CALLS) && TraceInRange(t) && u == Memories(t)
    ensures IsRun(u)
  {
    forall k: nat | k < CALLS
      ensures Follows(u, k)
    {
      RowsFollow(t, CALLS, k);
      NthRow(t, CALLS, k);
    }
  }

  /** Whatever the prover chose: 649 linked rows that satisfy the constraints, from the initial
      control, leave Keccak-f[1600] of the first 25 words, and the final control. */
  lemma TraceIsPermutation(t: Trace)
    requires t.Valid(CALLS) && AllInRange(t.memory[0])
    ensures AllInRange(t.memory[CALLS]) && t.rows[CALLS - 1].next == FINAL_CONTROL
    ensures IsFinal(LanesIn(t.memory[CALLS]), LanesIn(t.memory[0])[..25])
    ensures LanesIn(t.memory[CALLS])[..25] == Permutation(LanesIn(t.memory[0])[..25])
  {
    RowsInRange(t, CALLS);
    var u := Memories(t);
    MemoriesFollow(t, u);
    RunIsPermutation(u, u[0][..25]);
    FinalState(u[CALLS], u[0][..25]);
    RowsFollow(t, CALLS, CALLS);
    RunEnds(CALLS, t.rows[CALLS - 1].next);
  }

  // ---------------------------------------------------------------------------------------
  // The prover of a whole permutation

  class Prover {
    var control: nat
    const words: array<Quad>

    constructor (words: array<Quad>)
      ensures this.control == INITIAL_CONTROL && this.words == words
    {
      this.control, this.words := INITIAL_CONTROL, words;
    }

    method Read(idx: seq<nat>) returns (x: seq<Quad>)
      requires words.Length == STATE_WORDS && IsIndex(idx)
      ensures x == ReadWords(words[..], idx)
    {
      x := [words[idx[0]], words[idx[1]], words[idx[2]], words[idx[3]], words[idx[4]], words[idx[5]]];
    }

    method Write(idx: seq<nat>, z: seq<Quad>)
      requires words.Length == STATE_WORDS && IsIndex(idx) && |z| == 6
      modifies words
      ensures words[..] == WriteWords(old(words[..]), idx, z)
    {
      words[idx[0]] := z[0];
      words[idx[1]] := z[1];
      words[idx[2]] := z[2];
      words[idx[3]] := z[3];
      words[idx[4]] := z[4];
      words[idx[5]] := z[5];
    }

    /** One row: the words the control selects go through the generator, and back to memory. */
    method ProveCall(ghost c: Control) returns (w: Row, idx: seq<nat>)
      requires words.Length == STATE_WORDS && AllInRange(words[..]) && c.Valid() && control == c.Pack()
      modifies this`control, words
      ensures w.control == old(control) && w.next == control && Step(w, idx, old(words[..]), words[..])
      ensures AllInRange(words[..]) && control == Bump(c).Pack()
    {
      UnpackPack(c);
      ghost var m: Words := words[..];
      idx := Machine.LookupIndices(control);
      LookupDetermined(c, control, idx);
      var x := Read(idx);
      w := Evaluate(control, x);
      Write(idx, w.r.z);
      control := w.next;
      RowIsCall(w, idx, m, words[..], c);
    }

    /** The n-th row, after the n rows of t. */
    method ProveNext(n: nat, t: Trace) returns (u: Trace)
      requires words.Length == STATE_WORDS && AllInRange(words[..]) && n < CALLS && AtCall(control, n)
      requires t.Valid(n) && t.memory[n] == words[..]
      requires control == if n == 0 then INITIAL_CONTROL else t.rows[n - 1].next
      modifies this`control, words
      ensures AllInRange(words[..]) && AtCall(control, n + 1)
      ensures u.Valid(n + 1) && u.memory[0] == t.memory[0] && u.memory[n + 1] == words[..] && u.rows[n].next == control
    {
      ghost var c := CallIs(n, control);
      var w, idx := ProveCall(c);
      CallAdvances(n, c, control);
      u := Trace(t.rows + [w], t.indices + [idx], t.memory + [words[..]]);
      Extended(t, u, n);
    }

    /** Every permutation has a proof: from the initial control, 649 rows that satisfy everything. */
    method Prove() returns (t: Trace)
      requires words.Length == STATE_WORDS && AllInRange(words[..]) && control == INITIAL_CONTROL
      modifies this`control, words
      ensures t.Valid(CALLS) && t.memory[0] == old(words[..]) && t.memory[CALLS] == words[..]
      ensures control == FINAL_CONTROL
    {
      t := Trace([], [], [words[..]]);
      NoRows(t, 0);
      RunEnds(0, control);
      for n := 0 to CALLS
        invariant AtCall(control, n) && AllInRange(words[..])
        invariant t.Valid(n) && t.memory[0] == old(words[..]) && t.memory[n] == words[..]
        invariant control == if n == 0 then INITIAL_CONTROL else t.rows[n - 1].next
      {
        t := ProveNext(n, t);
      }
      RunEnds(CALLS, control);
    }
  }

  lemma NoRows(t: Trace, n: nat)
    requires |t.rows| == |t.indices| == n == 0 && |t.memory| == 1
    ensures t.Valid(n)
  {
  }

  lemma Extended(t: Trace, u: Trace, n: nat)
    requires t.Valid(n) && |u.rows| == n + 1 && |u.indices| == n + 1 && |u.memory| == n + 2
    requires u.rows[..n] == t.rows && u.indices[..n] == t.indices && u.memory[..n + 1] == t.memory
    requires u.Linked(n)
    ensures u.Valid(n + 1)
  {
    forall k: nat | k < n + 1
      ensures u.Linked(k)
    {
      if k < n {
        assert t.Linked(k) && u.rows[k] == t.rows[k] && u.indices[k] == t.indices[k];
        assert u.memory[k] == t.memory[k] && u.memory[k + 1] == t.memory[k + 1];
        assert k > 0 ==> u.rows[k - 1] == t.rows[k - 1];
      }
    }
  }
}
