/** The delegation as the processor sees it: a control register that counts by itself and 62 words
    of memory.  One call is one step of the schedule; 649 calls are Keccak-f[1600]. */
module KeccakMachine {
  import opened BitStrings
  import opened KeccakF
  import opened KeccakSchedule
  import opened KeccakTable
  import opened KeccakWholeRun
  import opened KeccakFast
  import opened KeccakWords
  import opened KeccakDatapath

  /** A 64-bit word of memory: the low half at an even address. */
  function LaneOf(m: seq<Word>, i: nat): Lane
    requires |m| == 2 * STATE_WORDS && i < STATE_WORDS
  {
    Pair(m[2 * i], m[2 * i + 1]).Join()
  }

  function Lanes(m: seq<Word>): Memory
    requires |m| == 2 * STATE_WORDS
  {
    seq(STATE_WORDS, i requires 0 <= i < STATE_WORDS => LaneOf(m, i))
  }

  /** The words of the lanes: word j is the lower or the upper half of lane j / 2. */
  lemma HalvesHeld(w: seq<Word>, m: seq<Lane>)
    requires |w| == 2 * STATE_WORDS && m <= Lanes(w)
    ensures forall j: nat :: j < 2 * |m| ==> w[j] == m[j / 2][32 * (j % 2)..32 * (j % 2) + 32]
  {
    forall j: nat | j < 2 * |m|
      ensures w[j] == m[j / 2][32 * (j % 2)..32 * (j % 2) + 32]
    {
      HalfHeld(w, m[j / 2], j / 2, j % 2);
    }
  }

  lemma HalfHeld(w: seq<Word>, lane: Lane, i: nat, h: nat)
    requires |w| == 2 * STATE_WORDS && i < STATE_WORDS && h < 2 && lane == Lanes(w)[i]
    ensures w[2 * i + h] == lane[32 * h..32 * h + 32]
  {
    if h == 0 {
      assert lane[..32] == w[2 * i];
    } else {
      assert lane[32..] == w[2 * i + 1];
    }
  }

  class Machine {
    var control: nat
    const words: array<Word>

    constructor (control: nat, words: array<Word>)
      ensures this.control == control && this.words == words
    {
      this.control, this.words := control, words;
    }

    ghost function Contents(): Memory
      requires words.Length == 2 * STATE_WORDS
      reads words
    {
      Lanes(words[..])
    }

    method Read(i: nat) returns (p: Pair)
      requires words.Length == 2 * STATE_WORDS && i < STATE_WORDS
      ensures p.Join() == Contents()[i]
    {
      p := Pair(words[2 * i], words[2 * i + 1]);
    }

    method Write(i: nat, p: Pair)
      requires words.Length == 2 * STATE_WORDS && i < STATE_WORDS
      modifies words
      ensures Contents() == old(Contents())[i := p.Join()]
    {
      words[2 * i] := p.low;
      words[2 * i + 1] := p.high;
    }

    method Gather6(idx: seq<nat>) returns (w: SixPairs)
      requires words.Length == 2 * STATE_WORDS && |idx| == 6 && forall k :: 0 <= k < 6 ==> idx[k] < STATE_WORDS
      ensures w.Join() == Gather(Contents(), idx)
    {
      var p0 := Read(idx[0]);
      var p1 := Read(idx[1]);
      var p2 := Read(idx[2]);
      var p3 := Read(idx[3]);
      var p4 := Read(idx[4]);
      var p5 := Read(idx[5]);
      w := SixPairs(p0, p1, p2, p3, p4, p5);
    }

    method Scatter6(idx: seq<nat>, w: SixPairs)
      requires words.Length == 2 * STATE_WORDS && |idx| == 6 && forall k :: 0 <= k < 6 ==> idx[k] < STATE_WORDS
      modifies words
      ensures Contents() == Scatter(old(Contents()), idx, w.Join())
    {
      Write(idx[0], w.p0);
      Write(idx[1], w.p1);
      Write(idx[2], w.p2);
      Write(idx[3], w.p3);
      Write(idx[4], w.p4);
      Write(idx[5], w.p5);
    }

    /** One call: the register selects the words and the operation, and moves on.  Before the call and
        after it, word j is half j % 2 of lane j / 2, the lower half first. */
    method Invoke()
      requires words.Length == 2 * STATE_WORDS && Unpack(control).Valid()
      modifies this`control, words
      ensures forall j: nat :: j < 2 * STATE_WORDS ==>
        old(words[..])[j] == old(Contents())[j / 2][32 * (j % 2)..32 * (j % 2) + 32]
      ensures forall j: nat :: j < 2 * STATE_WORDS ==>
        words[j] == Call(old(Contents()), Unpack(old(control)))[j / 2][32 * (j % 2)..32 * (j % 2) + 32]
      ensures Contents() == Call(old(Contents()), Unpack(old(control)))
      ensures control == Bump(Unpack(old(control))).Pack()
    {
      ghost var c := Unpack(control);
      HalvesHeld(words[..], Contents());
      var idx := LookupIndices(control);
      var flags := DecodeFlags(control, true);
      var inputs := Gather6(idx);
      var outputs := SelectOutputs(flags, control / 64, inputs, c);
      Scatter6(idx, outputs);
      var next := NextControl(control);
      control := next;
      HalvesHeld(words[..], Contents());
    }

    /** The n-th call of a run that t records so far. */
    method NthCall(n: nat, ghost t: seq<Memory>) returns (ghost u: seq<Memory>)
      requires words.Length == 2 * STATE_WORDS && n < CALLS && control == ControlAt(n).Pack()
      requires Records(t, n) && t[n] == Contents()
      modifies this`control, words
      ensures control == ControlAt(n + 1).Pack()
      ensures Records(u, n + 1) && u[0] == t[0] && u[n + 1] == Contents()
    {
      ControlAdvances(n);
      UnpackPack(ControlAt(n));
      Invoke();
      u := t + [Contents()];
      RecordsNext(t, u, n);
    }

    /** As many calls as the register takes to reach its final value. */
    method Run(ghost s: State)
      requires words.Length == 2 * STATE_WORDS && control == INITIAL_CONTROL && s == Contents()[..25]
      modifies this`control, words
      ensures control == FINAL_CONTROL && Ends(Contents(), s)
    {
      ghost var t := [Contents()];
      ControlEnds();
      for n := 0 to CALLS
        invariant control == ControlAt(n).Pack()
        invariant Records(t, n) && t[0] == old(Contents()) && t[n] == Contents()
      {
        t := NthCall(n, t);
      }
      RecordEnds(t, s);
    }

    /** The run of a permutation takes the state s in the first 50 words to its permutation p in the same
        words, and fixes the others: word j is half j % 2 of lane j / 2, the lower half first. */
    method Permute() returns (ghost s: State, ghost m: Memory, ghost p: State)
      requires words.Length == 2 * STATE_WORDS && control == INITIAL_CONTROL
      modifies this`control, words
      ensures forall j: nat :: j < 50 ==> old(words[..])[j] == s[j / 2][32 * (j % 2)..32 * (j % 2) + 32]
      ensures forall j: nat :: j < 62 ==> words[j] == m[j / 2][32 * (j % 2)..32 * (j % 2) + 32]
      ensures p == m[..25] && IsPermutationOf(p, s) && Ends(m, s) && control == FINAL_CONTROL
    {
      s := Contents()[..25];
      HalvesHeld(words[..], s);
      Run(s);
      m := Contents();
      HalvesHeld(words[..], m);
      p := m[..25];
      EndsMeans(m, s);
    }
  }

  predicate SameState(s: State, t: State) { s == t }

  /** p is Keccak-f[1600] of s. */
  ghost predicate IsPermutationOf(p: State, s: State) {
    forall t: State :: SameState(t, s) ==> p == Permutation(t)
  }

  /** m is the memory after the last call of a run from s. */
  ghost predicate Ends(m: Memory, s: State) {
    forall t: State :: SameState(t, s) ==> IsFinal(m, t)
  }

  lemma IsThePermutation(p: State, s: State)
    ensures IsPermutationOf(p, s) <==> p == Permutation(s)
  {
    if IsPermutationOf(p, s) { assert SameState(s, s); }
  }

  lemma EndsMeans(m: Memory, s: State)
    requires Ends(m, s)
    ensures IsPermutationOf(m[..25], s)
  {
    assert SameState(s, s);
    FinalState(m, s);
  }

  /** t holds the memory before the first n calls and after the last of them. */
  ghost predicate Records(t: seq<Memory>, n: nat) {
    |t| == n + 1 && forall k: nat :: k < n ==> Follows(t, k)
  }

  lemma RecordsNext(t: seq<Memory>, u: seq<Memory>, n: nat)
    requires Records(t, n) && |u| == n + 2 && u[..n + 1] == t
    requires ControlAt(n).Valid() && u[n + 1] == Call(t[n], ControlAt(n))
    ensures Records(u, n + 1)
  {
    forall k: nat | k < n + 1
      ensures Follows(u, k)
    {
      if k < n { assert Follows(t, k) && u[k] == t[k] && u[k + 1] == t[k + 1]; }
    }
  }

  lemma RecordEnds(t: seq<Memory>, s: State)
    requires Records(t, CALLS) && s == t[0][..25]
    ensures Ends(t[CALLS], s)
  {
    RunIsPermutation(t, s);
  }

  /** The fast path agrees with the machine on all 31 words, whatever they held. */
  lemma FastPathAgrees(machine: Memory, fast: Memory, s: State)
    requires IsFinal(machine, s) && IsFinal(fast, s)
    ensures machine == fast && machine[..25] == Permutation(s)
  {
    FinalIsUnique(machine, fast, s);
    FinalState(machine, s);
  }

  method ColumnWords(mode: nat, i: nat, round: nat) returns (idx: seq<nat>)
    requires mode == IOTA_COLUMNXOR || mode == THETA || mode == RHO
    requires Control(mode, i, round).Valid()
    ensures idx == Indices(Control(mode, i, round))
  {
    var p := Row(round);
    var columns := [29, 25, 26, 27, 28];
    var column := if mode == IOTA_COLUMNXOR then 25 + i else if mode == THETA then columns[i] else 25;
    assert mode == THETA ==> column == ThetaColumn(i);
    idx := [p[i], p[i + 5], p[i + 10], p[i + 15], p[i + 20], column];
  }

  method RowWords1(i: nat, round: nat) returns (idx: seq<nat>)
    requires Control(CHI1, i, round).Valid()
    ensures idx == Indices(Control(CHI1, i, round))
  {
    var p := Row(round + 1);
    idx := [p[5 * i + 1], p[5 * i + 2], p[5 * i + 3], p[5 * i + 4], 25, 26];
  }

  method RowWords2(i: nat, round: nat) returns (idx: seq<nat>)
    requires Control(CHI2, i, round).Valid()
    ensures idx == Indices(Control(CHI2, i, round))
  {
    var p := Row(round + 1);
    idx := [p[5 * i], p[5 * i + 3], p[5 * i + 4], 25, 26, 27];
  }

  /** The index lookup: the row of slots of this round, or of the next once pi is due. */
  method LookupIndices(register: nat) returns (idx: seq<nat>)
    requires Unpack(register).Valid()
    ensures idx == Indices(Unpack(register))
  {
    var mode, i, round := register % 8, register / 8 % 8, register / 64;
    if mode == COLUMNMIX1 || mode == COLUMNMIX2 {
      idx := [25, 26, 27, 28, 29, 30];
    } else if mode == CHI1 {
      idx := RowWords1(i, round);
    } else if mode == CHI2 {
      idx := RowWords2(i, round);
    } else {
      idx := ColumnWords(mode, i, round);
    }
  }
}
