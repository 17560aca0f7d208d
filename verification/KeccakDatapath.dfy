/** What a delegation call computes, as the witness generator computes it: control flags, and every
    output word selected from the seven modes on pairs of 32-bit words. */
module KeccakDatapath {
  import opened BitStrings
  import opened KeccakF
  import opened KeccakConstants
  import opened KeccakSchedule
  import opened KeccakWords

  // ---------------------------------------------------------------------------------------
  // Control flags

  /** One flag per mode and per iteration, and the bits of the round. */
  datatype Flags = Flags(mode: seq<bool>, iteration: seq<bool>, round: seq<bool>) {
    predicate Valid() { |mode| == 7 && |iteration| == 5 && |round| == 5 }
  }

  /** The flags of the first mode and of the first iteration are off when the row is padding. */
  method DecodeFlags(register: nat, execute: bool) returns (f: Flags)
    ensures f.Valid()
    ensures forall k :: 0 <= k < 7 ==> f.mode[k] == (Unpack(register).mode == k && (k == 0 ==> execute))
    ensures forall k :: 0 <= k < 5 ==> f.iteration[k] == (Unpack(register).iteration == k && (k == 0 ==> execute))
    ensures f.round == Bits(Unpack(register).round, 5)
  {
    var mode, iteration, round := register % 8, register / 8 % 8, register / 64;
    f := Flags(
      [mode == 0 && execute, mode == 1, mode == 2, mode == 3, mode == 4, mode == 5, mode == 6],
      [iteration == 0 && execute, iteration == 1, iteration == 2, iteration == 3, iteration == 4],
      [round % 2 == 1, round / 2 % 2 == 1, round / 4 % 2 == 1, round / 8 % 2 == 1, round / 16 % 2 == 1]);
    FiveBits(round);
  }

  lemma FiveBits(n: nat)
    ensures Bits(n, 5) == [n % 2 == 1, n / 2 % 2 == 1, n / 4 % 2 == 1, n / 8 % 2 == 1, n / 16 % 2 == 1]
  {
    var width := 5;
    assert Bits(n, width) == [n % 2 == 1] + Bits(n / 2, width - 1);
    assert Bits(n / 2, width - 1) == [n / 2 % 2 == 1] + Bits(n / 4, width - 2);
    assert Bits(n / 4, width - 2) == [n / 4 % 2 == 1] + Bits(n / 8, width - 3);
    assert Bits(n / 8, width - 3) == [n / 8 % 2 == 1] + Bits(n / 16, width - 4);
    assert Bits(n / 16, width - 4) == [n / 16 % 2 == 1];
  }

  /** The flags of a valid control select one mode and one iteration. */
  ghost predicate Selects(f: Flags, c: Control) {
    && f.Valid() && c.Valid()
    && (forall k :: 0 <= k < 7 ==> f.mode[k] == (c.mode == k))
    && (forall k :: 0 <= k < 5 ==> f.iteration[k] == (c.iteration == k))
  }

  // ---------------------------------------------------------------------------------------
  // The seven modes on pairs of words

  datatype SixPairs = SixPairs(p0: Pair, p1: Pair, p2: Pair, p3: Pair, p4: Pair, p5: Pair) {
    function Join(): Six { Six(p0.Join(), p1.Join(), p2.Join(), p3.Join(), p4.Join(), p5.Join()) }
  }

  function ZeroPair(): Pair { Pair(Zeros(32), Zeros(32)) }

  /** The constant of round k - 1, zero for k = 0. */
  function AdjustedConstant(k: nat): Pair
    requires k <= ROUNDS
  {
    if k == 0 then ZeroPair() else Pair(Bits(LowWord(k - 1), 32), Bits(HighWord(k - 1), 32))
  }

  lemma AdjustedIsDelayed(k: nat)
    requires k <= ROUNDS
    ensures AdjustedConstant(k).Join() == DelayedConstant(k)
  {
    if k == 0 {
      ZeroJoins();
    } else {
      AdjustedIsStandard(k, k - 1, DelayedConstant(k));
    }
  }

  lemma AdjustedIsStandard(k: nat, r: nat, d: Lane)
    requires r < ROUNDS && k == r + 1 && d == RoundConstant(r)
    ensures AdjustedConstant(k).Join() == d
  {
    ConstantIsStandard(r);
    assert AdjustedConstant(k).Join() == Constant(r);
  }

  lemma ZeroJoins()
    ensures ZeroPair().Join() == Zero()
  {
  }

  function IotaPairs(constant: Pair, w: SixPairs): SixPairs {
    var first := XorPair(w.p0, constant);
    SixPairs(first, w.p1, w.p2, w.p3, w.p4, XorPair(XorPair(XorPair(XorPair(first, w.p1), w.p2), w.p3), w.p4))
  }

  lemma IotaPairsJoin(constant: Pair, w: SixPairs)
    ensures IotaPairs(constant, w).Join() == IotaColumnXor(constant.Join(), w.Join())
  {
    var first := XorPair(w.p0, constant);
    PairOperations(w.p0, constant);
    PairOperations(first, w.p1);
    PairOperations(XorPair(first, w.p1), w.p2);
    PairOperations(XorPair(XorPair(first, w.p1), w.p2), w.p3);
    PairOperations(XorPair(XorPair(XorPair(first, w.p1), w.p2), w.p3), w.p4);
  }

  function Mix1Pairs(w: SixPairs): SixPairs {
    SixPairs(XorPair(w.p0, RotPair(w.p2, 1)), w.p1, XorPair(w.p2, RotPair(w.p4, 1)), w.p3, w.p4, RotPair(w.p0, 1))
  }

  lemma Mix1PairsJoin(w: SixPairs)
    ensures Mix1Pairs(w).Join() == ColumnMix1(w.Join())
  {
    RotPairIsRotL(w.p0, 1);
    RotPairIsRotL(w.p2, 1);
    RotPairIsRotL(w.p4, 1);
    PairOperations(w.p0, RotPair(w.p2, 1));
    PairOperations(w.p2, RotPair(w.p4, 1));
  }

  function Mix2Pairs(w: SixPairs): SixPairs {
    SixPairs(w.p0, XorPair(w.p1, RotPair(w.p3, 1)), w.p2, XorPair(w.p3, w.p5), XorPair(w.p4, RotPair(w.p1, 1)), w.p5)
  }

  lemma Mix2PairsJoin(w: SixPairs)
    ensures Mix2Pairs(w).Join() == ColumnMix2(w.Join())
  {
    RotPairIsRotL(w.p1, 1);
    RotPairIsRotL(w.p3, 1);
    PairOperations(w.p1, RotPair(w.p3, 1));
    PairOperations(w.p3, w.p5);
    PairOperations(w.p4, RotPair(w.p1, 1));
  }

  function ThetaPairs(w: SixPairs): SixPairs {
    SixPairs(
      XorPair(w.p0, w.p5), XorPair(w.p1, w.p5), XorPair(w.p2, w.p5), XorPair(w.p3, w.p5), XorPair(w.p4, w.p5), w.p5)
  }

  lemma ThetaPairsJoin(w: SixPairs)
    ensures ThetaPairs(w).Join() == ThetaColumnXor(w.Join())
  {
    PairOperations(w.p0, w.p5);
    PairOperations(w.p1, w.p5);
    PairOperations(w.p2, w.p5);
    PairOperations(w.p3, w.p5);
    PairOperations(w.p4, w.p5);
  }

  /** The five rotations that one lane of a column may need, selected by the iteration. */
  function RhoPair(iteration: seq<bool>, n: seq<nat>, p: Pair): Pair
    requires |iteration| == 5 && |n| == 5 && forall i :: 0 <= i < 5 ==> n[i] < 64
  {
    if iteration[4] then RotPair(p, n[4])
    else if iteration[3] then RotPair(p, n[3])
    else if iteration[2] then RotPair(p, n[2])
    else if iteration[1] then RotPair(p, n[1])
    else if iteration[0] then RotPair(p, n[0])
    else ZeroPair()
  }

  // The rotations of each of the five lanes, by iteration.
  const ROTATIONS_0: seq<nat> := [0, 1, 62, 28, 27]
  const ROTATIONS_1: seq<nat> := [36, 44, 6, 55, 20]
  const ROTATIONS_2: seq<nat> := [3, 10, 43, 25, 39]
  const ROTATIONS_3: seq<nat> := [41, 45, 15, 21, 8]
  const ROTATIONS_4: seq<nat> := [18, 2, 61, 56, 14]

  function RhoPairs(iteration: seq<bool>, w: SixPairs): SixPairs
    requires |iteration| == 5
  {
    SixPairs(
      RhoPair(iteration, ROTATIONS_0, w.p0), RhoPair(iteration, ROTATIONS_1, w.p1),
      RhoPair(iteration, ROTATIONS_2, w.p2),
      RhoPair(iteration, ROTATIONS_3, w.p3), RhoPair(iteration, ROTATIONS_4, w.p4), w.p5)
  }

  lemma RhoPairJoins(iteration: seq<bool>, n: seq<nat>, p: Pair, i: nat)
    requires |iteration| == 5 && |n| == 5 && forall j :: 0 <= j < 5 ==> n[j] < 64
    requires i < 5 && forall k :: 0 <= k < 5 ==> iteration[k] == (i == k)
    ensures RhoPair(iteration, n, p).Join() == RotL(p.Join(), n[i])
  {
    RotPairIsRotL(p, n[i]);
  }

  lemma RhoPairsJoin(iteration: seq<bool>, w: SixPairs, i: nat)
    requires |iteration| == 5 && i < 5 && forall k :: 0 <= k < 5 ==> iteration[k] == (i == k)
    ensures RhoPairs(iteration, w).Join() == RhoColumn(RhoOffsets(i), w.Join())
  {
    RhoPairJoins(iteration, ROTATIONS_0, w.p0, i);
    RhoPairJoins(iteration, ROTATIONS_1, w.p1, i);
    RhoPairJoins(iteration, ROTATIONS_2, w.p2, i);
    RhoPairJoins(iteration, ROTATIONS_3, w.p3, i);
    RhoPairJoins(iteration, ROTATIONS_4, w.p4, i);
    RotationsAgree(i);
  }

  lemma RotationsAgree(i: nat)
    requires i < 5
    ensures RhoOffsets(i) == [ROTATIONS_0[i], ROTATIONS_1[i], ROTATIONS_2[i], ROTATIONS_3[i], ROTATIONS_4[i]]
  {
    assert i == 0 || i == 1 || i == 2 || i == 3 || i == 4;
  }

  function Chi1Pairs(w: SixPairs): SixPairs {
    SixPairs(XorPair(w.p0, AndNotPair(w.p1, w.p2)), XorPair(w.p1, AndNotPair(w.p2, w.p3)), w.p2, w.p3,
             AndNotPair(w.p0, w.p1), w.p0)
  }

  lemma Chi1PairsJoin(w: SixPairs)
    ensures Chi1Pairs(w).Join() == ChiRow1(w.Join())
  {
    PairOperations(w.p0, w.p1);
    PairOperations(w.p1, w.p2);
    PairOperations(w.p2, w.p3);
    PairOperations(w.p0, AndNotPair(w.p1, w.p2));
    PairOperations(w.p1, AndNotPair(w.p2, w.p3));
  }

  function Chi2Pairs(w: SixPairs): SixPairs {
    SixPairs(XorPair(w.p0, w.p3), XorPair(w.p1, AndNotPair(w.p2, w.p0)), XorPair(w.p2, AndNotPair(w.p0, w.p4)),
             w.p3, w.p4, w.p5)
  }

  lemma Chi2PairsJoin(w: SixPairs)
    ensures Chi2Pairs(w).Join() == ChiRow2(w.Join())
  {
    PairOperations(w.p0, w.p3);
    PairOperations(w.p2, w.p0);
    PairOperations(w.p0, w.p4);
    PairOperations(w.p1, AndNotPair(w.p2, w.p0));
    PairOperations(w.p2, AndNotPair(w.p0, w.p4));
  }

  /** All seven modes, selected by their flags: what the generator writes back. */
  method SelectOutputs(f: Flags, round: nat, w: SixPairs, ghost c: Control) returns (out: SixPairs)
    requires Selects(f, c) && round == c.round
    ensures out.Join() == Outputs(c, w.Join())
  {
    var k := if f.iteration[0] then round else 0;
    var constant := AdjustedConstant(k);
    AdjustedIsDelayed(k);
    ConstantSelected(c, k);
    if f.mode[6] {
      out := Chi2Pairs(w);
      Chi2PairsJoin(w);
    } else if f.mode[5] {
      out := Chi1Pairs(w);
      Chi1PairsJoin(w);
    } else if f.mode[4] {
      out := RhoPairs(f.iteration, w);
      RhoPairsJoin(f.iteration, w, c.iteration);
    } else if f.mode[3] {
      out := ThetaPairs(w);
      ThetaPairsJoin(w);
    } else if f.mode[2] {
      out := Mix2Pairs(w);
      Mix2PairsJoin(w);
    } else if f.mode[1] {
      out := Mix1Pairs(w);
      Mix1PairsJoin(w);
    } else {
      assert f.mode[0];
      out := IotaPairs(constant, w);
      IotaPairsJoin(constant, w);
    }
  }

  lemma ConstantSelected(c: Control, k: nat)
    requires c.Valid() && k == if c.iteration == 0 then c.round else 0
    ensures DelayedConstant(k) == ConstantOf(c)
  {
  }

  /** The register after a call, each field selected by the mode. */
  method NextControl(register: nat) returns (next: nat)
    requires Unpack(register).Valid()
    ensures next == Bump(Unpack(register)).Pack()
  {
    var mode, iteration, round := register % 8, register / 8 % 8, register / 64;
    var last := iteration == 4;
    var mode' := if mode == 1 || mode == 2 || mode == 5 then mode + 1
                 else if mode == 6 then (if last then 0 else mode - 1)
                 else if last then mode + 1 else mode;
    var iteration' := if mode == 1 || mode == 2 || mode == 5 then iteration
                      else if last then 0 else iteration + 1;
    var round' := if mode == 6 && last then round + 1 else round;
    next := mode' + 8 * iteration' + 64 * round';
  }
}
