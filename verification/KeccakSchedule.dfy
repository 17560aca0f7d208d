/** The Keccak delegation: how one call decodes the control register, which six of the 31 memory
    words it touches, what it computes from them, and how it advances the register. */
module KeccakSchedule {
  import opened KeccakF

  const STATE_WORDS := 31
  const CALLS := 649
  const INITIAL_CONTROL := 0
  const FINAL_CONTROL := 1544

  // The seven modes of a call.
  const IOTA_COLUMNXOR := 0
  const COLUMNMIX1 := 1
  const COLUMNMIX2 := 2
  const THETA := 3
  const RHO := 4
  const CHI1 := 5
  const CHI2 := 6

  /** The contents of the control register: 3 bits of mode, 3 of iteration, 5 of round. */
  datatype Control = Control(mode: nat, iteration: nat, round: nat) {
    predicate Valid() {
      mode < 7 && iteration < 5 && (round < 24 || (mode == IOTA_COLUMNXOR && round == 24))
    }

    function Pack(): nat { mode + 8 * iteration + 64 * round }
  }

  function Unpack(register: nat): Control {
    Control(register % 8, register / 8 % 8, register / 64)
  }

  lemma UnpackPack(c: Control)
    requires c.Valid()
    ensures Unpack(c.Pack()) == c && c.Pack() < 2048
  {
  }

  /** The control after a call. */
  function Bump(c: Control): Control
    requires c.Valid()
  {
    var next := if c.iteration == 4 then 0 else c.iteration + 1;
    if c.mode == IOTA_COLUMNXOR || c.mode == THETA || c.mode == RHO then
      Control(if c.iteration == 4 then c.mode + 1 else c.mode, next, c.round)
    else if c.mode == CHI2 then
      Control(if c.iteration == 4 then IOTA_COLUMNXOR else CHI1, next,
              if c.iteration == 4 then c.round + 1 else c.round)
    else
      Control(c.mode + 1, c.iteration, c.round)
  }

  /** Where lanes move when pi is absorbed: lane i of the next round sits where its source sat. */
  function NextSlots(p: seq<nat>): (q: seq<nat>)
    requires |p| == 25 && forall i :: 0 <= i < 25 ==> p[i] < 25
    ensures |q| == 25 && forall i :: 0 <= i < 25 ==> q[i] < 25
  {
    [p[0], p[6], p[12], p[18], p[24], p[3], p[9], p[10], p[16], p[22], p[1], p[7], p[13],
     p[19], p[20], p[4], p[5], p[11], p[17], p[23], p[2], p[8], p[14], p[15], p[21]]
  }

  lemma NextSlotsFollowPi(p: seq<nat>, i: nat)
    requires |p| == 25 && (forall j :: 0 <= j < 25 ==> p[j] < 25) && i < 25
    ensures NextSlots(p)[i] == p[PiSource(i)]
  {
    if i < 13 {
      assert i == 0 || i == 1 || i == 2 || i == 3 || i == 4 || i == 5 || i == 6 || i == 7 || i == 8 || i == 9
          || i == 10 || i == 11 || i == 12;
    } else {
      assert i == 13 || i == 14 || i == 15 || i == 16 || i == 17 || i == 18 || i == 19 || i == 20 || i == 21
          || i == 22 || i == 23 || i == 24;
    }
  }

  /** Which memory word holds each lane at the start of a round: pi moves no data. */
  function Slots(round: nat): (p: seq<nat>)
    ensures |p| == 25 && forall i :: 0 <= i < 25 ==> p[i] < 25
  {
    if round == 0 then seq(25, i => i) else NextSlots(Slots(round - 1))
  }

  /** The words a call reads and writes, in order. */
  function Indices(c: Control): (idx: seq<nat>)
    requires c.Valid()
    ensures |idx| == 6 && forall i :: 0 <= i < 6 ==> idx[i] < STATE_WORDS
  {
    var i := c.iteration;
    if c.mode == COLUMNMIX1 || c.mode == COLUMNMIX2 then [25, 26, 27, 28, 29, 30]
    else if c.mode == CHI1 then
      var p := Slots(c.round + 1);
      [p[5 * i + 1], p[5 * i + 2], p[5 * i + 3], p[5 * i + 4], 25, 26]
    else if c.mode == CHI2 then
      var p := Slots(c.round + 1);
      [p[5 * i], p[5 * i + 3], p[5 * i + 4], 25, 26, 27]
    else
      var p := Slots(c.round);
      var column := if c.mode == IOTA_COLUMNXOR then 25 + i
                    else if c.mode == THETA then ThetaColumn(i)
                    else 25;
      [p[i], p[i + 5], p[i + 10], p[i + 15], p[i + 20], column]
  }

  /** Theta adds to column x what the column mix left for it one word earlier. */
  function ThetaColumn(x: nat): nat {
    if x == 0 then 29 else 24 + x
  }

  /** The constant of a round is added at the start of the next one. */
  function DelayedConstant(round: nat): Lane {
    if round == 0 then Zero() else RoundConstant(round - 1)
  }

  function ConstantOf(c: Control): Lane {
    if c.iteration == 0 then DelayedConstant(c.round) else Zero()
  }

  /** The left rotations of a rho call, for the five lanes of its column. */
  function RhoOffsets(i: nat): (n: seq<nat>)
    requires i < 5
    ensures |n| == 5
  {
    match i
    case 0 => [0, 36, 3, 41, 18]
    case 1 => [1, 44, 10, 45, 2]
    case 2 => [62, 6, 43, 15, 61]
    case 3 => [28, 55, 25, 21, 56]
    case _ => [27, 20, 39, 8, 14]
  }

  datatype Six = Six(w0: Lane, w1: Lane, w2: Lane, w3: Lane, w4: Lane, w5: Lane)

  /** What a call computes from the six words. */
  function Outputs(c: Control, w: Six): Six
    requires c.Valid()
  {
    match c.mode
    case 0 => IotaColumnXor(ConstantOf(c), w)
    case 1 => ColumnMix1(w)
    case 2 => ColumnMix2(w)
    case 3 => ThetaColumnXor(w)
    case 4 => RhoColumn(RhoOffsets(c.iteration), w)
    case 5 => ChiRow1(w)
    case _ => ChiRow2(w)
  }

  function IotaColumnXor(constant: Lane, w: Six): Six {
    Six(Xor(w.w0, constant), w.w1, w.w2, w.w3, w.w4,
        Xor(Xor(Xor(Xor(Xor(w.w0, constant), w.w1), w.w2), w.w3), w.w4))
  }

  function ColumnMix1(w: Six): Six {
    Six(Xor(w.w0, RotL(w.w2, 1)), w.w1, Xor(w.w2, RotL(w.w4, 1)), w.w3, w.w4, RotL(w.w0, 1))
  }

  function ColumnMix2(w: Six): Six {
    Six(w.w0, Xor(w.w1, RotL(w.w3, 1)), w.w2, Xor(w.w3, w.w5), Xor(w.w4, RotL(w.w1, 1)), w.w5)
  }

  function ThetaColumnXor(w: Six): Six {
    Six(Xor(w.w0, w.w5), Xor(w.w1, w.w5), Xor(w.w2, w.w5), Xor(w.w3, w.w5), Xor(w.w4, w.w5), w.w5)
  }

  function RhoColumn(n: seq<nat>, w: Six): Six
    requires |n| == 5
  {
    Six(RotL(w.w0, n[0]), RotL(w.w1, n[1]), RotL(w.w2, n[2]), RotL(w.w3, n[3]), RotL(w.w4, n[4]), w.w5)
  }

  function ChiRow1(w: Six): Six {
    Six(Xor(w.w0, AndNot(w.w1, w.w2)), Xor(w.w1, AndNot(w.w2, w.w3)), w.w2, w.w3, AndNot(w.w0, w.w1), w.w0)
  }

  function ChiRow2(w: Six): Six {
    Six(Xor(w.w0, w.w3), Xor(w.w1, AndNot(w.w2, w.w0)), Xor(w.w2, AndNot(w.w0, w.w4)), w.w3, w.w4, w.w5)
  }

  type Memory = w: seq<Lane> | |w| == STATE_WORDS witness seq(STATE_WORDS, i => seq(LANE_BITS, z => false))

  function Gather(w: Memory, idx: seq<nat>): Six
    requires |idx| == 6 && forall i :: 0 <= i < 6 ==> idx[i] < STATE_WORDS
  {
    Six(w[idx[0]], w[idx[1]], w[idx[2]], w[idx[3]], w[idx[4]], w[idx[5]])
  }

  function Scatter(w: Memory, idx: seq<nat>, s: Six): Memory
    requires |idx| == 6 && forall i :: 0 <= i < 6 ==> idx[i] < STATE_WORDS
  {
    w[idx[0] := s.w0][idx[1] := s.w1][idx[2] := s.w2][idx[3] := s.w3][idx[4] := s.w4][idx[5] := s.w5]
  }

  /** One call: read six words, compute, write them back. */
  function Call(w: Memory, c: Control): Memory
    requires c.Valid()
  {
    Scatter(w, Indices(c), Outputs(c, Gather(w, Indices(c))))
  }

  /** The control of the n-th call: 27 calls a round, and one more for the last constant. */
  function ControlAt(n: nat): Control {
    var round, k := n / 27, n % 27;
    if k < 5 then Control(IOTA_COLUMNXOR, k, round)
    else if k == 5 then Control(COLUMNMIX1, 0, round)
    else if k == 6 then Control(COLUMNMIX2, 0, round)
    else if k < 12 then Control(THETA, k - 7, round)
    else if k < 17 then Control(RHO, k - 12, round)
    else Control(if k % 2 == 1 then CHI1 else CHI2, (k - 17) / 2, round)
  }

  /** The register counts through the calls by itself, from its initial to its final value. */
  lemma ControlAdvances(n: nat)
    requires n < CALLS
    ensures ControlAt(n).Valid() && Bump(ControlAt(n)) == ControlAt(n + 1)
  {
    assert (n + 1) % 27 == if n % 27 == 26 then 0 else n % 27 + 1;
  }

  lemma ControlEnds()
    ensures ControlAt(0).Pack() == INITIAL_CONTROL && ControlAt(CALLS).Pack() == FINAL_CONTROL
  {
  }
}
