/** The Keccak-f[1600] permutation of FIPS 202, bit by bit: a lane is a string of 64 bits, and lane
    (x, y) of the standard is element x + 5 * y of the state. */
module KeccakF {

  const LANE_BITS := 64
  const ROUNDS := 24

  type Lane = b: seq<bool> | |b| == LANE_BITS witness seq(LANE_BITS, z => false)
  type State = s: seq<Lane> | |s| == 25 witness seq(25, i => seq(LANE_BITS, z => false))

  function Zero(): Lane { seq(LANE_BITS, z => false) }

  function Xor(a: Lane, b: Lane): Lane {
    seq(LANE_BITS, z requires 0 <= z < LANE_BITS => a[z] != b[z])
  }

  /** (a + 1) * b in the notation of the standard. */
  function AndNot(a: Lane, b: Lane): Lane {
    seq(LANE_BITS, z requires 0 <= z < LANE_BITS => !a[z] && b[z])
  }

  /** Bit z moves to z + n modulo 64. */
  function RotL(a: Lane, n: int): Lane {
    seq(LANE_BITS, z requires 0 <= z < LANE_BITS => a[(z - n) % LANE_BITS])
  }

  /** Parity of a column (section 3.2.1, step 1). */
  function Parity(s: State, x: nat): Lane
    requires x < 5
  {
    Xor(Xor(Xor(Xor(s[x], s[x + 5]), s[x + 10]), s[x + 15]), s[x + 20])
  }

  /** What theta adds to a column (section 3.2.1, step 2). */
  function Mix(s: State, x: nat): Lane
    requires x < 5
  {
    Xor(Parity(s, (x + 4) % 5), RotL(Parity(s, (x + 1) % 5), 1))
  }

  function Theta(s: State): State {
    seq(25, i requires 0 <= i < 25 => Xor(s[i], Mix(s, i % 5)))
  }

  /** Table 2 of section 3.2.2. */
  const OFFSETS: seq<nat> := [
    0, 1, 190, 28, 91,
    36, 300, 6, 55, 276,
    3, 10, 171, 153, 231,
    105, 45, 15, 21, 136,
    210, 66, 253, 120, 78]

  function Offset(i: nat): nat
    requires i < 25
  {
    OFFSETS[i]
  }

  /** The walk behind the table: from lane (1, 0), each step turns (x, y) into (y, 2 * x + 3 * y). */
  function WalkLane(t: nat): (i: nat)
    ensures i < 25
  {
    if t == 0 then 1 else WalkNext(WalkLane(t - 1))
  }

  function WalkNext(i: nat): (j: nat)
    requires i < 25
    ensures j < 25
  {
    i / 5 + 5 * ((2 * (i % 5) + 3 * (i / 5)) % 5)
  }

  function Rho(s: State): State {
    seq(25, i requires 0 <= i < 25 => RotL(s[i], Offset(i)))
  }

  /** The lane that pi moves to lane i: (x + 3 * y, x) for i = (x, y) (section 3.2.3). */
  function PiSource(i: nat): (j: nat)
    requires i < 25
    ensures j < 25
  {
    (i % 5 + 3 * (i / 5)) % 5 + 5 * (i % 5)
  }

  function Pi(s: State): State {
    seq(25, i requires 0 <= i < 25 => s[PiSource(i)])
  }

  /** Lane x of a row combined with its two neighbours (section 3.2.4). */
  function ChiLane(s: State, y: nat, x: nat): Lane
    requires x < 5 && y < 5
  {
    Xor(s[5 * y + x], AndNot(s[5 * y + (x + 1) % 5], s[5 * y + (x + 2) % 5]))
  }

  function Chi(s: State): State {
    seq(25, i requires 0 <= i < 25 => ChiLane(s, i / 5, i % 5))
  }

  /** The shift register of section 3.2.5, its bit i with weight 2^i: one step shifts and, when a
      bit leaves, adds x^8 = x^6 + x^5 + x^4 + 1. */
  function Register(t: nat): (r: nat)
    ensures r < 256
  {
    if t == 0 then 1 else NextRegister(Register(t - 1))
  }

  function NextRegister(r: nat): (next: nat)
    requires r < 256
    ensures next < 256
  {
    if r < 128 then 2 * r else AddTaps(r - 128)
  }

  /** r shifted, with its bit 0 set and its bits 4, 5 and 6 inverted. */
  function AddTaps(r: nat): (t: nat)
    requires r < 128
    ensures t < 256
  {
    1 + 2 * (r % 8) + 16 * (7 - r / 8 % 8) + 128 * (r / 64)
  }

  /** The round constant: bit 2^j - 1 is the output of the register after j + 7 * r steps. */
  function RoundConstant(r: nat): Lane {
    seq(LANE_BITS, z requires 0 <= z < LANE_BITS => ConstantBit(r, z))
  }

  predicate ConstantBit(r: nat, z: nat) {
    if z == 0 then Output(7 * r)
    else if z == 1 then Output(7 * r + 1)
    else if z == 3 then Output(7 * r + 2)
    else if z == 7 then Output(7 * r + 3)
    else if z == 15 then Output(7 * r + 4)
    else if z == 31 then Output(7 * r + 5)
    else z == 63 && Output(7 * r + 6)
  }

  predicate Output(t: nat) { Register(t) % 2 == 1 }

  function AddFirst(s: State, c: Lane): State {
    s[0 := Xor(s[0], c)]
  }

  function Iota(s: State, r: nat): State {
    AddFirst(s, RoundConstant(r))
  }

  function Round(s: State, r: nat): State {
    Iota(Chi(Pi(Rho(Theta(s)))), r)
  }

  function Iterate(f: (State, nat) -> State, s: State, n: nat): State {
    if n == 0 then s else f(Iterate(f, s, n - 1), n - 1)
  }

  /** The first n rounds. */
  function Rounds(s: State, n: nat): State {
    Iterate(Round, s, n)
  }

  /** Keccak-f[1600] (section 3.3). */
  function Permutation(s: State): State {
    Rounds(s, ROUNDS)
  }
}
