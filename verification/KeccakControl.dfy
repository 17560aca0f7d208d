/** The control register of the Keccak circuit: flags for the mode and the iteration, bits for the
    round, and the polynomial that advances it. */
module KeccakControl {
  import opened KeccakSchedule
  import opened KeccakDatapath
  import M = Mersenne31

  function BitOf(b: bool): int { if b then 1 else 0 }

  /** The flags as numbers: sums weighted by position, or by powers of two for the round. */
  function ModeSum(f: Flags): int requires f.Valid() {
    BitOf(f.mode[1]) + 2 * BitOf(f.mode[2]) + 3 * BitOf(f.mode[3]) + 4 * BitOf(f.mode[4])
      + 5 * BitOf(f.mode[5]) + 6 * BitOf(f.mode[6])
  }

  function ModeCount(f: Flags): int requires f.Valid() {
    BitOf(f.mode[0]) + BitOf(f.mode[1]) + BitOf(f.mode[2]) + BitOf(f.mode[3]) + BitOf(f.mode[4])
      + BitOf(f.mode[5]) + BitOf(f.mode[6])
  }

  function IterationSum(f: Flags): int requires f.Valid() {
    BitOf(f.iteration[1]) + 2 * BitOf(f.iteration[2]) + 3 * BitOf(f.iteration[3]) + 4 * BitOf(f.iteration[4])
  }

  function IterationCount(f: Flags): int requires f.Valid() {
    BitOf(f.iteration[0]) + BitOf(f.iteration[1]) + BitOf(f.iteration[2]) + BitOf(f.iteration[3])
      + BitOf(f.iteration[4])
  }

  function RoundSum(f: Flags): int requires f.Valid() {
    BitOf(f.round[0]) + 2 * BitOf(f.round[1]) + 4 * BitOf(f.round[2]) + 8 * BitOf(f.round[3]) + 16 * BitOf(f.round[4])
  }

  /** The flags compose the register, and exactly one of each kind is set. */
  predicate ControlDecoded(f: Flags, control: int) requires f.Valid() {
    && M.Vanishes(ModeSum(f) + 8 * IterationSum(f) + 64 * RoundSum(f) - control)
    && M.Vanishes(ModeCount(f) - 1) && M.Vanishes(IterationCount(f) - 1)
  }

  /** The next register, as a polynomial in the flags. */
  predicate ControlAdvanced(f: Flags, next: int) requires f.Valid() {
    var last := BitOf(f.iteration[4]);
    var chi2 := BitOf(f.mode[6]);
    var looping := BitOf(f.mode[0]) + BitOf(f.mode[3]) + BitOf(f.mode[4]);
    var mode := ModeSum(f) + (BitOf(f.mode[1]) + BitOf(f.mode[2]) + BitOf(f.mode[5]))
      + looping * last - chi2 * (1 + 5 * last);
    var iteration := IterationSum(f) + (looping + chi2) * (1 - 5 * last);
    var round := RoundSum(f) + chi2 * last;
    M.Vanishes(mode + 8 * iteration + 64 * round - next)
  }

  lemma SumsBounded(f: Flags)
    requires f.Valid()
    ensures 0 <= ModeSum(f) <= 21 && 0 <= IterationSum(f) <= 10 && 0 <= RoundSum(f) < 32
    ensures 0 <= ModeCount(f) <= 7 && 0 <= IterationCount(f) <= 5
  {
  }

  lemma OneMode(f: Flags)
    requires f.Valid() && ModeCount(f) == 1
    ensures 0 <= ModeSum(f) < 7 && forall k :: 0 <= k < 7 ==> f.mode[k] == (ModeSum(f) == k)
  {
  }

  lemma OneIteration(f: Flags)
    requires f.Valid() && IterationCount(f) == 1
    ensures 0 <= IterationSum(f) < 5 && forall k :: 0 <= k < 5 ==> f.iteration[k] == (IterationSum(f) == k)
  {
  }

  /** Any flags that satisfy the constraints are those of the register. */
  lemma ControlSound(f: Flags, control: nat)
    requires f.Valid() && control < 0x1_0000 && ControlDecoded(f, control)
    ensures Unpack(control) == Control(ModeSum(f), IterationSum(f), RoundSum(f))
    ensures Unpack(control).Valid() ==> Selects(f, Unpack(control))
  {
    SumsBounded(f);
    M.VanishesExactly(ModeCount(f) - 1);
    M.VanishesExactly(IterationCount(f) - 1);
    M.VanishesExactly(ModeSum(f) + 8 * IterationSum(f) + 64 * RoundSum(f) - control);
    OneMode(f);
    OneIteration(f);
    UnpackParts(control, ModeSum(f), IterationSum(f), RoundSum(f));
  }

  lemma UnpackParts(control: nat, mode: int, iteration: int, round: int)
    requires 0 <= mode < 8 && 0 <= iteration < 8 && round >= 0 && control == mode + 8 * iteration + 64 * round
    ensures Unpack(control) == Control(mode, iteration, round)
  {
    LowPart(control, mode, iteration + 8 * round);
    LowPart(control / 8, iteration, round);
  }

  lemma LowPart(x: int, low: int, high: int)
    requires 0 <= low < 8 && x == low + 8 * high
    ensures x % 8 == low && x / 8 == high
  {
  }

  /** The next register is the bumped control, whatever the prover claims. */
  lemma NextControlSound(f: Flags, c: Control, next: nat)
    requires c.Valid() && Selects(f, c) && RoundSum(f) == c.round && ControlAdvanced(f, next) && next < M.P
    ensures next == Bump(c).Pack()
  {
    SelectedSums(f, c);
    SelectedBits(f, c);
    PackOfSums(c, BitOf(f.iteration[4]), BitOf(f.mode[6]), BitOf(f.mode[0]) + BitOf(f.mode[3]) + BitOf(f.mode[4]),
      BitOf(f.mode[1]) + BitOf(f.mode[2]) + BitOf(f.mode[5]));
    M.VanishesExactly(Bump(c).Pack() - next);
  }

  /** The polynomial for the next control, once each flag sum is known. */
  lemma PackOfSums(c: Control, last: int, chi2: int, looping: int, stepping: int)
    requires c.Valid() && last == BitOf(c.iteration == 4) && chi2 == BitOf(c.mode == 6)
    requires looping == BitOf(c.mode == 0 || c.mode == 3 || c.mode == 4)
    requires stepping == BitOf(c.mode == 1 || c.mode == 2 || c.mode == 5)
    ensures 0 <= Bump(c).Pack() < 0x1_0000
    ensures Bump(c).Pack() == c.mode + stepping + looping * last - chi2 * (1 + 5 * last)
      + 8 * (c.iteration + (looping + chi2) * (1 - 5 * last)) + 64 * (c.round + chi2 * last)
  {
  }

  lemma SelectedBits(f: Flags, c: Control)
    requires c.Valid() && Selects(f, c)
    ensures BitOf(f.iteration[4]) == BitOf(c.iteration == 4) && BitOf(f.mode[6]) == BitOf(c.mode == 6)
    ensures BitOf(f.mode[0]) + BitOf(f.mode[3]) + BitOf(f.mode[4]) == BitOf(c.mode == 0 || c.mode == 3 || c.mode == 4)
    ensures BitOf(f.mode[1]) + BitOf(f.mode[2]) + BitOf(f.mode[5]) == BitOf(c.mode == 1 || c.mode == 2 || c.mode == 5)
  {
    assert forall k :: 0 <= k < 7 ==> f.mode[k] == (c.mode == k);
    assert f.iteration[4] == (c.iteration == 4);
  }

  lemma SelectedSums(f: Flags, c: Control)
    requires c.Valid() && Selects(f, c)
    ensures ModeSum(f) == c.mode && IterationSum(f) == c.iteration
  {
    assert f.mode[0] == (c.mode == 0) && f.mode[1] == (c.mode == 1) && f.mode[2] == (c.mode == 2);
    assert f.mode[3] == (c.mode == 3);
    assert f.mode[4] == (c.mode == 4) && f.mode[5] == (c.mode == 5) && f.mode[6] == (c.mode == 6);
  }

  /** The flags of a valid control satisfy the constraints ... */
  lemma ControlComplete(f: Flags, c: Control)
    requires c.Valid() && Selects(f, c) && RoundSum(f) == c.round
    ensures ControlDecoded(f, c.Pack())
  {
    SelectedSums(f, c);
    SelectedCounts(f, c);
  }

  lemma SelectedCounts(f: Flags, c: Control)
    requires c.Valid() && Selects(f, c)
    ensures ModeCount(f) == 1 && IterationCount(f) == 1
  {
  }

  /** ... and the bumped control is a next register they accept. */
  lemma NextControlComplete(f: Flags, c: Control)
    requires c.Valid() && Selects(f, c) && RoundSum(f) == c.round
    ensures ControlAdvanced(f, Bump(c).Pack())
  {
    SelectedSums(f, c);
    SelectedBits(f, c);
    PackOfSums(c, BitOf(f.iteration[4]), BitOf(f.mode[6]), BitOf(f.mode[0]) + BitOf(f.mode[3]) + BitOf(f.mode[4]),
      BitOf(f.mode[1]) + BitOf(f.mode[2]) + BitOf(f.mode[5]));
  }
}
