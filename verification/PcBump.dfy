/** The increment of the program counter without range checks: each limb is compared with the value
    that would carry, and reset to zero if it meets it. */
module PcBump {
  import opened Words
  import opened Mersenne31
  import opened Gadgets

  /** One limb plus a step: `flag` says the sum is exactly 2^16, with an inverse as a hint. */
  predicate LimbBump(limb: int, step: int, flag: int, inv: int, next: int) {
    && IsBit(flag)
    && Vanishes((limb + step - B16) * flag)
    && Vanishes((limb + step - B16) * inv + flag - 1)
    && Vanishes((1 - flag) * (limb + step) - next)
  }

  datatype Bump = Bump(lowFlag: Felt, lowInverse: Felt, highFlag: Felt, highInverse: Felt, nextLow: Felt,
                       nextHigh: Felt)

  predicate BumpConstraints(low: int, high: int, b: Bump) {
    && LimbBump(low, 4, b.lowFlag, b.lowInverse, b.nextLow)
    && LimbBump(high, b.lowFlag, b.highFlag, b.highInverse, b.nextHigh)
  }

  lemma LimbBumpMeans(limb: u16, step: int, flag: int, inv: int, next: Felt)
    requires 0 <= step <= 4 && LimbBump(limb, step, flag, inv, next)
    ensures flag == Bit(limb + step == B16) && next == if limb + step == B16 then 0 else limb + step
  {
    var d := limb + step - B16;
    if flag == 1 {
      VanishesExactly(d);
    } else {
      assert d == 0 ==> d * inv + flag - 1 == -1;
      VanishesExactly(limb + step - next);
    }
  }

  predicate IsNext(low: u16, high: u16, nextLow: int, nextHigh: int) {
    nextLow == Low(Wrap32(Word(low, high) + 4)) && nextHigh == High(Wrap32(Word(low, high) + 4))
  }

  lemma NextLimbs(low: u16, high: u16)
    ensures var carry := Bit(low + 4 >= B16);
      IsNext(low, high, low + 4 - B16 * carry, if high + carry == B16 then 0 else high + carry)
  {
  }

  /** The constraints make the next program counter pc + 4 (mod 2^32) exactly when the low limb is
      at most 2^16 - 4; the largest three values carry without being noticed. */
  lemma BumpSound(low: u16, high: u16, b: Bump)
    requires BumpConstraints(low, high, b)
    ensures IsNext(low, high, b.nextLow, b.nextHigh) <==> low <= B16 - 4
  {
    LimbBumpMeans(low, 4, b.lowFlag, b.lowInverse, b.nextLow);
    LimbBumpMeans(high, b.lowFlag, b.highFlag, b.highInverse, b.nextHigh);
    NextLimbs(low, high);
  }

  /** An aligned program counter never has such a limb. */
  lemma AlignedBumps(low: u16, high: u16, b: Bump)
    requires BumpConstraints(low, high, b) && Word(low, high) % 4 == 0
    ensures IsNext(low, high, b.nextLow, b.nextHigh)
  {
    AlignedLimb(low, high);
    BumpSound(low, high, b);
  }

  lemma AlignedLimb(low: u16, high: u16)
    requires Word(low, high) % 4 == 0
    ensures low <= B16 - 4
  {
    assert low == Word(low, high) - 4 * (0x4000 * high);
  }

  // ---------------------------------------------------------------------------------------
  // The generator

  lemma LimbBumpHolds(limb: u16, step: int, inv: Felt)
    requires 0 <= step <= 4 && limb + step <= B16 && inv == InverseOrZero(Reduce(limb + step - B16))
    ensures LimbBump(limb, step, Bit(limb + step == B16), inv, if limb + step == B16 then 0 else limb + step)
  {
    var d := limb + step - B16;
    var r := Reduce(d);
    if d != 0 {
      assert r == d + P;
      InverseTimes(r, inv);
      assert d * inv + 0 - 1 == r * inv - 1 - P * inv;
      LessMultiple(r * inv - 1, inv);
    }
  }

  lemma InverseTimes(x: Felt, inv: Felt)
    requires x != 0 && inv == InverseOrZero(x)
    ensures Vanishes(x * inv - 1)
  {
    SwapFactors(inv, x);
    PredecessorVanishes(x * inv);
  }

  lemma LessMultiple(x: int, k: int)
    requires Vanishes(x)
    ensures Vanishes(x - P * k)
  {
    var q := x / P;
    assert x - P * k == P * (q - k);
    MultipleOfModulus(q - k);
  }

  lemma MultipleOfModulus(k: int)
    ensures Vanishes(P * k)
  {
  }

  /** Flags, inverses and next limbs as they are computed: the flag is the carry out of the limb. */
  method ComputeBump(low: u16, high: u16) returns (b: Bump)
    ensures b.lowFlag == Bit(low + 4 >= B16) && b.highFlag == Bit(high + b.lowFlag >= B16)
    ensures BumpConstraints(low, high, b) <==> low <= B16 - 4
    ensures low <= B16 - 4 ==> IsNext(low, high, b.nextLow, b.nextHigh)
  {
    var lowFlag := Bit(low + 4 >= B16);
    var lowInverse := Invert(Sub(Add(low, 4), B16));
    var highFlag := Bit(high + lowFlag >= B16);
    var highInverse := Invert(Sub(Add(high, lowFlag), B16));
    var nextLow := if lowFlag == 1 then 0 else low + 4;
    var nextHigh := if highFlag == 1 then 0 else high + lowFlag;
    b := Bump(lowFlag, lowInverse, highFlag, highInverse, nextLow, nextHigh);
    ComputedBump(low, high, b);
  }

  lemma ComputedBump(low: u16, high: u16, b: Bump)
    requires b.lowFlag == Bit(low + 4 >= B16) && b.highFlag == Bit(high + b.lowFlag >= B16)
    requires b.lowInverse == InverseOrZero(Sub(Add(low, 4), B16))
    requires b.highInverse == InverseOrZero(Sub(Add(high, b.lowFlag), B16))
    requires b.nextLow == (if b.lowFlag == 1 then 0 else low + 4)
    requires b.nextHigh == (if b.highFlag == 1 then 0 else high + b.lowFlag)
    ensures BumpConstraints(low, high, b) <==> low <= B16 - 4
    ensures low <= B16 - 4 ==> IsNext(low, high, b.nextLow, b.nextHigh)
  {
    if low <= B16 - 4 {
      LimbComputed(low, 4, b.lowFlag, b.lowInverse, b.nextLow);
      LimbComputed(high, b.lowFlag, b.highFlag, b.highInverse, b.nextHigh);
      BumpSound(low, high, b);
    } else {
      LateCarry(low, b.lowInverse, b.nextLow);
    }
  }

  lemma LimbComputed(limb: u16, step: Felt, flag: Felt, inv: Felt, next: Felt)
    requires 0 <= step <= 4 && limb + step <= B16 && flag == Bit(limb + step >= B16)
    requires inv == InverseOrZero(Sub(Add(limb, step), B16)) && next == if flag == 1 then 0 else limb + step
    ensures LimbBump(limb, step, flag, inv, next)
  {
    assert Sub(Add(limb, step), B16) == Reduce(limb + step - B16);
    LimbBumpHolds(limb, step, inv);
  }

  /** A limb that passes 2^16 without meeting it cannot raise its flag. */
  lemma LateCarry(limb: u16, inv: Felt, next: Felt)
    requires limb > B16 - 4
    ensures !LimbBump(limb, 4, 1, inv, next)
  {
    if LimbBump(limb, 4, 1, inv, next) { LimbBumpMeans(limb, 4, 1, inv, next); }
  }
}
