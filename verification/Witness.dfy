/** The row a witness generator fills: witness, memory and scratch places holding canonical field
    elements, and the small generators behind the boolean gadgets. */
module Witness {
  import opened Words
  import opened Mersenne31
  import opened Gadgets

  predicate Canonical(s: seq<int>) {
    forall i :: 0 <= i < |s| ==> 0 <= s[i] < P
  }

  /** Nothing but the listed places changes. */
  ghost predicate Only(before: seq<int>, after: seq<int>, places: set<int>) {
    |after| == |before| && forall i :: 0 <= i < |before| && i !in places ==> after[i] == before[i]
  }

  /** The limbs and the carry of a sum, or of a difference. */
  predicate HoldsSum(low: int, high: int, carry: int, x: u32, y: u32) {
    0 <= low < B16 && 0 <= high < B16 && IsBit(carry) && x + y == Word(low, high) + B32 * carry
  }

  predicate HoldsDifference(low: int, high: int, carry: int, x: u32, y: u32) {
    0 <= low < B16 && 0 <= high < B16 && IsBit(carry) && Word(low, high) + y == x + B32 * carry
  }

  method OverflowingAdd(x: u32, y: u32) returns (sum: u32, overflow: Felt)
    ensures IsBit(overflow) && x + y == sum + B32 * overflow
  {
    sum, overflow := Wrap32(x + y), Bit(x + y >= B32);
  }

  method OverflowingSub(x: u32, y: u32) returns (difference: u32, overflow: Felt)
    ensures IsBit(overflow) && difference + y == x + B32 * overflow
  {
    difference, overflow := Wrap32(x - y), Bit(x < y);
  }

  class WitnessRow {
    const w: array<Felt>
    const m: array<Felt>
    const s: array<Felt>

    ghost predicate Valid()
    {
      w != m && w != s && m != s
    }

    constructor (w: array<Felt>, m: array<Felt>, s: array<Felt>)
      ensures this.w == w && this.m == m && this.s == s
    {
      this.w, this.m, this.s := w, m, s;
    }

    method EvalXor(a: nat, b: nat, out: nat)
      requires Valid() && a < w.Length && b < w.Length && out < w.Length && IsBit(w[a]) && IsBit(w[b])
      modifies w
      ensures Valid() && w[..] == old(w[..])[out := Bit(old(w[a] != w[b]))]
    {
      var x := ComputeXor(w[a], w[b]);
      w[out] := x;
    }

    method EvalAnd(a: nat, b: nat, out: nat)
      requires Valid() && a < w.Length && b < w.Length && out < w.Length && IsBit(w[a]) && IsBit(w[b])
      modifies w
      ensures Valid() && w[..] == old(w[..])[out := Bit(old(w[a] == 1 && w[b] == 1))]
    {
      var x := ComputeAnd(w[a], w[b]);
      w[out] := x;
    }

    method EvalAndNot(a: nat, b: nat, out: nat)
      requires Valid() && a < w.Length && b < w.Length && out < w.Length && IsBit(w[a]) && IsBit(w[b])
      modifies w
      ensures Valid() && w[..] == old(w[..])[out := Bit(old(w[a] == 1 && w[b] == 0))]
    {
      var x := ComputeAndNot(w[a], w[b]);
      w[out] := x;
    }

    method EvalNor(a: nat, b: nat, out: nat)
      requires Valid() && a < w.Length && b < w.Length && out < w.Length && IsBit(w[a]) && IsBit(w[b])
      modifies w
      ensures Valid() && w[..] == old(w[..])[out := Bit(old(w[a] == 0 && w[b] == 0))]
    {
      var x := ComputeNor(w[a], w[b]);
      w[out] := x;
    }

    /** Zero flag of a pair of limbs, and the inverse of their sum. */
    method EvalIsZero(low: Felt, high: Felt, flag: nat, inv: nat)
      requires Valid() && flag < w.Length && inv < w.Length && flag != inv
      modifies w
      ensures Valid()
      ensures w[..] == old(w[..])[flag := Bit(Add(low, high) == 0)][inv := InverseOrZero(Add(low, high))]
    {
      var sum := Add(low, high);
      w[flag] := Bit(sum == 0);
      var x := Invert(sum);
      w[inv] := x;
    }

    /** Two limbs and a carry out, written only under the flag. */
    method MaskedWrite(flag: nat, value: u32, overflow: Felt, low: nat, carry: nat)
      requires Valid() && flag < w.Length && low + 1 < w.Length && carry < w.Length && IsBit(w[flag])
      requires flag != low && flag != low + 1 && carry != low && carry != low + 1
      modifies w
      ensures old(w[flag]) == 0 ==> w[..] == old(w[..])
      ensures old(w[flag]) == 1 ==> w[..] == old(w[..])[low := Low(value)][low + 1 := High(value)][carry := overflow]
    {
      var mask := w[flag] == 1;
      w[low] := if mask then value % B16 else w[low];
      w[low + 1] := if mask then value / B16 % B16 else w[low + 1];
      w[carry] := if mask then overflow else w[carry];
    }

    method MaskedAdd(flag: nat, x: u32, y: u32, low: nat, carry: nat)
      requires Valid() && flag < w.Length && low + 1 < w.Length && carry < w.Length && IsBit(w[flag])
      requires flag != low && flag != low + 1 && carry != low && carry != low + 1
      modifies w
      ensures old(w[flag]) == 0 ==> w[..] == old(w[..])
      ensures Only(old(w[..]), w[..], {low, low + 1, carry})
      ensures old(w[flag]) == 1 ==> HoldsSum(w[low], w[low + 1], w[carry], x, y)
    {
      var z, overflow := OverflowingAdd(x, y);
      MaskedWrite(flag, z, overflow, low, carry);
    }

    method MaskedSub(flag: nat, x: u32, y: u32, low: nat, carry: nat)
      requires Valid() && flag < w.Length && low + 1 < w.Length && carry < w.Length && IsBit(w[flag])
      requires flag != low && flag != low + 1 && carry != low && carry != low + 1
      modifies w
      ensures old(w[flag]) == 0 ==> w[..] == old(w[..])
      ensures Only(old(w[..]), w[..], {low, low + 1, carry})
      ensures old(w[flag]) == 1 ==> HoldsDifference(w[low], w[low + 1], w[carry], x, y)
    {
      var z, overflow := OverflowingSub(x, y);
      MaskedWrite(flag, z, overflow, low, carry);
    }
  }
}
