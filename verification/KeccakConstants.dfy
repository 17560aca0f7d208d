/** The round constants as the circuit, the simulators and the fast path store them, in pairs of
    32-bit words, against the shift register of the standard. */
module KeccakConstants {
  import opened BitStrings
  import opened KeccakF

  function LowWord(r: nat): nat
    requires r < ROUNDS
  {
    match r
    case 0 => 0x1
    case 1 => 0x8082
    case 2 => 0x808a
    case 3 => 0x80008000
    case 4 => 0x808b
    case 5 => 0x80000001
    case 6 => 0x80008081
    case 7 => 0x8009
    case 8 => 0x8a
    case 9 => 0x88
    case 10 => 0x80008009
    case 11 => 0x8000000a
    case 12 => 0x8000808b
    case 13 => 0x8b
    case 14 => 0x8089
    case 15 => 0x8003
    case 16 => 0x8002
    case 17 => 0x80
    case 18 => 0x800a
    case 19 => 0x8000000a
    case 20 => 0x80008081
    case 21 => 0x8080
    case 22 => 0x80000001
    case _ => 0x80008008
  }

  function HighWord(r: nat): nat
    requires r < ROUNDS
  {
    match r
    case 0 => 0x0
    case 1 => 0x0
    case 2 => 0x80000000
    case 3 => 0x80000000
    case 4 => 0x0
    case 5 => 0x0
    case 6 => 0x80000000
    case 7 => 0x80000000
    case 8 => 0x0
    case 9 => 0x0
    case 10 => 0x0
    case 11 => 0x0
    case 12 => 0x0
    case 13 => 0x80000000
    case 14 => 0x80000000
    case 15 => 0x80000000
    case 16 => 0x80000000
    case 17 => 0x80000000
    case 18 => 0x0
    case 19 => 0x80000000
    case 20 => 0x80000000
    case 21 => 0x80000000
    case 22 => 0x0
    case _ => 0x80000000
  }

  function Constant(r: nat): Lane
    requires r < ROUNDS
  {
    Bits(LowWord(r), 32) + Bits(HighWord(r), 32)
  }

  // ---------------------------------------------------------------------------------------
  // Words with few bits set

  /** One more bit, k zeros above it, and what is known of the rest. */
  lemma BitAndShift(b: bool, n: nat, k: nat, p: nat, width: nat, rest: seq<bool>, m: nat, total: nat)
    requires p == Power(k) && Bits(n, width) == rest
    requires m == Weight(b) + 2 * (p * n) && total == 1 + k + width
    ensures Bits(m, total) == [b] + Zeros(k) + rest
  {
    Shifted(n, k, width);
    assert m / 2 == p * n && (m % 2 == 1) == b;
    assert [b] + Zeros(k) + rest == [b] + (Zeros(k) + rest);
  }

  /** The low word of a constant has bits 0, 1, 3, 7, 15 and 31 only. */
  function Sparse(b0: bool, b1: bool, b3: bool, b7: bool, b15: bool, b31: bool): seq<bool> {
    [b0] + Zeros(0) + ([b1] + Zeros(1) + ([b3] + Zeros(3)
      + ([b7] + Zeros(7) + ([b15] + Zeros(15) + ([b31] + Zeros(0) + [])))))
  }

  lemma SparseWord(b0: bool, b1: bool, b3: bool, b7: bool, b15: bool, b31: bool, n: nat, width: nat)
    requires n == Weight(b0) + 2 * Weight(b1) + 8 * Weight(b3) + 128 * Weight(b7) + 0x8000 * Weight(b15)
      + 0x8000_0000 * Weight(b31)
    requires width == 32
    ensures Bits(n, width) == Sparse(b0, b1, b3, b7, b15, b31)
  {
    var n31 := Weight(b31);
    var n15 := Weight(b15) + 2 * (0x8000 * n31);
    var n7 := Weight(b7) + 2 * (128 * n15);
    var n3 := Weight(b3) + 2 * (8 * n7);
    var n1 := Weight(b1) + 2 * (2 * n3);
    var r31, r15, r7, r3, r1 := TopParts(b1, b3, b7, b15, b31, n1, n3, n7, n15, n31);
    BitAndShift(b0, n1, 0, 1, 31, r1, n, width);
  }

  lemma TopParts(b1: bool, b3: bool, b7: bool, b15: bool, b31: bool, n1: nat, n3: nat, n7: nat, n15: nat, n31: nat)
    returns (r31: seq<bool>, r15: seq<bool>, r7: seq<bool>, r3: seq<bool>, r1: seq<bool>)
    requires n31 == Weight(b31) && n15 == Weight(b15) + 2 * (0x8000 * n31) && n7 == Weight(b7) + 2 * (128 * n15)
    requires n3 == Weight(b3) + 2 * (8 * n7) && n1 == Weight(b1) + 2 * (2 * n3)
    ensures r31 == [b31] + Zeros(0) + [] && r15 == [b15] + Zeros(15) + r31 && r7 == [b7] + Zeros(7) + r15
    ensures r3 == [b3] + Zeros(3) + r7 && r1 == [b1] + Zeros(1) + r3 && Bits(n1, 31) == r1
  {
    Powers();
    r31 := [b31] + Zeros(0) + [];
    r15 := [b15] + Zeros(15) + r31;
    r7 := [b7] + Zeros(7) + r15;
    r3 := [b3] + Zeros(3) + r7;
    r1 := [b1] + Zeros(1) + r3;
    BitAndShift(b31, 0, 0, 1, 0, [], n31, 1);
    BitAndShift(b15, n31, 15, 0x8000, 1, r31, n15, 17);
    BitAndShift(b7, n15, 7, 128, 17, r15, n7, 25);
    BitAndShift(b3, n7, 3, 8, 25, r7, n3, 29);
    BitAndShift(b1, n3, 1, 2, 29, r3, n1, 31);
  }

  lemma Powers()
    ensures Power(0) == 1 && Power(1) == 2 && Power(3) == 8 && Power(7) == 128
    ensures Power(15) == 0x8000 && Power(31) == 0x8000_0000
  {
    assert Power(11) == 0x800;
    assert Power(19) == 0x8_0000;
    assert Power(23) == 0x80_0000;
    assert Power(27) == 0x800_0000;
  }

  lemma TopBit(b: bool, n: nat, width: nat)
    requires n == 0x8000_0000 * Weight(b) && width == 32
    ensures Bits(n, width) == Zeros(31) + [b]
  {
    Powers();
    Shifted(Weight(b), 31, 1);
    assert Bits(Weight(b), 1) == [b];
  }

  // ---------------------------------------------------------------------------------------
  // The shift register

  /** The register after 7 * r steps. */
  function Start(r: nat): nat
    requires r <= ROUNDS
  {
    match r
    case 0 => 1
    case 1 => 128
    case 2 => 216
    case 3 => 26
    case 4 => 223
    case 5 => 9
    case 6 => 53
    case 7 => 79
    case 8 => 202
    case 9 => 112
    case 10 => 65
    case 11 => 236
    case 12 => 213
    case 13 => 205
    case 14 => 99
    case 15 => 171
    case 16 => 170
    case 17 => 42
    case 18 => 242
    case 19 => 232
    case 20 => 55
    case 21 => 62
    case 22 => 11
    case 23 => 68
    case _ => 142
  }

  predicate Same(t: nat, u: nat) { t == u }

  ghost predicate RegisterIs(t: nat, s: nat) {
    forall u: nat :: Same(t, u) ==> Register(u) == s
  }

  ghost predicate AgreesOn(t: nat, low: nat, high: nat, upper: bool) {
    if upper then
      high == 0x8000_0000 * Weight(Output(t + 6))
    else
      low == Weight(Output(t)) + 2 * Weight(Output(t + 1)) + 8 * Weight(Output(t + 2)) + 128 * Weight(Output(t + 3))
             + 0x8000 * Weight(Output(t + 4)) + 0x8000_0000 * Weight(Output(t + 5))
  }

  /** The seven outputs from step t on are the bits of (low, high). */
  ghost predicate Agrees(t: nat, low: nat, high: nat) {
    forall upper :: AgreesOn(t, low, high, upper)
  }

  lemma SevenSteps(t: nat, s0: nat, s1: nat, s2: nat, s3: nat, s4: nat, s5: nat, s6: nat, s7: nat, low: nat, high: nat)
    requires RegisterIs(t, s0) && s0 < 256 && s1 < 256 && s2 < 256 && s3 < 256 && s4 < 256 && s5 < 256 && s6 < 256
    requires s1 == NextRegister(s0) && s2 == NextRegister(s1) && s3 == NextRegister(s2) && s4 == NextRegister(s3)
    requires s5 == NextRegister(s4) && s6 == NextRegister(s5) && s7 == NextRegister(s6)
    requires low == s0 % 2 + 2 * (s1 % 2) + 8 * (s2 % 2) + 128 * (s3 % 2) + 0x8000 * (s4 % 2) + 0x8000_0000 * (s5 % 2)
    requires high == 0x8000_0000 * (s6 % 2)
    ensures RegisterIs(t + 7, s7) && Agrees(t, low, high)
  {
    OneStep(t, s0, s1);
    OneStep(t + 1, s1, s2);
    OneStep(t + 2, s2, s3);
    OneStep(t + 3, s3, s4);
    OneStep(t + 4, s4, s5);
    OneStep(t + 5, s5, s6);
    OneStep(t + 6, s6, s7);
    assert AgreesOn(t, low, high, false) && AgreesOn(t, low, high, true);
  }

  lemma OneStep(t: nat, s: nat, next: nat)
    requires RegisterIs(t, s) && s < 256 && next == NextRegister(s)
    ensures RegisterIs(t + 1, next) && Weight(Output(t)) == s % 2
  {
    assert Same(t, t);
    assert Register(t + 1) == NextRegister(Register(t));
  }

  lemma Constants0And1(r: nat, t: nat)
    requires 0 <= r <= 1 && RegisterIs(t, Start(r))
    ensures RegisterIs(t + 7, Start(r + 1)) && Agrees(t, LowWord(r), HighWord(r))
  {
    if r == 0 {
      SevenSteps(t, 1, 2, 4, 8, 16, 32, 64, 128, 0x1, 0x0);
    } else {
      SevenSteps(t, 128, 113, 226, 181, 27, 54, 108, 216, 0x8082, 0x0);
    }
  }

  lemma Constants2And3(r: nat, t: nat)
    requires 2 <= r <= 3 && RegisterIs(t, Start(r))
    ensures RegisterIs(t + 7, Start(r + 1)) && Agrees(t, LowWord(r), HighWord(r))
  {
    if r == 2 {
      SevenSteps(t, 216, 193, 243, 151, 95, 190, 13, 26, 0x808a, 0x80000000);
    } else {
      SevenSteps(t, 26, 52, 104, 208, 209, 211, 215, 223, 0x80008000, 0x80000000);
    }
  }

  lemma Constants4And5(r: nat, t: nat)
    requires 4 <= r <= 5 && RegisterIs(t, Start(r))
    ensures RegisterIs(t + 7, Start(r + 1)) && Agrees(t, LowWord(r), HighWord(r))
  {
    if r == 4 {
      SevenSteps(t, 223, 207, 239, 175, 47, 94, 188, 9, 0x808b, 0x0);
    } else {
      SevenSteps(t, 9, 18, 36, 72, 144, 81, 162, 53, 0x80000001, 0x0);
    }
  }

  lemma Constants6And7(r: nat, t: nat)
    requires 6 <= r <= 7 && RegisterIs(t, Start(r))
    ensures RegisterIs(t + 7, Start(r + 1)) && Agrees(t, LowWord(r), HighWord(r))
  {
    if r == 6 {
      SevenSteps(t, 53, 106, 212, 217, 195, 247, 159, 79, 0x80008081, 0x80000000);
    } else {
      SevenSteps(t, 79, 158, 77, 154, 69, 138, 101, 202, 0x8009, 0x80000000);
    }
  }

  lemma Constants8And9(r: nat, t: nat)
    requires 8 <= r <= 9 && RegisterIs(t, Start(r))
    ensures RegisterIs(t + 7, Start(r + 1)) && Agrees(t, LowWord(r), HighWord(r))
  {
    if r == 8 {
      SevenSteps(t, 202, 229, 187, 7, 14, 28, 56, 112, 0x8a, 0x0);
    } else {
      SevenSteps(t, 112, 224, 177, 19, 38, 76, 152, 65, 0x88, 0x0);
    }
  }

  lemma Constants10And11(r: nat, t: nat)
    requires 10 <= r <= 11 && RegisterIs(t, Start(r))
    ensures RegisterIs(t + 7, Start(r + 1)) && Agrees(t, LowWord(r), HighWord(r))
  {
    if r == 10 {
      SevenSteps(t, 65, 130, 117, 234, 165, 59, 118, 236, 0x80008009, 0x0);
    } else {
      SevenSteps(t, 236, 169, 35, 70, 140, 105, 210, 213, 0x8000000a, 0x0);
    }
  }

  lemma Constants12And13(r: nat, t: nat)
    requires 12 <= r <= 13 && RegisterIs(t, Start(r))
    ensures RegisterIs(t + 7, Start(r + 1)) && Agrees(t, LowWord(r), HighWord(r))
  {
    if r == 12 {
      SevenSteps(t, 213, 219, 199, 255, 143, 111, 222, 205, 0x8000808b, 0x0);
    } else {
      SevenSteps(t, 205, 235, 167, 63, 126, 252, 137, 99, 0x8b, 0x80000000);
    }
  }

  lemma Constants14And15(r: nat, t: nat)
    requires 14 <= r <= 15 && RegisterIs(t, Start(r))
    ensures RegisterIs(t + 7, Start(r + 1)) && Agrees(t, LowWord(r), HighWord(r))
  {
    if r == 14 {
      SevenSteps(t, 99, 198, 253, 139, 103, 206, 237, 171, 0x8089, 0x80000000);
    } else {
      SevenSteps(t, 171, 39, 78, 156, 73, 146, 85, 170, 0x8003, 0x80000000);
    }
  }

  lemma Constants16And17(r: nat, t: nat)
    requires 16 <= r <= 17 && RegisterIs(t, Start(r))
    ensures RegisterIs(t + 7, Start(r + 1)) && Agrees(t, LowWord(r), HighWord(r))
  {
    if r == 16 {
      SevenSteps(t, 170, 37, 74, 148, 89, 178, 21, 42, 0x8002, 0x80000000);
    } else {
      SevenSteps(t, 42, 84, 168, 33, 66, 132, 121, 242, 0x80, 0x80000000);
    }
  }

  lemma Constants18And19(r: nat, t: nat)
    requires 18 <= r <= 19 && RegisterIs(t, Start(r))
    ensures RegisterIs(t + 7, Start(r + 1)) && Agrees(t, LowWord(r), HighWord(r))
  {
    if r == 18 {
      SevenSteps(t, 242, 149, 91, 182, 29, 58, 116, 232, 0x800a, 0x0);
    } else {
      SevenSteps(t, 232, 161, 51, 102, 204, 233, 163, 55, 0x8000000a, 0x80000000);
    }
  }

  lemma Constants20And21(r: nat, t: nat)
    requires 20 <= r <= 21 && RegisterIs(t, Start(r))
    ensures RegisterIs(t + 7, Start(r + 1)) && Agrees(t, LowWord(r), HighWord(r))
  {
    if r == 20 {
      SevenSteps(t, 55, 110, 220, 201, 227, 183, 31, 62, 0x80008081, 0x80000000);
    } else {
      SevenSteps(t, 62, 124, 248, 129, 115, 230, 189, 11, 0x8080, 0x80000000);
    }
  }

  lemma Constants22And23(r: nat, t: nat)
    requires 22 <= r <= 23 && RegisterIs(t, Start(r))
    ensures RegisterIs(t + 7, Start(r + 1)) && Agrees(t, LowWord(r), HighWord(r))
  {
    if r == 22 {
      SevenSteps(t, 11, 22, 44, 88, 176, 17, 34, 68, 0x80000001, 0x0);
    } else {
      SevenSteps(t, 68, 136, 97, 194, 245, 155, 71, 142, 0x80008008, 0x80000000);
    }
  }

  lemma NextConstant(r: nat, t: nat)
    requires r < ROUNDS && RegisterIs(t, Start(r))
    ensures RegisterIs(t + 7, Start(r + 1)) && Agrees(t, LowWord(r), HighWord(r))
  {
    if r <= 1 { Constants0And1(r, t); }
    else if r <= 3 { Constants2And3(r, t); }
    else if r <= 5 { Constants4And5(r, t); }
    else if r <= 7 { Constants6And7(r, t); }
    else if r <= 9 { Constants8And9(r, t); }
    else if r <= 11 { Constants10And11(r, t); }
    else if r <= 13 { Constants12And13(r, t); }
    else if r <= 15 { Constants14And15(r, t); }
    else if r <= 17 { Constants16And17(r, t); }
    else if r <= 19 { Constants18And19(r, t); }
    else if r <= 21 { Constants20And21(r, t); }
    else { Constants22And23(r, t); }
  }

  lemma {:induction false} RegisterTable(r: nat, t: nat)
    requires r <= ROUNDS && t == 7 * r
    ensures RegisterIs(t, Start(r))
    decreases r
  {
    if r > 0 {
      RegisterTable(r - 1, t - 7);
      NextConstant(r - 1, t - 7);
    }
  }

  /** Every stored constant is the standard's. */
  lemma ConstantIsStandard(r: nat)
    requires r < ROUNDS
    ensures Constant(r) == RoundConstant(r)
  {
    var t := 7 * r;
    RegisterTable(r, t);
    NextConstant(r, t);
    SparseConstant(t, LowWord(r), HighWord(r), Constant(r));
    SparseLane(r, t, Constant(r));
  }

  lemma SparseConstant(t: nat, low: nat, high: nat, c: Lane)
    requires Agrees(t, low, high) && c == Bits(low, 32) + Bits(high, 32)
    ensures c == Sparse(Output(t), Output(t + 1), Output(t + 2), Output(t + 3), Output(t + 4), Output(t + 5))
               + (Zeros(31) + [Output(t + 6)])
  {
    assert AgreesOn(t, low, high, false) && AgreesOn(t, low, high, true);
    SparseWord(Output(t), Output(t + 1), Output(t + 2), Output(t + 3), Output(t + 4), Output(t + 5), low, 32);
    TopBit(Output(t + 6), high, 32);
  }

  lemma SparseLane(r: nat, t: nat, c: Lane)
    requires t == 7 * r
    requires c == Sparse(Output(t), Output(t + 1), Output(t + 2), Output(t + 3), Output(t + 4), Output(t + 5))
                + (Zeros(31) + [Output(t + 6)])
    ensures c == RoundConstant(r)
  {
    SparseBits(Output(t), Output(t + 1), Output(t + 2), Output(t + 3), Output(t + 4), Output(t + 5), Output(t + 6), c);
  }

  lemma SparseBits(b0: bool, b1: bool, b3: bool, b7: bool, b15: bool, b31: bool, b63: bool, c: Lane)
    requires c == Sparse(b0, b1, b3, b7, b15, b31) + (Zeros(31) + [b63])
    ensures forall z :: 0 <= z < LANE_BITS ==>
      c[z] == if z == 0 then b0 else if z == 1 then b1 else if z == 3 then b3 else if z == 7 then b7
              else if z == 15 then b15 else if z == 31 then b31 else z == 63 && b63
  {
    var s15 := [b15] + Zeros(15) + ([b31] + Zeros(0) + []);
    var s7 := [b7] + Zeros(7) + s15;
    var s3 := [b3] + Zeros(3) + s7;
    assert forall z :: 0 <= z < 17 ==> s15[z] == if z == 0 then b15 else z == 16 && b31;
    assert forall z :: 0 <= z < 25 ==> s7[z] == if z == 0 then b7 else z >= 8 && s15[z - 8];
    assert forall z :: 0 <= z < 29 ==> s3[z] == if z == 0 then b3 else z >= 4 && s7[z - 4];
    var low := Sparse(b0, b1, b3, b7, b15, b31);
    assert forall z :: 0 <= z < 32 ==> low[z] == if z == 0 then b0 else if z == 1 then b1 else z >= 3 && s3[z - 3];
  }
}
