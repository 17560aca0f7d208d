/** The table of slot permutations as the circuit and the simulators store it, row by row. */
module KeccakTable {
  import opened KeccakSchedule

  const ROW_0: seq<nat> := [0, 1, 2, 3, 4, 5, 6, 7, 8, 9, 10, 11, 12, 13, 14, 15, 16, 17, 18, 19, 20, 21, 22, 23, 24]
  const ROW_1: seq<nat> := [0, 6, 12, 18, 24, 3, 9, 10, 16, 22, 1, 7, 13, 19, 20, 4, 5, 11, 17, 23, 2, 8, 14, 15, 21]
  const ROW_2: seq<nat> := [0, 9, 13, 17, 21, 18, 22, 1, 5, 14, 6, 10, 19, 23, 2, 24, 3, 7, 11, 15, 12, 16, 20, 4, 8]
  const ROW_3: seq<nat> := [0, 22, 19, 11, 8, 17, 14, 6, 3, 20, 9, 1, 23, 15, 12, 21, 18, 10, 7, 4, 13, 5, 2, 24, 16]
  const ROW_4: seq<nat> := [0, 14, 23, 7, 16, 11, 20, 9, 18, 2, 22, 6, 15, 4, 13, 8, 17, 1, 10, 24, 19, 3, 12, 21, 5]
  const ROW_5: seq<nat> := [0, 20, 15, 10, 5, 7, 2, 22, 17, 12, 14, 9, 4, 24, 19, 16, 11, 6, 1, 21, 23, 18, 13, 8, 3]
  const ROW_6: seq<nat> := [0, 2, 4, 1, 3, 10, 12, 14, 11, 13, 20, 22, 24, 21, 23, 5, 7, 9, 6, 8, 15, 17, 19, 16, 18]
  const ROW_7: seq<nat> := [0, 12, 24, 6, 18, 1, 13, 20, 7, 19, 2, 14, 21, 8, 15, 3, 10, 22, 9, 16, 4, 11, 23, 5, 17]
  const ROW_8: seq<nat> := [0, 13, 21, 9, 17, 6, 19, 2, 10, 23, 12, 20, 8, 16, 4, 18, 1, 14, 22, 5, 24, 7, 15, 3, 11]
  const ROW_9: seq<nat> := [0, 19, 8, 22, 11, 9, 23, 12, 1, 15, 13, 2, 16, 5, 24, 17, 6, 20, 14, 3, 21, 10, 4, 18, 7]
  const ROW_10: seq<nat> := [0, 23, 16, 14, 7, 22, 15, 13, 6, 4, 19, 12, 5, 3, 21, 11, 9, 2, 20, 18, 8, 1, 24, 17, 10]
  const ROW_11: seq<nat> := [0, 15, 5, 20, 10, 14, 4, 19, 9, 24, 23, 13, 3, 18, 8, 7, 22, 12, 2, 17, 16, 6, 21, 11, 1]
  const ROW_12: seq<nat> := [0, 4, 3, 2, 1, 20, 24, 23, 22, 21, 15, 19, 18, 17, 16, 10, 14, 13, 12, 11, 5, 9, 8, 7, 6]
  const ROW_13: seq<nat> := [0, 24, 18, 12, 6, 2, 21, 15, 14, 8, 4, 23, 17, 11, 5, 1, 20, 19, 13, 7, 3, 22, 16, 10, 9]
  const ROW_14: seq<nat> := [0, 21, 17, 13, 9, 12, 8, 4, 20, 16, 24, 15, 11, 7, 3, 6, 2, 23, 19, 10, 18, 14, 5, 1, 22]
  const ROW_15: seq<nat> := [0, 8, 11, 19, 22, 13, 16, 24, 2, 5, 21, 4, 7, 10, 18, 9, 12, 15, 23, 1, 17, 20, 3, 6, 14]
  const ROW_16: seq<nat> := [0, 16, 7, 23, 14, 19, 5, 21, 12, 3, 8, 24, 10, 1, 17, 22, 13, 4, 15, 6, 11, 2, 18, 9, 20]
  const ROW_17: seq<nat> := [0, 5, 10, 15, 20, 23, 3, 8, 13, 18, 16, 21, 1, 6, 11, 14, 19, 24, 4, 9, 7, 12, 17, 22, 2]
  const ROW_18: seq<nat> := [0, 3, 1, 4, 2, 15, 18, 16, 19, 17, 5, 8, 6, 9, 7, 20, 23, 21, 24, 22, 10, 13, 11, 14, 12]
  const ROW_19: seq<nat> := [0, 18, 6, 24, 12, 4, 17, 5, 23, 11, 3, 16, 9, 22, 10, 2, 15, 8, 21, 14, 1, 19, 7, 20, 13]
  const ROW_20: seq<nat> := [0, 17, 9, 21, 13, 24, 11, 3, 15, 7, 18, 5, 22, 14, 1, 12, 4, 16, 8, 20, 6, 23, 10, 2, 19]
  const ROW_21: seq<nat> := [0, 11, 22, 8, 19, 21, 7, 18, 4, 10, 17, 3, 14, 20, 6, 13, 24, 5, 16, 2, 9, 15, 1, 12, 23]
  const ROW_22: seq<nat> := [0, 7, 14, 16, 23, 8, 10, 17, 24, 1, 11, 18, 20, 2, 9, 19, 21, 3, 5, 12, 22, 4, 6, 13, 15]
  const ROW_23: seq<nat> := [0, 10, 20, 5, 15, 16, 1, 11, 21, 6, 7, 17, 2, 12, 22, 23, 8, 18, 3, 13, 14, 24, 9, 19, 4]
  const ROW_24: seq<nat> := [0, 1, 2, 3, 4, 5, 6, 7, 8, 9, 10, 11, 12, 13, 14, 15, 16, 17, 18, 19, 20, 21, 22, 23, 24]

  lemma NextRow(round: nat, p: seq<nat>, q: seq<nat>)
    requires Slots(round) == p
    requires q == NextSlots(p)
    ensures Slots(round + 1) == q
  {
  }

  lemma FirstRow()
    ensures Slots(0) == ROW_0
  {
    assert forall i :: 0 <= i < 25 ==> Slots(0)[i] == ROW_0[i];
  }

  lemma Rows1To3()
    ensures Slots(1) == ROW_1 && Slots(2) == ROW_2 && Slots(3) == ROW_3
  {
    FirstRow();
    NextRow(0, ROW_0, ROW_1);
    NextRow(1, ROW_1, ROW_2);
    NextRow(2, ROW_2, ROW_3);
  }

  lemma Rows4To6()
    ensures Slots(4) == ROW_4 && Slots(5) == ROW_5 && Slots(6) == ROW_6
  {
    Rows1To3();
    NextRow(3, ROW_3, ROW_4);
    NextRow(4, ROW_4, ROW_5);
    NextRow(5, ROW_5, ROW_6);
  }

  lemma Rows7To9()
    ensures Slots(7) == ROW_7 && Slots(8) == ROW_8 && Slots(9) == ROW_9
  {
    Rows4To6();
    NextRow(6, ROW_6, ROW_7);
    NextRow(7, ROW_7, ROW_8);
    NextRow(8, ROW_8, ROW_9);
  }

  lemma Rows10To12()
    ensures Slots(10) == ROW_10 && Slots(11) == ROW_11 && Slots(12) == ROW_12
  {
    Rows7To9();
    NextRow(9, ROW_9, ROW_10);
    NextRow(10, ROW_10, ROW_11);
    NextRow(11, ROW_11, ROW_12);
  }

  lemma Rows13To15()
    ensures Slots(13) == ROW_13 && Slots(14) == ROW_14 && Slots(15) == ROW_15
  {
    Rows10To12();
    NextRow(12, ROW_12, ROW_13);
    NextRow(13, ROW_13, ROW_14);
    NextRow(14, ROW_14, ROW_15);
  }

  lemma Rows16To18()
    ensures Slots(16) == ROW_16 && Slots(17) == ROW_17 && Slots(18) == ROW_18
  {
    Rows13To15();
    NextRow(15, ROW_15, ROW_16);
    NextRow(16, ROW_16, ROW_17);
    NextRow(17, ROW_17, ROW_18);
  }

  lemma Rows19To21()
    ensures Slots(19) == ROW_19 && Slots(20) == ROW_20 && Slots(21) == ROW_21
  {
    Rows16To18();
    NextRow(18, ROW_18, ROW_19);
    NextRow(19, ROW_19, ROW_20);
    NextRow(20, ROW_20, ROW_21);
  }

  lemma Rows22To24()
    ensures Slots(22) == ROW_22 && Slots(23) == ROW_23 && Slots(24) == ROW_24
  {
    Rows19To21();
    NextRow(21, ROW_21, ROW_22);
    NextRow(22, ROW_22, ROW_23);
    NextRow(23, ROW_23, ROW_24);
  }

  /** After 24 rounds every lane is back in its own word. */
  lemma LastRow()
    ensures Slots(24) == Slots(0)
  {
    Rows22To24();
    FirstRow();
    assert ROW_24 == ROW_0;
  }

  method LowRow(round: nat) returns (p: seq<nat>)
    requires round <= 9
    ensures p == Slots(round)
  {
    match round
    case 0 => FirstRow(); p := ROW_0;
    case 1 => Rows1To3(); p := ROW_1;
    case 2 => Rows1To3(); p := ROW_2;
    case 3 => Rows1To3(); p := ROW_3;
    case 4 => Rows4To6(); p := ROW_4;
    case 5 => Rows4To6(); p := ROW_5;
    case 6 => Rows4To6(); p := ROW_6;
    case 7 => Rows7To9(); p := ROW_7;
    case 8 => Rows7To9(); p := ROW_8;
    case _ => Rows7To9(); p := ROW_9;
  }

  method MiddleRow(round: nat) returns (p: seq<nat>)
    requires 10 <= round <= 15
    ensures p == Slots(round)
  {
    match round
    case 10 => Rows10To12(); p := ROW_10;
    case 11 => Rows10To12(); p := ROW_11;
    case 12 => Rows10To12(); p := ROW_12;
    case 13 => Rows13To15(); p := ROW_13;
    case 14 => Rows13To15(); p := ROW_14;
    case _ => Rows13To15(); p := ROW_15;
  }

  method HighRow(round: nat) returns (p: seq<nat>)
    requires 16 <= round <= 20
    ensures p == Slots(round)
  {
    match round
    case 16 => Rows16To18(); p := ROW_16;
    case 17 => Rows16To18(); p := ROW_17;
    case 18 => Rows16To18(); p := ROW_18;
    case 19 => Rows19To21(); p := ROW_19;
    case _ => Rows19To21(); p := ROW_20;
  }

  method TopRow(round: nat) returns (p: seq<nat>)
    requires 21 <= round <= 24
    ensures p == Slots(round)
  {
    match round
    case 21 => Rows19To21(); p := ROW_21;
    case 22 => Rows22To24(); p := ROW_22;
    case 23 => Rows22To24(); p := ROW_23;
    case _ => Rows22To24(); p := ROW_24;
  }

  /** The table lookup. */
  method Row(round: nat) returns (p: seq<nat>)
    requires round <= 24
    ensures p == Slots(round)
  {
    if round <= 9 { p := LowRow(round); }
    else if round <= 15 { p := MiddleRow(round); }
    else if round <= 20 { p := HighRow(round); }
    else { p := TopRow(round); }
  }
}
