/** The simulator's fast path: all 649 calls replaced by one in-place permutation of the state and
    some bookkeeping of the scratch words. */
module KeccakFast {
  import opened KeccakF
  import opened KeccakSchedule
  import opened KeccakConstants
  import opened KeccakRun
  import opened KeccakWholeRun

  // ---------------------------------------------------------------------------------------
  // Rho and pi in one walk through the lanes

  const ROTATIONS: seq<nat> := [
    1, 3, 6, 10, 15, 21, 28, 36, 45, 55, 2, 14, 27, 41, 56, 8, 25, 43, 62, 18, 39, 61, 20, 44]

  const TARGETS: seq<nat> := [
    10, 7, 11, 17, 18, 3, 5, 16, 8, 21, 24, 4, 15, 23, 19, 13, 12, 2, 20, 14, 22, 9, 6, 1]

  /** The step of the walk that writes a lane. */
  const STEPS: seq<nat> := [0, 23, 17, 5, 11, 6, 22, 1, 8, 21, 0, 2, 16, 15, 19, 12, 7, 3, 4, 14, 18, 9, 20, 13, 10]

  /** The lane carried into step j. */
  function Carried(j: nat): nat
    requires j <= 24
  {
    if j == 0 then 1 else TARGETS[j - 1]
  }

  lemma TargetAt(j: nat)
    requires j < 24
    ensures 1 <= TARGETS[j] < 25 && STEPS[TARGETS[j]] == j
  {
    assert j == 0 || j == 1 || j == 2 || j == 3 || j == 4 || j == 5 || j == 6 || j == 7 || j == 8 || j == 9 || j == 10
        || j == 11 || j == 12 || j == 13 || j == 14 || j == 15 || j == 16 || j == 17 || j == 18 || j == 19 || j == 20
        || j == 21 || j == 22 || j == 23;
  }

  lemma StepAt(i: nat)
    requires 1 <= i < 25
    ensures STEPS[i] < 24 && TARGETS[STEPS[i]] == i
  {
    assert i == 1 || i == 2 || i == 3 || i == 4 || i == 5 || i == 6 || i == 7 || i == 8 || i == 9 || i == 10 || i == 11
        || i == 12 || i == 13 || i == 14 || i == 15 || i == 16 || i == 17 || i == 18 || i == 19 || i == 20 || i == 21
        || i == 22 || i == 23 || i == 24;
  }

  /** The walk follows pi backwards. */
  lemma WalkFollowsPi(j: nat)
    requires j < 24
    ensures Carried(j) < 25 && PiSource(TARGETS[j]) == Carried(j)
  {
    if j < 8 {
      assert j == 0 || j == 1 || j == 2 || j == 3 || j == 4 || j == 5 || j == 6 || j == 7;
    } else if j < 16 {
      assert j == 8 || j == 9 || j == 10 || j == 11 || j == 12 || j == 13 || j == 14 || j == 15;
    } else {
      assert j == 16 || j == 17 || j == 18 || j == 19 || j == 20 || j == 21 || j == 22 || j == 23;
    }
  }

  /** It rotates each lane by its offset. */
  lemma WalkRotates(j: nat)
    requires j < 24
    ensures Carried(j) < 25 && ROTATIONS[j] == Offset(Carried(j)) % 64
  {
    if j < 8 {
      assert j == 0 || j == 1 || j == 2 || j == 3 || j == 4 || j == 5 || j == 6 || j == 7;
    } else if j < 16 {
      assert j == 8 || j == 9 || j == 10 || j == 11 || j == 12 || j == 13 || j == 14 || j == 15;
    } else {
      assert j == 16 || j == 17 || j == 18 || j == 19 || j == 20 || j == 21 || j == 22 || j == 23;
    }
  }

  /** It is the walk from which the standard derives its table of offsets. */
  lemma {:induction false} WalkIsStandard(j: nat)
    requires j < 24
    ensures Carried(j) == WalkLane(j) && Offset(WalkLane(j)) == (j + 1) * (j + 2) / 2
  {
    if j > 0 {
      WalkIsStandard(j - 1);
      NextCarried(j);
    }
    TriangularOffset(j);
  }

  lemma TriangularOffset(j: nat)
    requires j < 24
    ensures Carried(j) < 25 && Offset(Carried(j)) == (j + 1) * (j + 2) / 2
  {
    if j < 8 {
      assert j == 0 || j == 1 || j == 2 || j == 3 || j == 4 || j == 5 || j == 6 || j == 7;
    } else if j < 16 {
      assert j == 8 || j == 9 || j == 10 || j == 11 || j == 12 || j == 13 || j == 14 || j == 15;
    } else {
      assert j == 16 || j == 17 || j == 18 || j == 19 || j == 20 || j == 21 || j == 22 || j == 23;
    }
  }

  lemma NextCarried(j: nat)
    requires 0 < j < 24
    ensures Carried(j - 1) < 25 && Carried(j) == WalkNext(Carried(j - 1))
  {
    if j < 8 {
      assert j == 1 || j == 2 || j == 3 || j == 4 || j == 5 || j == 6 || j == 7;
    } else if j < 16 {
      assert j == 8 || j == 9 || j == 10 || j == 11 || j == 12 || j == 13 || j == 14 || j == 15;
    } else {
      assert j == 16 || j == 17 || j == 18 || j == 19 || j == 20 || j == 21 || j == 22 || j == 23;
    }
  }

  ghost predicate WalkStep(s: State, v: State, j: nat)
    requires j < 24
  {
    Carried(j) < 25 && 0 < TARGETS[j] < 25 && STEPS[TARGETS[j]] == j
    && v[TARGETS[j]] == RotL(s[Carried(j)], ROTATIONS[j])
  }

  /** v is what the walk makes of s. */
  ghost predicate WalkOf(s: State, v: State) {
    v[0] == s[0] && forall j: nat :: j < 24 ==> WalkStep(s, v, j)
  }

  lemma WalkIsRhoPi(s: State)
    ensures WalkOf(s, Pi(Rho(s)))
  {
    FirstLaneStays(s);
    forall j: nat | j < 24
      ensures WalkStep(s, Pi(Rho(s)), j)
    {
      TargetAt(j);
      LaneOfWalk(s, j);
    }
  }

  /** In place: each step puts the carried lane, rotated, where pi sends it and picks up what was
      there. */
  method Walk(a: array<Lane>, ghost v: State)
    requires a.Length == STATE_WORDS && WalkOf(a[..25], v)
    modifies a
    ensures a[..25] == v && forall i :: 25 <= i < STATE_WORDS ==> a[i] == old(a[i])
  {
    ghost var s: State := a[..25];
    var last := a[1];
    for j := 0 to 24
      invariant Carried(j) < 25 && last == s[Carried(j)]
      invariant forall i :: 0 < i < 25 && STEPS[i] < j ==> a[i] == v[i]
      invariant forall i :: 0 <= i < 25 && (i == 0 || STEPS[i] >= j) ==> a[i] == s[i]
      invariant forall i :: 25 <= i < STATE_WORDS ==> a[i] == old(a[i])
    {
      TargetAt(j);
      assert WalkStep(s, v, j);
      var t := TARGETS[j];
      var next := a[t];
      a[t] := RotL(last, ROTATIONS[j]);
      last := next;
      forall i: nat | 0 < i < 25 && STEPS[i] < j + 1
        ensures a[i] == v[i]
      {
        StepAt(i);
      }
    }
    forall i: nat | i < 25
      ensures a[i] == v[i]
    {
      if i > 0 { StepAt(i); }
    }
  }

  lemma LaneOfWalk(s: State, j: nat)
    requires j < 24
    ensures Carried(j) < 25 && TARGETS[j] < 25
    ensures Pi(Rho(s))[TARGETS[j]] == RotL(s[Carried(j)], ROTATIONS[j])
  {
    TargetAt(j);
    WalkFollowsPi(j);
    WalkRotates(j);
    RotLPeriodic(s[Carried(j)], ROTATIONS[j], Offset(Carried(j)));
  }

  lemma FirstLaneStays(s: State)
    ensures Pi(Rho(s))[0] == s[0]
  {
    assert PiSource(0) == 0 && Offset(0) == 0;
    assert forall z :: 0 <= z < LANE_BITS ==> RotL(s[0], 0)[z] == s[0][z];
  }

  // ---------------------------------------------------------------------------------------
  // The other steps in place

  lemma ZeroXor(a: Lane)
    ensures Xor(Zero(), a) == a
  {
  }

  /** One column parity, accumulated from zero. */
  method ColumnParity(a: array<Lane>, x: nat) returns (c: Lane)
    requires a.Length == STATE_WORDS && x < 5
    ensures c == Parity(a[..25], x)
  {
    ZeroXor(a[x]);
    c := Xor(Xor(Xor(Xor(Xor(Zero(), a[x]), a[5 + x]), a[10 + x]), a[15 + x]), a[20 + x]);
  }

  method ColumnParities(a: array<Lane>) returns (c: array<Lane>)
    requires a.Length == STATE_WORDS
    ensures fresh(c) && c.Length == 5
    ensures forall x: nat :: x < 5 ==> c[x] == Parity(a[..25], x)
  {
    c := new Lane[5];
    for x := 0 to 5
      invariant forall y: nat :: y < x ==> c[y] == Parity(a[..25], y)
    {
      var parity := ColumnParity(a, x);
      c[x] := parity;
    }
  }

  /** One column of theta: the same lane added to all five. */
  method AddToColumn(a: array<Lane>, x: nat, t: Lane)
    requires a.Length == STATE_WORDS && x < 5
    modifies a
    ensures forall i :: 0 <= i < 25 ==> a[i] == if i % 5 == x then Xor(old(a[i]), t) else old(a[i])
    ensures forall i :: 25 <= i < STATE_WORDS ==> a[i] == old(a[i])
  {
    for y := 0 to 5
      invariant forall i :: 0 <= i < 25 ==> a[i] == if i % 5 == x && i / 5 < y then Xor(old(a[i]), t) else old(a[i])
      invariant forall i :: 25 <= i < STATE_WORDS ==> a[i] == old(a[i])
    {
      a[5 * y + x] := Xor(a[5 * y + x], t);
    }
  }

  /** Theta in place, a column at a time.  v is theta of s. */
  method AddMixes(a: array<Lane>, c: array<Lane>, ghost s: State, ghost v: State)
    requires a.Length == STATE_WORDS && c.Length == 5 && a != c && s == a[..25] && ThetaOf(s, v)
    requires forall x: nat :: x < 5 ==> c[x] == Parity(s, x)
    modifies a
    ensures a[..25] == v && forall i :: 25 <= i < STATE_WORDS ==> a[i] == old(a[i])
  {
    for x := 0 to 5
      invariant forall i :: 0 <= i < 25 ==> a[i] == if i % 5 < x then v[i] else s[i]
      invariant forall i :: 25 <= i < STATE_WORDS ==> a[i] == old(a[i])
    {
      var t := Xor(c[(x + 4) % 5], RotL(c[(x + 1) % 5], 1));
      AddToColumn(a, x, t);
      forall i: nat | i < 25 && i % 5 == x
        ensures v[i] == Xor(s[i], t)
      {
        ThetaAt(s, v, i, x);
      }
    }
  }

  /** Chi on one row, from a copy of it. */
  method ChiRow(a: array<Lane>, y: nat, ghost s: State, ghost v: State)
    requires a.Length == STATE_WORDS && y < 5 && s == a[..25]
    requires v[5 * y] == ChiLane(s, y, 0) && v[5 * y + 1] == ChiLane(s, y, 1) && v[5 * y + 2] == ChiLane(s, y, 2)
    requires v[5 * y + 3] == ChiLane(s, y, 3) && v[5 * y + 4] == ChiLane(s, y, 4)
    modifies a
    ensures forall i :: 5 * y <= i < 5 * y + 5 ==> a[i] == v[i]
    ensures forall i :: 0 <= i < STATE_WORDS && !(5 * y <= i < 5 * y + 5) ==> a[i] == old(a[i])
  {
    var a0, a1, a2, a3, a4 := a[5 * y], a[5 * y + 1], a[5 * y + 2], a[5 * y + 3], a[5 * y + 4];
    a[5 * y] := Xor(a0, AndNot(a1, a2));
    a[5 * y + 1] := Xor(a1, AndNot(a2, a3));
    a[5 * y + 2] := Xor(a2, AndNot(a3, a4));
    a[5 * y + 3] := Xor(a3, AndNot(a4, a0));
    a[5 * y + 4] := Xor(a4, AndNot(a0, a1));
  }

  /** Chi in place, a row at a time.  v is chi of u. */
  method ChiRows(a: array<Lane>, ghost u: State, ghost v: State)
    requires a.Length == STATE_WORDS && u == a[..25] && ChiOf(u, v)
    modifies a
    ensures a[..25] == v && forall i :: 25 <= i < STATE_WORDS ==> a[i] == old(a[i])
  {
    for y := 0 to 5
      invariant forall i :: 0 <= i < 25 ==> a[i] == if i < 5 * y then v[i] else u[i]
      invariant forall i :: 25 <= i < STATE_WORDS ==> a[i] == old(a[i])
    {
      ghost var w: State := a[..25];
      SameChi(u, w, v, y);
      ChiRow(a, y, w, v);
    }
  }

  lemma SameChi(u: State, w: State, v: State, y: nat)
    requires y < 5 && ChiOf(u, v) && forall i :: 5 * y <= i < 25 ==> w[i] == u[i]
    ensures v[5 * y] == ChiLane(w, y, 0) && v[5 * y + 1] == ChiLane(w, y, 1) && v[5 * y + 2] == ChiLane(w, y, 2)
    ensures v[5 * y + 3] == ChiLane(w, y, 3) && v[5 * y + 4] == ChiLane(w, y, 4)
  {
    ChiAt(u, v, y, 0);
    ChiAt(u, v, y, 1);
    ChiAt(u, v, y, 2);
    ChiAt(u, v, y, 3);
    ChiAt(u, v, y, 4);
  }

  // ---------------------------------------------------------------------------------------
  // Rounds

  /** Iota in place. */
  method AddConstant(a: array<Lane>, round: nat, ghost v: State)
    requires a.Length == STATE_WORDS && round < ROUNDS && v == a[..25]
    modifies a
    ensures a[..25] == Iota(v, round) && forall i :: 25 <= i < STATE_WORDS ==> a[i] == old(a[i])
  {
    ConstantIsStandard(round);
    a[0] := Xor(a[0], Constant(round));
    assert a[..25] == AddFirst(v, RoundConstant(round));
  }

  /** The first 23 rounds leave the scratch words alone. */
  method FastRound(a: array<Lane>, round: nat)
    requires a.Length == STATE_WORDS && round < ROUNDS
    modifies a
    ensures a[..25] == Round(old(a[..25]), round) && forall i :: 25 <= i < STATE_WORDS ==> a[i] == old(a[i])
  {
    ghost var s: State := a[..25];
    ghost var t := Theta(s);
    ghost var u := BeforeChi(s);
    ghost var v := Chi(u);
    StepsOfRound(s, t, u, v);
    var c := ColumnParities(a);
    AddMixes(a, c, s, t);
    Walk(a, u);
    ChiRows(a, u, v);
    AddConstant(a, round, v);
  }

  lemma StepsOfRound(s: State, t: State, u: State, v: State)
    requires t == Theta(s) && u == BeforeChi(s) && v == Chi(u)
    ensures ThetaOf(s, t) && WalkOf(t, u) && ChiOf(u, v)
  {
    StepsAreSteps(s);
    WalkIsRhoPi(t);
    StepsAreSteps(u);
  }

  /** What theta adds to column x, from the five parities. */
  function MixOf(p: seq<Lane>, x: nat): Lane
    requires |p| == 5 && x < 5
  {
    Xor(p[(x + 4) % 5], RotL(p[(x + 1) % 5], 1))
  }

  method Save(a: array<Lane>, x: nat, t: Lane, t2: Lane)
    requires a.Length == STATE_WORDS
    modifies a
    ensures forall i :: 0 <= i < 27 ==> a[i] == old(a[i])
    ensures a[29] == (if x == 0 then t else old(a[29])) && a[27] == (if x == 3 then t else old(a[27]))
    ensures a[28] == (if x == 4 then t else old(a[28])) && a[30] == (if x == 4 then t2 else old(a[30]))
  {
    if x == 0 { a[29] := t; }
    if x == 3 { a[27] := t; }
    if x == 4 { a[28] := t; a[30] := t2; }
  }

  ghost predicate MixedLane(m: Memory, s: State, v: State, x: nat, i: nat)
    requires i < 25
  {
    m[i] == if i % 5 < x then v[i] else s[i]
  }

  ghost predicate SavedLane(m: Memory, p: seq<Lane>, x: nat, i: nat)
    requires |p| == 5
  {
    && (i == 29 && x > 0 ==> m[29] == MixOf(p, 0)) && (i == 27 && x > 3 ==> m[27] == MixOf(p, 3))
    && (i == 28 && x > 4 ==> m[28] == MixOf(p, 4)) && (i == 30 && x > 4 ==> m[30] == RotL(p[0], 1))
  }

  /** x columns of theta are done and the lanes due so far are saved. */
  ghost predicate MixedAndSaved(m: Memory, p: seq<Lane>, s: State, v: State, x: nat)
    requires |p| == 5
  {
    && (forall i: nat :: i < 25 ==> MixedLane(m, s, v, x, i))
    && (forall i: nat :: 27 <= i < STATE_WORDS ==> SavedLane(m, p, x, i))
  }

  lemma MixedAndSavedNext(m: Memory, n: Memory, p: seq<Lane>, s: State, v: State, x: nat)
    requires |p| == 5 && x < 5 && ThetaOf(s, v) && MixedAndSaved(m, p, s, v, x)
    requires forall y: nat :: y < 5 ==> p[y] == Parity(s, y)
    requires forall i :: 0 <= i < 25 ==> n[i] == if i % 5 == x then Xor(m[i], MixOf(p, x)) else m[i]
    requires n[29] == (if x == 0 then MixOf(p, 0) else m[29]) && n[27] == (if x == 3 then MixOf(p, 3) else m[27])
    requires n[28] == (if x == 4 then MixOf(p, 4) else m[28]) && n[30] == (if x == 4 then RotL(p[0], 1) else m[30])
    ensures MixedAndSaved(n, p, s, v, x + 1)
  {
    var y := x + 1;
    forall i: nat | i < 25
      ensures MixedLane(n, s, v, y, i)
    {
      assert MixedLane(m, s, v, x, i);
      if i % 5 == x { ThetaAt(s, v, i, x); }
    }
    forall i: nat | 27 <= i < STATE_WORDS
      ensures SavedLane(n, p, y, i)
    {
      assert SavedLane(m, p, x, i);
    }
  }

  /** One column of theta in the last round, which also keeps four of the lanes it computes. */
  method MixColumn(a: array<Lane>, c: array<Lane>, x: nat)
    requires a.Length == STATE_WORDS && c.Length == 5 && a != c && x < 5
    modifies a
    ensures forall i :: 0 <= i < 25 ==> a[i] == if i % 5 == x then Xor(old(a[i]), MixOf(c[..], x)) else old(a[i])
    ensures a[29] == (if x == 0 then MixOf(c[..], 0) else old(a[29]))
    ensures a[27] == (if x == 3 then MixOf(c[..], 3) else old(a[27]))
    ensures a[28] == (if x == 4 then MixOf(c[..], 4) else old(a[28]))
    ensures a[30] == (if x == 4 then RotL(c[0], 1) else old(a[30]))
  {
    var t2 := RotL(c[(x + 1) % 5], 1);
    var t := Xor(c[(x + 4) % 5], t2);
    Save(a, x, t, t2);
    AddToColumn(a, x, t);
  }

  method MixNextColumn(a: array<Lane>, c: array<Lane>, x: nat, ghost s: State, ghost v: State)
    requires a.Length == STATE_WORDS && c.Length == 5 && a != c && x < 5
    requires ThetaOf(s, v) && (forall y: nat :: y < 5 ==> c[y] == Parity(s, y)) && MixedAndSaved(a[..], c[..], s, v, x)
    modifies a
    ensures MixedAndSaved(a[..], c[..], s, v, x + 1)
  {
    ghost var m := a[..];
    MixColumn(a, c, x);
    MixedAndSavedNext(m, a[..], c[..], s, v, x);
  }

  method AddMixesAndSave(a: array<Lane>, c: array<Lane>, ghost s: State, ghost v: State)
    requires a.Length == STATE_WORDS && c.Length == 5 && a != c && s == a[..25] && ThetaOf(s, v)
    requires forall x: nat :: x < 5 ==> c[x] == Parity(s, x)
    modifies a
    ensures MixedAndSaved(a[..], c[..], s, v, 5)
  {
    assert forall i: nat :: i < 25 ==> MixedLane(a[..], s, v, 0, i);
    for x := 0 to 5
      invariant MixedAndSaved(a[..], c[..], s, v, x)
    {
      MixNextColumn(a, c, x, s, v);
    }
  }

  lemma AllMixed(m: Memory, p: seq<Lane>, s: State, v: State)
    requires |p| == 5 && MixedAndSaved(m, p, s, v, 5)
    ensures m[..25] == v
    ensures m[27] == MixOf(p, 3) && m[28] == MixOf(p, 4) && m[29] == MixOf(p, 0) && m[30] == RotL(p[0], 1)
  {
    forall i: nat | i < 25
      ensures m[i] == v[i]
    {
      assert MixedLane(m, s, v, 5, i);
    }
    assert SavedLane(m, p, 5, 27) && SavedLane(m, p, 5, 28) && SavedLane(m, p, 5, 29) && SavedLane(m, p, 5, 30);
  }

  /** The last round.  t, u and v are the states after theta, after pi and after chi. */
  method FastLastRound(a: array<Lane>, ghost s: State, ghost t: State, ghost u: State, ghost v: State)
    requires a.Length == STATE_WORDS && s == a[..25] && ThetaOf(s, t) && WalkOf(t, u) && ChiOf(u, v)
    modifies a
    ensures Leaves(a[..], Iota(v, 23), s, u)
  {
    var c := ColumnParities(a);
    AddMixesAndSave(a, c, s, t);
    AllMixed(a[..], c[..], s, t);
    assert a[..][..25] == a[..25];
    Walk(a, u);
    a[26] := a[21];
    ChiRows(a, u, v);
    AddConstant(a, 23, v);
    var parity := ColumnParity(a, 0);
    a[25] := parity;
    SavedLanes(a[..], c[..], Iota(v, 23), s, u);
  }

  lemma SavedLanes(m: Memory, p: seq<Lane>, f: State, s: State, u: State)
    requires |p| == 5 && forall x: nat :: x < 5 ==> p[x] == Parity(s, x)
    requires m[..25] == f && m[25] == Parity(f, 0) && m[26] == u[21]
    requires m[27] == MixOf(p, 3) && m[28] == MixOf(p, 4) && m[29] == MixOf(p, 0) && m[30] == RotL(p[0], 1)
    ensures Leaves(m, f, s, u)
  {
  }

  method NextRound(a: array<Lane>, round: nat, ghost f: (State, nat) -> State, ghost b: State)
    requires a.Length == STATE_WORDS && round < ROUNDS && IsRoundFunction(f) && a[..25] == b
    modifies a
    ensures a[..25] == f(b, round)
  {
    FastRound(a, round);
    assert RoundAt(f, b, round);
  }

  method FirstRounds(a: array<Lane>, n: nat, ghost f: (State, nat) -> State, ghost s: State)
    requires a.Length == STATE_WORDS && n < ROUNDS && IsRoundFunction(f) && a[..25] == s
    modifies a
    ensures a[..25] == Iterate(f, s, n)
  {
    for round := 0 to n
      invariant a[..25] == Iterate(f, s, round)
    {
      NextRound(a, round, f, Iterate(f, s, round));
    }
  }

  ghost predicate LastState(s: State, b: State, u: State, r: State, k: nat) {
    if k == 0 then b == Rounds(s, ROUNDS - 1) else if k == 1 then u == BeforeChi(b) else r == Iota(Chi(u), 23)
  }

  /** The states before the last round, before its chi, and after it. */
  ghost predicate LastStates(s: State, b: State, u: State, r: State) {
    forall k: nat :: k < 3 ==> LastState(s, b, u, r, k)
  }

  method LastRound(a: array<Lane>, ghost s: State, ghost b: State, ghost u: State, ghost r: State)
    requires a.Length == STATE_WORDS && b == a[..25] && LastStates(s, b, u, r)
    modifies a
    ensures Leaves(a[..], r, b, u)
  {
    assert LastState(s, b, u, r, 1) && LastState(s, b, u, r, 2);
    StepsOfRound(b, Theta(b), u, Chi(u));
    FastLastRound(a, b, Theta(b), u, Chi(u));
  }

  lemma LeavesFinal(m: Memory, s: State, b: State, u: State, r: State)
    requires LastStates(s, b, u, r) && Leaves(m, r, b, u)
    ensures IsFinal(m, s)
  {
    assert LastState(s, b, u, r, 0) && LastState(s, b, u, r, 1) && LastState(s, b, u, r, 2);
    assert Permutation(s) == Round(b, 23) == r;
  }

  lemma LastStatesHold(s: State, b: State, u: State, r: State)
    requires LastState(s, b, u, r, 0) && LastState(s, b, u, r, 1) && LastState(s, b, u, r, 2)
    ensures LastStates(s, b, u, r)
  {
    forall k: nat | k < 3
      ensures LastState(s, b, u, r, k)
    {
      assert k == 0 || k == 1 || k == 2;
    }
  }

  lemma LastStatesOf(s: State, f: (State, nat) -> State, b: State) returns (u: State, r: State)
    requires IsRoundFunction(f) && b == Iterate(f, s, ROUNDS - 1)
    ensures LastStates(s, b, u, r)
  {
    IterateIsRounds(s, f, ROUNDS - 1, b);
    u := BeforeChi(b);
    r := Iota(Chi(u), 23);
    LastStatesHold(s, b, u, r);
  }

  lemma {:induction false} IterateIsRounds(s: State, f: (State, nat) -> State, n: nat, b: State)
    requires IsRoundFunction(f) && b == Iterate(f, s, n)
    ensures b == Rounds(s, n)
    decreases n
  {
    if n > 0 {
      IterateIsRounds(s, f, n - 1, Iterate(f, s, n - 1));
      assert RoundAt(f, Iterate(f, s, n - 1), n - 1);
    }
  }

  lemma SomeRoundFunction() returns (f: (State, nat) -> State)
    ensures IsRoundFunction(f)
  {
    f := Round;
  }

  /** The fast path: what it leaves in the 31 words, for every initial memory. */
  method Permute(a: array<Lane>)
    requires a.Length == STATE_WORDS
    modifies a
    ensures IsFinal(a[..], old(a[..25]))
  {
    ghost var s: State := a[..25];
    ghost var f := SomeRoundFunction();
    FirstRounds(a, ROUNDS - 1, f, s);
    ghost var b: State := a[..25];
    ghost var u, r := LastStatesOf(s, f, b);
    LastRound(a, s, b, u, r);
    LeavesFinal(a[..], s, b, u, r);
  }

  /** The words a permutation leaves are determined by the state. */
  lemma FinalIsUnique(m: Memory, n: Memory, s: State)
    requires IsFinal(m, s) && IsFinal(n, s)
    ensures m == n
  {
    LeavesIsUnique(m, n, Permutation(s), Rounds(s, ROUNDS - 1), BeforeChi(Rounds(s, ROUNDS - 1)));
  }

  lemma LeavesIsUnique(m: Memory, n: Memory, f: State, b: State, u: State)
    requires Leaves(m, f, b, u) && Leaves(n, f, b, u)
    ensures m == n
  {
    forall i: nat | i < 31
      ensures m[i] == n[i]
    {
      assert LeavesWord(m, f, b, u, i) && LeavesWord(n, f, b, u, i);
    }
  }

  /** The fast path replaces the run: all 31 words agree after it and after the 649 calls. */
  lemma FastPathIsRun(t: seq<Memory>, s: State, fast: Memory)
    requires IsRun(t) && s == t[0][..25] && IsFinal(fast, s)
    ensures fast == t[CALLS]
  {
    RunIsPermutation(t, s);
    FinalIsUnique(fast, t[CALLS], s);
  }
}
