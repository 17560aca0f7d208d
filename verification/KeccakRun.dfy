/** The calls of one round, phase by phase, against the five step mappings of FIPS 202. */
module KeccakRun {
  import opened KeccakF
  import opened KeccakSchedule

  // ---------------------------------------------------------------------------------------
  // Lanes in memory

  /** A placement of the 25 lanes in distinct words of the first 25. */
  ghost predicate Placement(p: seq<nat>) {
    && |p| == 25 && (forall i :: 0 <= i < 25 ==> p[i] < 25)
    && (forall i, j :: 0 <= i < 25 && 0 <= j < 25 && i != j ==> p[i] != p[j])
  }

  ghost predicate LaneAt(w: Memory, p: seq<nat>, v: State, i: nat)
    requires Placement(p) && i < 25
  {
    w[p[i]] == v[i]
  }

  /** The memory holds state v, placed by p. */
  ghost predicate Stores(w: Memory, p: seq<nat>, v: State)
    requires Placement(p)
  {
    forall i: nat :: i < 25 ==> LaneAt(w, p, v, i)
  }

  /** Pi can be undone: x is the row of the source, y comes from 2 * (x + 3 * y) = 2 * x + y. */
  lemma PiInverse(i: nat)
    requires i < 25
    ensures var j := PiSource(i); i == j / 5 + 5 * ((2 * (j % 5) + 3 * (j / 5)) % 5)
  {
    var r := (i % 5 + 3 * (i / 5)) % 5;
    QuotientOfPair(PiSource(i), r, i % 5);
    RowOfSource(i % 5, i / 5, (i % 5 + 3 * (i / 5)) / 5);
  }

  lemma QuotientOfPair(j: nat, low: nat, high: nat)
    requires low < 5 && j == low + 5 * high
    ensures j % 5 == low && j / 5 == high
  {
  }

  lemma RowOfSource(x: nat, y: nat, k: nat)
    requires x < 5 && y < 5 && k == (x + 3 * y) / 5
    ensures (2 * ((x + 3 * y) % 5) + 3 * x) % 5 == y
  {
    assert 2 * ((x + 3 * y) % 5) + 3 * x == y + 5 * (x + y - 2 * k);
  }

  lemma NextPlacement(p: seq<nat>, q: seq<nat>)
    requires Placement(p) && |q| == 25
    requires forall i: nat :: i < 25 ==> q[i] == p[PiSource(i)]
    ensures Placement(q)
  {
    forall i: nat, j: nat | i < 25 && j < 25 && i != j
      ensures q[i] != q[j]
    {
      PiInverse(i);
      PiInverse(j);
      assert PiSource(i) != PiSource(j);
    }
  }

  lemma SlotsFollowPi(round: nat)
    ensures forall i: nat :: i < 25 ==> Slots(round + 1)[i] == Slots(round)[PiSource(i)]
  {
    forall i: nat | i < 25
      ensures Slots(round + 1)[i] == Slots(round)[PiSource(i)]
    {
      NextSlotsFollowPi(Slots(round), i);
    }
  }

  lemma {:induction false} SlotsPlace(round: nat)
    ensures Placement(Slots(round))
  {
    if round > 0 {
      SlotsPlace(round - 1);
      SlotsFollowPi(round - 1);
      NextPlacement(Slots(round - 1), Slots(round));
    }
  }

  lemma StoresNext(w: Memory, p: seq<nat>, q: seq<nat>, v: State, u: State)
    requires Placement(p) && Placement(q) && forall i: nat :: i < 25 ==> q[i] == p[PiSource(i)]
    requires Stores(w, p, v) && PiOf(v, u)
    ensures Stores(w, q, u)
  {
    forall i: nat | i < 25
      ensures LaneAt(w, q, u, i)
    {
      assert PiLane(v, u, i) && LaneAt(w, p, v, PiSource(i));
    }
  }

  /** Writing six distinct words back. */
  lemma ScatterAt(w: Memory, idx: seq<nat>, s: Six)
    requires |idx| == 6 && forall i :: 0 <= i < 6 ==> idx[i] < STATE_WORDS
    requires forall i, j :: 0 <= i < j < 6 ==> idx[i] != idx[j]
    ensures var v := Scatter(w, idx, s);
      && v[idx[0]] == s.w0 && v[idx[1]] == s.w1 && v[idx[2]] == s.w2
      && v[idx[3]] == s.w3 && v[idx[4]] == s.w4 && v[idx[5]] == s.w5
      && forall k :: 0 <= k < STATE_WORDS && k !in idx ==> v[k] == w[k]
  {
  }

  function ColumnIndices(p: seq<nat>, x: nat, c: nat): (idx: seq<nat>)
    requires Placement(p) && x < 5 && 25 <= c < STATE_WORDS
    ensures |idx| == 6 && forall i :: 0 <= i < 6 ==> idx[i] < STATE_WORDS
  {
    [p[x], p[x + 5], p[x + 10], p[x + 15], p[x + 20], c]
  }

  /** The five lanes of column x and one scratch word. */
  function ColumnOf(v: State, x: nat, c: Lane): Six
    requires x < 5
  {
    Six(v[x], v[x + 5], v[x + 10], v[x + 15], v[x + 20], c)
  }

  lemma ColumnGather(w: Memory, p: seq<nat>, x: nat, c: nat, v: State)
    requires Placement(p) && x < 5 && 25 <= c < STATE_WORDS && Stores(w, p, v)
    ensures Gather(w, ColumnIndices(p, x, c)) == ColumnOf(v, x, w[c])
  {
    assert LaneAt(w, p, v, x) && LaneAt(w, p, v, x + 5) && LaneAt(w, p, v, x + 10);
    assert LaneAt(w, p, v, x + 15) && LaneAt(w, p, v, x + 20);
  }

  /** A call on column x that turns state u into v, which agrees with u off the column. */
  lemma ColumnScatter(w: Memory, p: seq<nat>, x: nat, c: nat, u: State, v: State, d: Lane)
    requires Placement(p) && x < 5 && 25 <= c < STATE_WORDS && Stores(w, p, u)
    requires forall i: nat :: i < 25 && i % 5 != x ==> v[i] == u[i]
    ensures var m := Scatter(w, ColumnIndices(p, x, c), ColumnOf(v, x, d));
      && Stores(m, p, v) && m[c] == d
      && forall k :: 25 <= k < STATE_WORDS && k != c ==> m[k] == w[k]
  {
    var idx := ColumnIndices(p, x, c);
    var m := Scatter(w, idx, ColumnOf(v, x, d));
    ScatterAt(w, idx, ColumnOf(v, x, d));
    forall i: nat | i < 25
      ensures LaneAt(m, p, v, i)
    {
      if i % 5 == x {
        assert i == x || i == x + 5 || i == x + 10 || i == x + 15 || i == x + 20;
      } else {
        assert p[i] !in idx;
        assert LaneAt(w, p, u, i);
      }
    }
  }

  // ---------------------------------------------------------------------------------------
  // The step mappings, lane by lane

  ghost predicate ThetaLane(b: State, v: State, i: nat) requires i < 25 { v[i] == Xor(b[i], Mix(b, i % 5)) }

  ghost predicate ThetaOf(b: State, v: State) { forall i: nat :: i < 25 ==> ThetaLane(b, v, i) }

  ghost predicate RhoLane(b: State, v: State, i: nat) requires i < 25 { v[i] == RotL(b[i], Offset(i)) }

  ghost predicate RhoOf(b: State, v: State) { forall i: nat :: i < 25 ==> RhoLane(b, v, i) }

  ghost predicate PiLane(b: State, v: State, i: nat) requires i < 25 { v[i] == b[PiSource(i)] }

  ghost predicate PiOf(b: State, v: State) { forall i: nat :: i < 25 ==> PiLane(b, v, i) }

  ghost predicate ChiLaneOf(b: State, v: State, i: nat) requires i < 25 { v[i] == ChiLane(b, i / 5, i % 5) }

  ghost predicate ChiOf(b: State, v: State) { forall i: nat :: i < 25 ==> ChiLaneOf(b, v, i) }

  lemma StepsAreSteps(b: State)
    ensures ThetaOf(b, Theta(b)) && RhoOf(b, Rho(b)) && PiOf(b, Pi(b)) && ChiOf(b, Chi(b))
  {
  }

  // ---------------------------------------------------------------------------------------
  // Iota and the column parities

  ghost predicate ParityAt(w: Memory, b: State, x: nat) requires x < 5 { w[25 + x] == Parity(b, x) }

  /** The parities of the first k columns of b are in the scratch words. */
  ghost predicate ParitiesDone(w: Memory, b: State, k: nat) {
    forall x: nat :: x < k && x < 5 ==> ParityAt(w, b, x)
  }

  /** A call of the first mode on column x. */
  function IotaColumn(w: Memory, p: seq<nat>, x: nat, constant: Lane): Memory
    requires Placement(p) && x < 5
  {
    var idx := ColumnIndices(p, x, 25 + x);
    Scatter(w, idx, IotaColumnXor(constant, Gather(w, idx)))
  }

  lemma IotaStep(w: Memory, p: seq<nat>, a: State, c: Lane, x: nat)
    requires x < 5 && Placement(p)
    requires Stores(w, p, if x == 0 then a else AddFirst(a, c)) && ParitiesDone(w, AddFirst(a, c), x)
    ensures var m := IotaColumn(w, p, x, if x == 0 then c else Zero());
      Stores(m, p, AddFirst(a, c)) && ParitiesDone(m, AddFirst(a, c), x + 1)
  {
    var b := AddFirst(a, c);
    var u := if x == 0 then a else b;
    var constant := if x == 0 then c else Zero();
    var m := IotaColumn(w, p, x, constant);
    ColumnGather(w, p, x, 25 + x, u);
    IotaOfColumn(a, c, x, w[25 + x]);
    ColumnScatter(w, p, x, 25 + x, u, b, Parity(b, x));
    forall y: nat | y < x + 1 && y < 5
      ensures ParityAt(m, b, y)
    {
      if y < x { assert ParityAt(w, b, y); }
    }
  }

  lemma IotaOfColumn(a: State, c: Lane, x: nat, d: Lane)
    requires x < 5
    ensures var b := AddFirst(a, c);
      IotaColumnXor(if x == 0 then c else Zero(), ColumnOf(if x == 0 then a else b, x, d))
      == ColumnOf(b, x, Parity(b, x))
  {
    XorZero(AddFirst(a, c)[x]);
  }

  lemma XorZero(a: Lane)
    ensures Xor(a, Zero()) == a
  {
  }

  // ---------------------------------------------------------------------------------------
  // The two column mixes

  const SCRATCH: seq<nat> := [25, 26, 27, 28, 29, 30]

  ghost predicate MixWord(w: Memory, b: State, x: nat) {
    if x < 5 then w[ThetaColumn(x)] == Mix(b, x) else w[30] == RotL(Parity(b, 0), 1)
  }

  /** What theta adds to each column, one word early, and one rotation left over. */
  ghost predicate MixDone(w: Memory, b: State) {
    forall x: nat :: x < 6 ==> MixWord(w, b, x)
  }

  lemma MixKept(w: Memory, m: Memory, b: State)
    requires MixDone(w, b) && forall k :: 25 <= k < STATE_WORDS ==> m[k] == w[k]
    ensures MixDone(m, b)
  {
    forall x: nat | x < 6
      ensures MixWord(m, b, x)
    {
      assert MixWord(w, b, x);
    }
  }

  function MixCall1(w: Memory): Memory { Scatter(w, SCRATCH, ColumnMix1(Gather(w, SCRATCH))) }

  function MixCall2(w: Memory): Memory { Scatter(w, SCRATCH, ColumnMix2(Gather(w, SCRATCH))) }

  /** Two calls and one temporary turn the parities c0..c4 into c[x] + rotl(c[x + 2], 1) for all x. */
  lemma MixWords(w: Memory, n: Memory)
    requires n == MixCall2(MixCall1(w))
    ensures n[25] == Xor(w[25], RotL(w[27], 1)) && n[26] == Xor(w[26], RotL(w[28], 1))
    ensures n[27] == Xor(w[27], RotL(w[29], 1)) && n[28] == Xor(w[28], RotL(w[25], 1))
    ensures n[29] == Xor(w[29], RotL(w[26], 1)) && n[30] == RotL(w[25], 1)
    ensures forall k :: 0 <= k < 25 ==> n[k] == w[k]
  {
    var m := MixCall1(w);
    ScatterAt(w, SCRATCH, ColumnMix1(Gather(w, SCRATCH)));
    ScatterAt(m, SCRATCH, ColumnMix2(Gather(m, SCRATCH)));
  }

  lemma MixSteps(w: Memory, b: State, n: Memory)
    requires ParitiesDone(w, b, 5) && n == MixCall2(MixCall1(w))
    ensures MixDone(n, b)
    ensures forall k :: 0 <= k < 25 ==> n[k] == w[k]
  {
    assert ParityAt(w, b, 0) && ParityAt(w, b, 1) && ParityAt(w, b, 2) && ParityAt(w, b, 3) && ParityAt(w, b, 4);
    MixWords(w, n);
    assert MixWord(n, b, 0) && MixWord(n, b, 1) && MixWord(n, b, 2) && MixWord(n, b, 3);
    assert MixWord(n, b, 4) && MixWord(n, b, 5);
    forall x: nat | x < 6
      ensures MixWord(n, b, x)
    {
      assert x == 0 || x == 1 || x == 2 || x == 3 || x == 4 || x == 5;
    }
  }

  lemma StoresKept(w: Memory, m: Memory, p: seq<nat>, v: State)
    requires Placement(p) && Stores(w, p, v) && forall k :: 0 <= k < 25 ==> m[k] == w[k]
    ensures Stores(m, p, v)
  {
    forall i: nat | i < 25
      ensures LaneAt(m, p, v, i)
    {
      assert LaneAt(w, p, v, i);
    }
  }

  // ---------------------------------------------------------------------------------------
  // Theta and rho, column by column

  /** The first k columns of v, the others of u. */
  function Columns(u: State, v: State, k: nat): State {
    seq(25, i requires 0 <= i < 25 => if i % 5 < k then v[i] else u[i])
  }

  lemma ColumnsEnd(u: State, v: State)
    ensures Columns(u, v, 0) == u && Columns(u, v, 5) == v
  {
  }

  lemma ColumnsAt(u: State, v: State, x: nat, c: Lane)
    requires x < 5
    ensures ColumnOf(Columns(u, v, x), x, c) == ColumnOf(u, x, c)
    ensures ColumnOf(Columns(u, v, x + 1), x, c) == ColumnOf(v, x, c)
    ensures forall i: nat :: i < 25 && i % 5 != x ==> Columns(u, v, x + 1)[i] == Columns(u, v, x)[i]
  {
  }

  function ThetaCall(w: Memory, p: seq<nat>, x: nat): Memory
    requires Placement(p) && x < 5
  {
    var idx := ColumnIndices(p, x, ThetaColumn(x));
    Scatter(w, idx, ThetaColumnXor(Gather(w, idx)))
  }

  lemma ThetaOfColumn(b: State, v: State, x: nat, d: Lane)
    requires x < 5 && d == Mix(b, x) && ThetaOf(b, v)
    ensures ThetaColumnXor(ColumnOf(b, x, d)) == ColumnOf(v, x, d)
  {
    ThetaAt(b, v, x, x);
    ThetaAt(b, v, x + 5, x);
    ThetaAt(b, v, x + 10, x);
    ThetaAt(b, v, x + 15, x);
    ThetaAt(b, v, x + 20, x);
  }

  lemma ThetaAt(b: State, v: State, i: nat, x: nat)
    requires i < 25 && x == i % 5 && ThetaOf(b, v)
    ensures v[i] == Xor(b[i], Mix(b, x))
  {
    assert ThetaLane(b, v, i);
  }

  lemma ThetaStep(w: Memory, p: seq<nat>, b: State, v: State, x: nat)
    requires x < 5 && Placement(p) && MixDone(w, b) && ThetaOf(b, v)
    requires Stores(w, p, Columns(b, v, x))
    ensures Stores(ThetaCall(w, p, x), p, Columns(b, v, x + 1)) && MixDone(ThetaCall(w, p, x), b)
  {
    var c := ThetaColumn(x);
    assert MixWord(w, b, x);
    ColumnGather(w, p, x, c, Columns(b, v, x));
    ColumnsAt(b, v, x, w[c]);
    ThetaOfColumn(b, v, x, w[c]);
    ColumnScatter(w, p, x, c, Columns(b, v, x), Columns(b, v, x + 1), w[c]);
    MixKept(w, ThetaCall(w, p, x), b);
  }

  function RhoCall(w: Memory, p: seq<nat>, x: nat): Memory
    requires Placement(p) && x < 5
  {
    var idx := ColumnIndices(p, x, 25);
    Scatter(w, idx, RhoColumn(RhoOffsets(x), Gather(w, idx)))
  }

  lemma RhoStep(w: Memory, p: seq<nat>, b: State, u: State, v: State, x: nat)
    requires x < 5 && Placement(p) && MixDone(w, b) && RhoOf(u, v)
    requires Stores(w, p, Columns(u, v, x))
    ensures Stores(RhoCall(w, p, x), p, Columns(u, v, x + 1)) && MixDone(RhoCall(w, p, x), b)
  {
    ColumnGather(w, p, x, 25, Columns(u, v, x));
    ColumnsAt(u, v, x, w[25]);
    RhoOfColumn(u, v, x, w[25]);
    ColumnScatter(w, p, x, 25, Columns(u, v, x), Columns(u, v, x + 1), w[25]);
    MixKept(w, RhoCall(w, p, x), b);
  }

  /** The rotations of the circuit are those of the standard, modulo 64. */
  lemma RhoOfColumn(u: State, v: State, x: nat, c: Lane)
    requires x < 5 && RhoOf(u, v)
    ensures RhoColumn(RhoOffsets(x), ColumnOf(u, x, c)) == ColumnOf(v, x, c)
  {
    OffsetTable(x);
    assert RhoLane(u, v, x) && RhoLane(u, v, x + 5) && RhoLane(u, v, x + 10);
    assert RhoLane(u, v, x + 15) && RhoLane(u, v, x + 20);
    var n := RhoOffsets(x);
    RotLPeriodic(u[x], n[0], Offset(x));
    RotLPeriodic(u[x + 5], n[1], Offset(x + 5));
    RotLPeriodic(u[x + 10], n[2], Offset(x + 10));
    RotLPeriodic(u[x + 15], n[3], Offset(x + 15));
    RotLPeriodic(u[x + 20], n[4], Offset(x + 20));
  }

  lemma OffsetTable(x: nat)
    requires x < 5
    ensures var n := RhoOffsets(x);
      && n[0] == Offset(x) % 64 && n[1] == Offset(x + 5) % 64 && n[2] == Offset(x + 10) % 64
      && n[3] == Offset(x + 15) % 64 && n[4] == Offset(x + 20) % 64
  {
    assert x == 0 || x == 1 || x == 2 || x == 3 || x == 4;
  }

  lemma RotLPeriodic(a: Lane, n: nat, m: nat)
    requires n == m % 64
    ensures RotL(a, n) == RotL(a, m)
  {
    forall z: nat | z < LANE_BITS
      ensures RotL(a, n)[z] == RotL(a, m)[z]
    {
      SameBit(z, n, m / 64);
    }
  }

  lemma SameBit(z: int, n: int, k: int)
    ensures (z - n) % 64 == (z - (n + 64 * k)) % 64
  {
  }

  // ---------------------------------------------------------------------------------------
  // Chi, row by row, in two calls with two temporaries

  /** The first k rows of v, the others of u. */
  function Rows(u: State, v: State, k: nat): State {
    seq(25, i requires 0 <= i < 25 => if i / 5 < k then v[i] else u[i])
  }

  lemma RowsEnd(u: State, v: State)
    ensures Rows(u, v, 0) == u && Rows(u, v, 5) == v
  {
  }

  function RowIndices1(p: seq<nat>, y: nat): (idx: seq<nat>)
    requires Placement(p) && y < 5
    ensures |idx| == 6 && forall i :: 0 <= i < 6 ==> idx[i] < STATE_WORDS
  {
    [p[5 * y + 1], p[5 * y + 2], p[5 * y + 3], p[5 * y + 4], 25, 26]
  }

  function RowIndices2(p: seq<nat>, y: nat): (idx: seq<nat>)
    requires Placement(p) && y < 5
    ensures |idx| == 6 && forall i :: 0 <= i < 6 ==> idx[i] < STATE_WORDS
  {
    [p[5 * y], p[5 * y + 3], p[5 * y + 4], 25, 26, 27]
  }

  function ChiCall1(w: Memory, p: seq<nat>, y: nat): Memory
    requires Placement(p) && y < 5
  {
    Scatter(w, RowIndices1(p, y), ChiRow1(Gather(w, RowIndices1(p, y))))
  }

  function ChiCall2(w: Memory, p: seq<nat>, y: nat): Memory
    requires Placement(p) && y < 5
  {
    Scatter(w, RowIndices2(p, y), ChiRow2(Gather(w, RowIndices2(p, y))))
  }

  /** The first call finishes lanes 1 and 2 and saves what the others still need. */
  lemma ChiStep1(w: Memory, p: seq<nat>, v: State, y: nat, m: Memory)
    requires y < 5 && Placement(p) && Stores(w, p, v) && m == ChiCall1(w, p, y)
    ensures m[p[5 * y + 1]] == ChiLane(v, y, 1) && m[p[5 * y + 2]] == ChiLane(v, y, 2)
    ensures m[25] == AndNot(v[5 * y + 1], v[5 * y + 2]) && m[26] == v[5 * y + 1]
    ensures forall k ::
      0 <= k < STATE_WORDS && k != p[5 * y + 1] && k != p[5 * y + 2] && k != 25 && k != 26 ==> m[k] == w[k]
  {
    assert LaneAt(w, p, v, 5 * y + 1) && LaneAt(w, p, v, 5 * y + 2);
    assert LaneAt(w, p, v, 5 * y + 3) && LaneAt(w, p, v, 5 * y + 4);
    ScatterAt(w, RowIndices1(p, y), ChiRow1(Gather(w, RowIndices1(p, y))));
  }

  /** The second call finishes lanes 0, 3 and 4. */
  lemma ChiStep2(w: Memory, p: seq<nat>, v: State, y: nat, m: Memory)
    requires y < 5 && Placement(p) && m == ChiCall2(w, p, y)
    requires w[p[5 * y]] == v[5 * y] && w[p[5 * y + 3]] == v[5 * y + 3] && w[p[5 * y + 4]] == v[5 * y + 4]
    requires w[25] == AndNot(v[5 * y + 1], v[5 * y + 2]) && w[26] == v[5 * y + 1]
    ensures m[p[5 * y]] == ChiLane(v, y, 0) && m[p[5 * y + 3]] == ChiLane(v, y, 3)
    ensures m[p[5 * y + 4]] == ChiLane(v, y, 4)
    ensures forall k :: 0 <= k < STATE_WORDS && k != p[5 * y] && k != p[5 * y + 3] && k != p[5 * y + 4] ==> m[k] == w[k]
  {
    ScatterAt(w, RowIndices2(p, y), ChiRow2(Gather(w, RowIndices2(p, y))));
  }

  /** The two calls of a row, whatever the other rows hold. */
  lemma ChiCalls(w: Memory, p: seq<nat>, v: State, y: nat, n: Memory)
    requires y < 5 && Placement(p) && Stores(w, p, v) && n == ChiCall2(ChiCall1(w, p, y), p, y)
    ensures n[p[5 * y]] == ChiLane(v, y, 0) && n[p[5 * y + 1]] == ChiLane(v, y, 1)
    ensures n[p[5 * y + 2]] == ChiLane(v, y, 2)
    ensures n[p[5 * y + 3]] == ChiLane(v, y, 3) && n[p[5 * y + 4]] == ChiLane(v, y, 4)
    ensures n[26] == v[5 * y + 1] && forall k :: 27 <= k < STATE_WORDS ==> n[k] == w[k]
    ensures forall i: nat :: i < 25 && i / 5 != y ==> LaneAt(n, p, v, i)
  {
    var m := ChiCall1(w, p, y);
    ChiStep1(w, p, v, y, m);
    assert LaneAt(w, p, v, 5 * y) && LaneAt(w, p, v, 5 * y + 3) && LaneAt(w, p, v, 5 * y + 4);
    ChiStep2(m, p, v, y, n);
    forall i: nat | i < 25 && i / 5 != y
      ensures LaneAt(n, p, v, i)
    {
      assert LaneAt(w, p, v, i) && n[p[i]] == m[p[i]] == w[p[i]];
    }
  }

  ghost predicate ChiWord(m: Memory, n: Memory, u: State, k: nat, j: nat)
    requires k <= 5 && 26 <= j < STATE_WORDS
  {
    if j == 26 then k > 0 ==> n[26] == u[5 * k - 4] else n[j] == m[j]
  }

  /** After k rows, one scratch word holds lane 1 of the last row and the later ones are as before. */
  ghost predicate ChiKeeps(m: Memory, n: Memory, u: State, k: nat)
    requires k <= 5
  {
    forall j: nat :: 26 <= j < STATE_WORDS ==> ChiWord(m, n, u, k, j)
  }

  lemma ChiStep(m: Memory, w: Memory, p: seq<nat>, u: State, c: State, y: nat, n: Memory)
    requires y < 5 && Placement(p) && ChiOf(u, c) && Stores(w, p, Rows(u, c, y)) && ChiKeeps(m, w, u, y)
    requires n == ChiCall2(ChiCall1(w, p, y), p, y)
    ensures Stores(n, p, Rows(u, c, y + 1)) && ChiKeeps(m, n, u, y + 1)
  {
    ChiCalls(w, p, Rows(u, c, y), y, n);
    SameRow(u, c, y);
    RowAdvances(n, p, u, c, y);
    var k := y + 1;
    forall j: nat | 26 <= j < STATE_WORDS
      ensures ChiWord(m, n, u, k, j)
    {
      assert ChiWord(m, w, u, y, j);
    }
  }

  /** Chi of a row does not see the rows done before. */
  lemma SameRow(u: State, c: State, y: nat)
    requires y < 5 && ChiOf(u, c)
    ensures var v := Rows(u, c, y);
      && v[5 * y + 1] == u[5 * y + 1]
      && ChiLane(v, y, 0) == c[5 * y] && ChiLane(v, y, 1) == c[5 * y + 1] && ChiLane(v, y, 2) == c[5 * y + 2]
      && ChiLane(v, y, 3) == c[5 * y + 3] && ChiLane(v, y, 4) == c[5 * y + 4]
  {
    var v := Rows(u, c, y);
    assert v[5 * y] == u[5 * y] && v[5 * y + 1] == u[5 * y + 1] && v[5 * y + 2] == u[5 * y + 2];
    assert v[5 * y + 3] == u[5 * y + 3] && v[5 * y + 4] == u[5 * y + 4];
    ChiAt(u, c, y, 0);
    ChiAt(u, c, y, 1);
    ChiAt(u, c, y, 2);
    ChiAt(u, c, y, 3);
    ChiAt(u, c, y, 4);
  }

  lemma ChiAt(u: State, c: State, y: nat, x: nat)
    requires y < 5 && x < 5 && ChiOf(u, c)
    ensures c[5 * y + x] == ChiLane(u, y, x)
  {
    assert ChiLaneOf(u, c, 5 * y + x);
  }

  lemma RowAdvances(n: Memory, p: seq<nat>, u: State, c: State, y: nat)
    requires y < 5 && Placement(p)
    requires n[p[5 * y]] == c[5 * y] && n[p[5 * y + 1]] == c[5 * y + 1] && n[p[5 * y + 2]] == c[5 * y + 2]
    requires n[p[5 * y + 3]] == c[5 * y + 3] && n[p[5 * y + 4]] == c[5 * y + 4]
    requires forall i: nat :: i < 25 && i / 5 != y ==> LaneAt(n, p, Rows(u, c, y), i)
    ensures Stores(n, p, Rows(u, c, y + 1))
  {
    var v := Rows(u, c, y + 1);
    forall i: nat | i < 25
      ensures LaneAt(n, p, v, i)
    {
      if i / 5 == y {
        assert i == 5 * y || i == 5 * y + 1 || i == 5 * y + 2 || i == 5 * y + 3 || i == 5 * y + 4;
      } else {
        assert LaneAt(n, p, Rows(u, c, y), i);
      }
    }
  }
}
