/** The 649 calls together: with the slot table absorbing pi and every constant added one round
    late, they leave Keccak-f[1600] of the state in its own words. */
module KeccakWholeRun {
  import opened KeccakF
  import opened KeccakSchedule
  import opened KeccakRun
  import opened KeccakTable

  // ---------------------------------------------------------------------------------------
  // The calls in sequence

  /** The memories between the calls. */
  ghost predicate Follows(t: seq<Memory>, n: nat)
    requires n + 1 < |t|
  {
    ControlAt(n).Valid() && t[n + 1] == Call(t[n], ControlAt(n))
  }

  ghost predicate IsRun(t: seq<Memory>) {
    |t| == CALLS + 1 && forall n: nat :: n < CALLS ==> Follows(t, n)
  }

  /** The k-th call of a round. */
  lemma NthCall(t: seq<Memory>, round: nat, k: nat, n: nat, c: Control)
    requires IsRun(t) && k < 27 && n == 27 * round + k && n < CALLS
    requires c.round == round
    requires k < 5 ==> c.mode == IOTA_COLUMNXOR && c.iteration == k
    requires k == 5 ==> c.mode == COLUMNMIX1 && c.iteration == 0
    requires k == 6 ==> c.mode == COLUMNMIX2 && c.iteration == 0
    requires 7 <= k < 12 ==> c.mode == THETA && c.iteration == k - 7
    requires 12 <= k < 17 ==> c.mode == RHO && c.iteration == k - 12
    requires 17 <= k ==> c.mode == (if k % 2 == 1 then CHI1 else CHI2) && c.iteration == (k - 17) / 2
    ensures c.Valid() && t[n + 1] == Call(t[n], c)
  {
    assert Follows(t, n);
    assert n / 27 == round && n % 27 == k;
    assert ControlAt(n) == c;
  }

  ghost predicate SlotAt(p: seq<nat>, round: nat, i: nat)
    requires |p| == 25 && i < 25
  {
    p[i] == Slots(round)[i]
  }

  /** p is the placement of the given round. */
  ghost predicate PlacedAt(p: seq<nat>, round: nat) {
    Placement(p) && forall i: nat :: i < 25 ==> SlotAt(p, round, i)
  }

  lemma PlacedSlots(p: seq<nat>, round: nat)
    requires PlacedAt(p, round)
    ensures p == Slots(round)
  {
    forall i: nat | i < 25
      ensures p[i] == Slots(round)[i]
    {
      assert SlotAt(p, round, i);
    }
  }

  lemma PlacementOf(round: nat) returns (p: seq<nat>)
    ensures PlacedAt(p, round)
  {
    SlotsPlace(round);
    p := Slots(round);
  }

  lemma IotaRun(t: seq<Memory>, p: seq<nat>, round: nat, x: nat, n: nat)
    requires IsRun(t) && x < 5 && n == 27 * round + x && n < CALLS && PlacedAt(p, round)
    ensures t[n + 1] == IotaColumn(t[n], p, x, if x == 0 then DelayedConstant(round) else Zero())
  {
    PlacedSlots(p, round);
    NthCall(t, round, x, n, Control(IOTA_COLUMNXOR, x, round));
    assert Indices(Control(IOTA_COLUMNXOR, x, round)) == ColumnIndices(p, x, 25 + x);
  }

  lemma MixRun(t: seq<Memory>, round: nat, n: nat)
    requires IsRun(t) && round < 24 && n == 27 * round + 5
    ensures t[n + 2] == MixCall2(MixCall1(t[n]))
  {
    NthCall(t, round, 5, n, Control(COLUMNMIX1, 0, round));
    NthCall(t, round, 6, n + 1, Control(COLUMNMIX2, 0, round));
  }

  lemma ThetaRun(t: seq<Memory>, p: seq<nat>, round: nat, x: nat, n: nat)
    requires IsRun(t) && round < 24 && x < 5 && n == 27 * round + 7 + x && PlacedAt(p, round)
    ensures t[n + 1] == ThetaCall(t[n], p, x)
  {
    PlacedSlots(p, round);
    NthCall(t, round, 7 + x, n, Control(THETA, x, round));
    assert Indices(Control(THETA, x, round)) == ColumnIndices(p, x, ThetaColumn(x));
  }

  lemma RhoRun(t: seq<Memory>, p: seq<nat>, round: nat, x: nat, n: nat)
    requires IsRun(t) && round < 24 && x < 5 && n == 27 * round + 12 + x && PlacedAt(p, round)
    ensures t[n + 1] == RhoCall(t[n], p, x)
  {
    PlacedSlots(p, round);
    NthCall(t, round, 12 + x, n, Control(RHO, x, round));
    assert Indices(Control(RHO, x, round)) == ColumnIndices(p, x, 25);
  }

  lemma ChiRun1(t: seq<Memory>, p: seq<nat>, round: nat, y: nat, n: nat)
    requires IsRun(t) && round < 24 && y < 5 && n == 27 * round + 17 + 2 * y && PlacedAt(p, round + 1)
    ensures t[n + 1] == ChiCall1(t[n], p, y)
  {
    PlacedSlots(p, round + 1);
    NthCall(t, round, 17 + 2 * y, n, Control(CHI1, y, round));
    assert Indices(Control(CHI1, y, round)) == RowIndices1(p, y);
  }

  lemma ChiRun2(t: seq<Memory>, p: seq<nat>, round: nat, y: nat, n: nat)
    requires IsRun(t) && round < 24 && y < 5 && n == 27 * round + 18 + 2 * y && PlacedAt(p, round + 1)
    ensures t[n + 1] == ChiCall2(t[n], p, y)
  {
    PlacedSlots(p, round + 1);
    NthCall(t, round, 18 + 2 * y, n, Control(CHI2, y, round));
    assert Indices(Control(CHI2, y, round)) == RowIndices2(p, y);
  }

  // ---------------------------------------------------------------------------------------
  // The phases of a round

  lemma {:induction false} IotaPhase(t: seq<Memory>, p: seq<nat>, round: nat, n: nat, k: nat, a: State, c: Lane)
    requires IsRun(t) && k <= 5 && n == 27 * round && n + k <= CALLS && PlacedAt(p, round)
    requires Stores(t[n], p, a) && c == DelayedConstant(round)
    ensures Stores(t[n + k], p, if k == 0 then a else AddFirst(a, c)) && ParitiesDone(t[n + k], AddFirst(a, c), k)
  {
    if k > 0 {
      var j := n + (k - 1);
      IotaPhase(t, p, round, n, k - 1, a, c);
      IotaRun(t, p, round, k - 1, j);
      IotaStep(t[j], p, a, c, k - 1);
      assert t[n + k] == t[j + 1];
    }
  }

  lemma MixPhase(t: seq<Memory>, p: seq<nat>, round: nat, n: nat, b: State)
    requires IsRun(t) && Placement(p) && round < 24 && n == 27 * round + 5
    requires Stores(t[n], p, b) && ParitiesDone(t[n], b, 5)
    ensures Stores(t[n + 2], p, b) && MixDone(t[n + 2], b)
  {
    MixRun(t, round, n);
    MixSteps(t[n], b, t[n + 2]);
    StoresKept(t[n], t[n + 2], p, b);
  }

  lemma {:induction false} ThetaPhase(t: seq<Memory>, p: seq<nat>, round: nat, n: nat, k: nat, b: State, v: State)
    requires IsRun(t) && k <= 5 && round < 24 && n == 27 * round + 7 && PlacedAt(p, round)
    requires Stores(t[n], p, b) && MixDone(t[n], b) && ThetaOf(b, v)
    ensures Stores(t[n + k], p, Columns(b, v, k)) && MixDone(t[n + k], b)
  {
    if k == 0 {
      ColumnsEnd(b, v);
    } else {
      var j := n + (k - 1);
      ThetaPhase(t, p, round, n, k - 1, b, v);
      ThetaRun(t, p, round, k - 1, j);
      ThetaStep(t[j], p, b, v, k - 1);
      assert t[n + k] == t[j + 1];
    }
  }

  lemma {:induction false} RhoPhase(t: seq<Memory>, p: seq<nat>, round: nat, n: nat, k: nat, b: State, u: State,
                                    v: State)
    requires IsRun(t) && k <= 5 && round < 24 && n == 27 * round + 12 && PlacedAt(p, round)
    requires Stores(t[n], p, u) && MixDone(t[n], b) && RhoOf(u, v)
    ensures Stores(t[n + k], p, Columns(u, v, k)) && MixDone(t[n + k], b)
  {
    if k == 0 {
      ColumnsEnd(u, v);
    } else {
      var j := n + (k - 1);
      RhoPhase(t, p, round, n, k - 1, b, u, v);
      RhoRun(t, p, round, k - 1, j);
      RhoStep(t[j], p, b, u, v, k - 1);
      assert t[n + k] == t[j + 1];
    }
  }

  lemma {:induction false} ChiPhase(t: seq<Memory>, p: seq<nat>, round: nat, n: nat, k: nat, u: State, v: State)
    requires IsRun(t) && k <= 5 && round < 24 && n == 27 * round + 17 && PlacedAt(p, round + 1)
    requires Stores(t[n], p, u) && ChiOf(u, v)
    ensures Stores(t[n + 2 * k], p, Rows(u, v, k)) && ChiKeeps(t[n], t[n + 2 * k], u, k)
  {
    if k == 0 {
      RowsEnd(u, v);
      assert forall j: nat :: 26 <= j < STATE_WORDS ==> ChiWord(t[n], t[n], u, 0, j);
    } else {
      var j := n + 2 * (k - 1);
      ChiPhase(t, p, round, n, k - 1, u, v);
      ChiRun1(t, p, round, k - 1, j);
      ChiRun2(t, p, round, k - 1, j + 1);
      ChiStep(t[n], t[j], p, u, v, k - 1, t[j + 2]);
      assert t[n + 2 * k] == t[j + 2];
    }
  }

  /** A round of calls: iota with the constant due, theta, rho, pi by renaming, and chi.  Afterwards
      the scratch words hold what theta added and lane 21 before chi. */
  lemma RoundOfCalls(t: seq<Memory>, p: seq<nat>, q: seq<nat>, round: nat, n: nat, a: State, b: State,
                     th: State, rh: State, u: State, v: State)
    requires IsRun(t) && round < 24 && n == 27 * round && PlacedAt(p, round) && PlacedAt(q, round + 1)
    requires Stores(t[n], p, a) && b == AddFirst(a, DelayedConstant(round))
    requires ThetaOf(b, th) && RhoOf(th, rh) && PiOf(rh, u) && ChiOf(u, v)
    ensures Stores(t[n + 27], q, v) && t[n + 27][26] == u[21]
    ensures MixWord(t[n + 27], b, 0) && MixWord(t[n + 27], b, 3) && MixWord(t[n + 27], b, 4) && MixWord(t[n + 27], b, 5)
  {
    IotaPhase(t, p, round, n, 5, a, DelayedConstant(round));
    MixPhase(t, p, round, n + 5, b);
    ThetaPhase(t, p, round, n + 7, 5, b, th);
    ColumnsEnd(b, th);
    RhoPhase(t, p, round, n + 12, 5, b, th, rh);
    ColumnsEnd(th, rh);
    PlacedNext(p, q, round);
    StoresNext(t[n + 17], p, q, rh, u);
    ChiPhase(t, q, round, n + 17, 5, u, v);
    RowsEnd(u, v);
    ScratchSurvives(t[n + 17], t[n + 27], b, u);
  }

  lemma ScratchSurvives(m: Memory, n: Memory, b: State, u: State)
    requires MixDone(m, b) && ChiKeeps(m, n, u, 5)
    ensures n[26] == u[21] && MixWord(n, b, 0) && MixWord(n, b, 3) && MixWord(n, b, 4) && MixWord(n, b, 5)
  {
    assert ChiWord(m, n, u, 5, 26) && ChiWord(m, n, u, 5, 27) && ChiWord(m, n, u, 5, 28);
    assert ChiWord(m, n, u, 5, 29) && ChiWord(m, n, u, 5, 30);
    assert MixWord(m, b, 0) && MixWord(m, b, 3) && MixWord(m, b, 4) && MixWord(m, b, 5);
  }

  lemma PlacedNext(p: seq<nat>, q: seq<nat>, round: nat)
    requires PlacedAt(p, round) && PlacedAt(q, round + 1)
    ensures forall i: nat :: i < 25 ==> q[i] == p[PiSource(i)]
  {
    PlacedSlots(p, round);
    PlacedSlots(q, round + 1);
    SlotsFollowPi(round);
  }

  // ---------------------------------------------------------------------------------------
  // The whole run

  function View(m: Memory, p: seq<nat>): State
    requires Placement(p)
  {
    seq(25, i requires 0 <= i < 25 => m[p[i]])
  }

  lemma ViewStores(m: Memory, p: seq<nat>, v: State)
    requires Placement(p)
    ensures Stores(m, p, v) <==> View(m, p) == v
  {
    if Stores(m, p, v) {
      forall i: nat | i < 25
        ensures View(m, p)[i] == v[i]
      {
        assert LaneAt(m, p, v, i);
      }
    }
  }

  /** The state before chi of a round that starts from b. */
  function BeforeChi(b: State): State { Pi(Rho(Theta(b))) }

  lemma RoundTrace(t: seq<Memory>, p: seq<nat>, q: seq<nat>, round: nat, n: nat, b: State, u: State, v: State)
    requires IsRun(t) && round < 24 && n == 27 * round && PlacedAt(p, round) && PlacedAt(q, round + 1)
    requires b == AddFirst(View(t[n], p), DelayedConstant(round)) && u == BeforeChi(b) && v == Chi(u)
    ensures Stores(t[n + 27], q, v) && t[n + 27][26] == u[21]
    ensures MixWord(t[n + 27], b, 0) && MixWord(t[n + 27], b, 3) && MixWord(t[n + 27], b, 4) && MixWord(t[n + 27], b, 5)
  {
    ViewStores(t[n], p, View(t[n], p));
    StepsAreSteps(b);
    StepsAreSteps(Theta(b));
    StepsAreSteps(Rho(Theta(b)));
    StepsAreSteps(u);
    RoundOfCalls(t, p, q, round, n, View(t[n], p), b, Theta(b), Rho(Theta(b)), u, v);
  }

  /** The memory holds s but for the constant that the next call will add. */
  ghost predicate Pending(m: Memory, p: seq<nat>, round: nat, s: State)
    requires Placement(p)
  {
    forall v: State :: Stores(m, p, v) ==> AddFirst(v, DelayedConstant(round)) == s
  }

  lemma CatchUpStep(t: seq<Memory>, p: seq<nat>, q: seq<nat>, round: nat, n: nat, b: State, v: State, r: State)
    requires IsRun(t) && round < 24 && n == 27 * round && PlacedAt(p, round) && PlacedAt(q, round + 1)
    requires Pending(t[n], p, round, b) && v == Chi(BeforeChi(b)) && r == Round(b, round)
    ensures Pending(t[n + 27], q, round + 1, r)
  {
    ViewStores(t[n], p, View(t[n], p));
    RoundTrace(t, p, q, round, n, b, BeforeChi(b), v);
    var m := t[n + 27];
    forall o: State | Stores(m, q, o)
      ensures AddFirst(o, DelayedConstant(round + 1)) == r
    {
      ViewStores(m, q, v);
      ViewStores(m, q, o);
    }
  }

  ghost predicate RoundAt(f: (State, nat) -> State, b: State, round: nat) { f(b, round) == Round(b, round) }

  ghost predicate IsRoundFunction(f: (State, nat) -> State) {
    forall b: State, round: nat :: RoundAt(f, b, round)
  }

  lemma NextPending(t: seq<Memory>, p: seq<nat>, q: seq<nat>, round: nat, n: nat, f: (State, nat) -> State, b: State)
    requires IsRun(t) && round < 24 && n == 27 * round && PlacedAt(p, round) && PlacedAt(q, round + 1)
    requires IsRoundFunction(f) && Pending(t[n], p, round, b)
    ensures Pending(t[n + 27], q, round + 1, f(b, round))
  {
    CatchUpStep(t, p, q, round, n, b, Chi(BeforeChi(b)), Round(b, round));
    assert RoundAt(f, b, round);
  }

  /** Before each round's calls the memory is one constant short of the standard's rounds. */
  lemma {:induction false} ConstantsCatchUp(t: seq<Memory>, p: seq<nat>, round: nat, n: nat, s: State,
                                            f: (State, nat) -> State)
    requires IsRun(t) && round <= 24 && n == 27 * round && PlacedAt(p, round) && s == t[0][..25]
    requires IsRoundFunction(f)
    ensures Pending(t[n], p, round, Iterate(f, s, round))
    decreases round
  {
    if round == 0 {
      NothingPending(t[0], p, s);
    } else {
      var o := PlacementOf(round - 1);
      var j := n - 27;
      ConstantsCatchUp(t, o, round - 1, j, s, f);
      NextPending(t, o, p, round - 1, j, f, Iterate(f, s, round - 1));
    }
  }

  lemma NothingPending(m: Memory, p: seq<nat>, s: State)
    requires PlacedAt(p, 0) && s == m[..25]
    ensures Pending(m, p, 0, s)
  {
    PlacedSlots(p, 0);
    forall v: State | Stores(m, p, v)
      ensures AddFirst(v, DelayedConstant(0)) == s
    {
      StoresInOrder(m, p, v);
      XorZero(v[0]);
    }
  }

  lemma StoresInOrder(m: Memory, p: seq<nat>, f: State)
    requires Placement(p) && p == Slots(0) && Stores(m, p, f)
    ensures m[..25] == f
  {
    forall i: nat | i < 25
      ensures m[i] == f[i]
    {
      assert LaneAt(m, p, f, i);
    }
  }

  /** The last call adds the last constant and leaves one parity. */
  lemma LastCall(t: seq<Memory>, p: seq<nat>, a: State, c: Lane)
    requires IsRun(t) && PlacedAt(p, 24) && Stores(t[648], p, a) && c == DelayedConstant(24)
    ensures Stores(t[CALLS], p, AddFirst(a, c)) && ParityAt(t[CALLS], AddFirst(a, c), 0)
    ensures forall k :: 26 <= k < STATE_WORDS ==> t[CALLS][k] == t[648][k]
  {
    var m := t[648];
    IotaRun(t, p, 24, 0, 648);
    IotaStep(m, p, a, c, 0);
    ScatterAt(m, ColumnIndices(p, 0, 25), IotaColumnXor(c, Gather(m, ColumnIndices(p, 0, 25))));
  }

  /** The 31 words a permutation leaves: the permuted state, and what the last round left behind in
      the scratch words. */
  ghost predicate IsFinal(m: Memory, s: State) {
    Leaves(m, Permutation(s), Rounds(s, ROUNDS - 1), BeforeChi(Rounds(s, ROUNDS - 1)))
  }

  ghost predicate LeavesWord(m: Memory, f: State, b: State, u: State, i: nat)
    requires i < STATE_WORDS
  {
    if i < 25 then m[i] == f[i]
    else if i == 25 then m[25] == Parity(f, 0)
    else if i == 26 then m[26] == u[21]
    else if i == 27 then m[27] == Mix(b, 3)
    else if i == 28 then m[28] == Mix(b, 4)
    else if i == 29 then m[29] == Mix(b, 0)
    else m[30] == RotL(Parity(b, 0), 1)
  }

  /** f is the final state, b the state before the last round, u the state before the last chi. */
  ghost predicate Leaves(m: Memory, f: State, b: State, u: State) {
    forall i: nat :: i < STATE_WORDS ==> LeavesWord(m, f, b, u, i)
  }

  lemma FinalScratch(t: seq<Memory>, o: seq<nat>, p: seq<nat>, f: State, b: State, u: State)
    requires IsRun(t) && PlacedAt(o, 23) && PlacedAt(p, 24)
    requires Pending(t[621], o, 23, b) && u == BeforeChi(b) && Pending(t[648], p, 24, f)
    ensures Stores(t[CALLS], p, f) && ParityAt(t[CALLS], f, 0) && t[CALLS][26] == u[21]
    ensures MixWord(t[CALLS], b, 0) && MixWord(t[CALLS], b, 3) && MixWord(t[CALLS], b, 4) && MixWord(t[CALLS], b, 5)
  {
    LastRound(t, o, p, b, u);
    var v := Due(t[648], p, 24, f);
    LastCall(t, p, v, DelayedConstant(24));
    MixKept4(t[648], t[CALLS], b);
  }

  lemma Due(m: Memory, p: seq<nat>, round: nat, s: State) returns (v: State)
    requires Placement(p) && Pending(m, p, round, s)
    ensures Stores(m, p, v) && AddFirst(v, DelayedConstant(round)) == s
  {
    v := View(m, p);
    ViewStores(m, p, v);
  }

  lemma LastRound(t: seq<Memory>, o: seq<nat>, p: seq<nat>, b: State, u: State)
    requires IsRun(t) && PlacedAt(o, 23) && PlacedAt(p, 24) && Pending(t[621], o, 23, b) && u == BeforeChi(b)
    ensures t[648][26] == u[21]
    ensures MixWord(t[648], b, 0) && MixWord(t[648], b, 3) && MixWord(t[648], b, 4) && MixWord(t[648], b, 5)
  {
    ViewStores(t[621], o, View(t[621], o));
    RoundTrace(t, o, p, 23, 621, b, u, Chi(u));
  }

  lemma MixKept4(m: Memory, n: Memory, b: State)
    requires MixWord(m, b, 0) && MixWord(m, b, 3) && MixWord(m, b, 4) && MixWord(m, b, 5)
    requires forall k :: 26 <= k < STATE_WORDS ==> n[k] == m[k]
    ensures MixWord(n, b, 0) && MixWord(n, b, 3) && MixWord(n, b, 4) && MixWord(n, b, 5)
  {
  }

  lemma FinalLeaves(m: Memory, p: seq<nat>, f: State, b: State, u: State)
    requires Placement(p) && p == Slots(0) && Stores(m, p, f) && ParityAt(m, f, 0) && m[26] == u[21]
    requires MixWord(m, b, 0) && MixWord(m, b, 3) && MixWord(m, b, 4) && MixWord(m, b, 5)
    ensures Leaves(m, f, b, u)
  {
    forall i: nat | i < STATE_WORDS
      ensures LeavesWord(m, f, b, u, i)
    {
      if i < 25 { assert LaneAt(m, p, f, i); }
    }
  }

  /** The first words hold the permuted state, in order. */
  lemma FinalState(m: Memory, s: State)
    requires IsFinal(m, s)
    ensures m[..25] == Permutation(s)
  {
    LeavesState(m, Permutation(s), Rounds(s, ROUNDS - 1), BeforeChi(Rounds(s, ROUNDS - 1)));
  }

  lemma LeavesState(m: Memory, f: State, b: State, u: State)
    requires Leaves(m, f, b, u)
    ensures m[..25] == f
  {
    forall i: nat | i < 25
      ensures m[i] == f[i]
    {
      assert LeavesWord(m, f, b, u, i);
    }
  }

  /** The whole run, for every initial memory: the first 25 words end as Keccak-f[1600] of what they
      were, in order. */
  lemma RunIsPermutation(t: seq<Memory>, s: State)
    requires IsRun(t) && s == t[0][..25]
    ensures IsFinal(t[CALLS], s)
  {
    RoundIsRoundFunction();
    RunFinishes(t, s, Rounds(s, ROUNDS - 1), Permutation(s), Round);
  }

  lemma RoundIsRoundFunction()
    ensures IsRoundFunction(Round)
  {
  }

  lemma RunFinishes(t: seq<Memory>, s: State, b: State, r: State, f: (State, nat) -> State)
    requires IsRun(t) && s == t[0][..25] && IsRoundFunction(f) && b == Iterate(f, s, 23) && r == Iterate(f, s, 24)
    ensures Leaves(t[CALLS], r, b, BeforeChi(b))
  {
    var o := PlacementOf(23);
    var p := PlacementOf(24);
    ConstantsCatchUp(t, o, 23, 621, s, f);
    ConstantsCatchUp(t, p, 24, 648, s, f);
    FinalScratch(t, o, p, r, b, BeforeChi(b));
    PlacedSlots(p, 24);
    LastRow();
    FinalLeaves(t[CALLS], p, r, b, BeforeChi(b));
  }
}
