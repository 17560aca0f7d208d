/** The whole generator of the full machine's arithmetic.  Each step advances the invariant of the
    run; at its end the row satisfies the circuit for every family, and holds the results the ISA
    prescribes. */
module FullRun {
  import opened Words
  import opened MExtension
  import opened Witness
  import opened FullMachine
  import opened FullMulDiv
  import opened FullWitness
  import opened FullGenerator

  /** A step that leaves the shared outputs alone. */
  lemma AdvanceQuietly(t: State, u: State, step: Step)
    requires Done(t, step.Order()) && Follows(t, u, step) && step.Order() != Stage(t.f) && Checked(u.w).Valid()
    requires Prepared(u.w, u.m, u.f, u.op) ==> Computed(step, u)
    ensures Done(u, step.Order() + 1)
  {
    PreparedKept(t, u, step);
    OutputsKept(t, u, step);
    Advance(t, u, step);
  }

  /** A step whose only effect is on the shared outputs, through the flag of its families. */
  lemma AdvanceOutputs(t: State, u: State, step: Step)
    requires step == AddFirst || step == FillProduct || step == FillQuotient || step == Compare
    requires Done(t, step.Order()) && Follows(t, u, step)
    requires step.Order() != Stage(t.f) ==> u == t
    requires step.Order() == Stage(t.f) && Prepared(u.w, u.m, u.f, u.op) ==> Checked(u.w).Valid()
    requires step.Order() == Stage(t.f) && Prepared(u.w, u.m, u.f, u.op) ==> OutputOf(u.f, u.w, u.m, u.op)
    ensures Done(u, step.Order() + 1)
  {
    PreparedKept(t, u, step);
    if step.Order() != Stage(t.f) { OutputsKept(t, u, step); }
    Advance(t, u, step);
  }

  // The places of each step.

  lemma FactorSignPlaces(before: Row, after: Row, f: Family)
    requires Only(before, after, {122, 123, 124})
    ensures Writes(before, after, f, FactorSigns) && Checked(after) == Checked(before)
  {
  }

  lemma DivisionSignPlaces(before: Row, after: Row, f: Family)
    requires Only(before, after, {127, 128})
    ensures Writes(before, after, f, DivisionSigns) && Checked(after) == Checked(before)
  {
  }

  lemma CombinedPlaces(before: Row, after: Row, f: Family)
    requires Only(before, after, {129, 132, 142})
    ensures Writes(before, after, f, CombineSigns) && Checked(after) == Checked(before)
  {
  }

  lemma BytePlaces(before: Row, after: Row, f: Family)
    requires Only(before, after, {9, 10, 11, 12, 13, 14, 15, 16})
    ensures Writes(before, after, f, SplitBytes) && Checked(after) == Checked(before)
  {
  }

  lemma LowCarryPlaces(before: Row, after: Row, f: Family)
    requires Only(before, after, {17, 65, 18, 66, 67})
    ensures Writes(before, after, f, LowCarries) && Checked(after) == Checked(before)
  {
  }

  lemma PickPlaces(before: Row, after: Row, f: Family)
    requires Only(before, after, {125, 126, 130, 131, 133, 134, 135})
    ensures Writes(before, after, f, PickOutput) && Checked(after) == Checked(before)
  {
  }

  lemma BoundPlaces(before: Row, after: Row, f: Family)
    requires Only(before, after, {137, 138, 139, 140, 141, 143, 144})
    ensures Writes(before, after, f, TestBound) && Checked(after) == Checked(before)
  {
  }

  lemma MiddlePlaces(before: Row, after: Row, f: Family)
    requires Only(before, after, {63})
    ensures Writes(before, after, f, MiddleCarry) && Checked(after) == Checked(before)
  {
  }

  /** A masked write through the flag of its family. */
  lemma StageWrites(t: State, u: State, places: set<int>, step: Step)
    requires u == t.(w := u.w) && Only(t.w, u.w, places) && (step.Order() != Stage(t.f) ==> u.w == t.w)
    requires places <= {23, 24, 25, 26, 62, 58} && (58 in places ==> !t.f.DIVIDE? || step.Order() != Stage(t.f))
    ensures Follows(t, u, step)
  {
    if step.Order() == Stage(t.f) { OutputPlaces(t.f, step); }
  }

  lemma SumIsOutput(t: State, u: State)
    requires Blank(t.w) && u.w[62] == t.w[62] && Second(u.w) == Second(t.w) && InputsInRange(u.w, u.m)
    requires First(u.w).Valid()
    requires !u.f.DIVIDE? && !u.f.BRANCH? && !u.f.MULTIPLY? && Balanced(ActiveAddition(u.f, u.w, u.m), u.w[58])
    ensures OutputOf(u.f, u.w, u.m, u.op)
  {
  }

  /** Before its stage a family has not touched the shared places. */
  ghost predicate Untouched(t: State, n: nat) {
    Checked(t.w).Valid() && (n <= Stage(t.f) ==> Blank(t.w))
  }

  lemma DoneUntouched(t: State, n: nat)
    requires Done(t, n)
    ensures Untouched(t, n)
  {
  }

  lemma OutputPlaces(f: Family, step: Step)
    requires step.Order() == Stage(f)
    ensures WrittenAt(23, f) == WrittenAt(24, f) == WrittenAt(25, f) == step.Order()
    ensures WrittenAt(26, f) == WrittenAt(62, f) == step.Order()
    ensures !f.DIVIDE? ==> WrittenAt(58, f) == step.Order()
  {
  }

  lemma BlankIsOutput(t: State)
    requires Blank(t.w) && InputsInRange(t.w, t.m) && Stage(t.f) == 0 && !AddsFirst(t.f)
    ensures OutputOf(t.f, t.w, t.m, t.op)
  {
  }

  method EvalFirstSums(row: WitnessRow, ghost f: Family, ghost op: Op)
    requires Progress(row, f, op, 0)
    modifies row.w
    ensures Progress(row, f, op, 1)
  {
    ghost var t := Snapshot(row, f, op);
    InputsReady(t, 0);
    WriteFirstSums(row, f);
    ghost var u := Snapshot(row, f, op);
    DoneUntouched(t, 0);
    FirstOutputs(t, u);
    AdvanceOutputs(t, u, AddFirst);
  }

  lemma InputsReady(t: State, n: nat)
    requires Done(t, n)
    ensures Flagged(t.w, t.f) && InputsInRange(t.w, t.m) && IsBit(t.w[55]) && IsBit(t.w[56]) && IsBit(t.w[57])
  {
  }

  lemma FirstOutputs(t: State, u: State)
    requires Untouched(t, 0) && u == t.(w := u.w) && Only(t.w, u.w, {23, 24, 58}) && (!AddsFirst(t.f) ==> u.w == t.w)
    requires AddsFirst(t.f) ==> SumDone(u.f, u.w, u.m)
    ensures Follows(t, u, AddFirst) && (Stage(t.f) != 0 ==> u == t)
    ensures Stage(t.f) == 0 && InputsInRange(u.w, u.m) ==> Checked(u.w).Valid() && OutputOf(u.f, u.w, u.m, u.op)
  {
    StageWrites(t, u, {23, 24, 58}, AddFirst);
    if AddsFirst(t.f) {
      SumIsOutput(t, u);
    } else if Stage(t.f) == 0 && InputsInRange(u.w, u.m) {
      BlankIsOutput(u);
    }
  }

  method EvalFactorSigns(row: WitnessRow, ghost f: Family, ghost op: Op)
    requires Progress(row, f, op, 1)
    modifies row.w
    ensures Progress(row, f, op, 2)
  {
    ghost var t := Snapshot(row, f, op);
    WriteFactorSigns(row);
    ghost var u := Snapshot(row, f, op);
    FactorSignPlaces(t.w, u.w, f);
    AdvanceQuietly(t, u, FactorSigns);
  }

  method EvalProduct(row: WitnessRow, ghost f: Family, ghost op: Op)
    requires Progress(row, f, op, 2)
    modifies row.w
    ensures Progress(row, f, op, 3)
  {
    ghost var t := Snapshot(row, f, op);
    ProductReady(t);
    WriteProduct(row, f);
    ghost var u := Snapshot(row, f, op);
    DoneUntouched(t, 2);
    ProductOutputs(t, u);
    AdvanceOutputs(t, u, FillProduct);
  }

  lemma ProductReady(t: State)
    requires Done(t, 2)
    ensures Flagged(t.w, t.f) && InputsInRange(t.w, t.m)
    ensures IsBit(t.w[123]) && IsBit(t.w[124]) && (t.w[123] == 1 ==> t.m[9] >= 0x8000)
    ensures (t.w[124] == 1 ==> t.w[93] >= 0x8000)
  {
    assert Computed(FactorSigns, t);
  }

  lemma ProductOutputs(t: State, u: State)
    requires Untouched(t, 2) && u == t.(w := u.w)
    requires Only(t.w, u.w, {23, 24, 25, 26}) && (!t.f.MULTIPLY? ==> u.w == t.w)
    requires t.f.MULTIPLY? ==> ProductDone(u.w, u.m)
    ensures Follows(t, u, FillProduct) && (Stage(t.f) != 2 ==> u == t)
    ensures Stage(t.f) == 2 && InputsInRange(u.w, u.m) ==> Checked(u.w).Valid() && OutputOf(u.f, u.w, u.m, u.op)
  {
    StageWrites(t, u, {23, 24, 25, 26}, FillProduct);
    if t.f.MULTIPLY? { ProductIsOutput(t, u); }
  }

  lemma ProductIsOutput(t: State, u: State)
    requires Blank(t.w) && u.w[58] == t.w[58] && u.w[62] == t.w[62] && u.f.MULTIPLY?
    requires InputsInRange(u.w, u.m) && First(u.w).Valid() && Second(u.w).Valid() && ProductComputed(u.w, u.m)
    ensures OutputOf(u.f, u.w, u.m, u.op)
  {
  }

  method EvalDivisionSigns(row: WitnessRow, ghost f: Family, ghost op: Op)
    requires Progress(row, f, op, 3)
    modifies row.w, row.s
    ensures Progress(row, f, op, 4)
  {
    ghost var t := Snapshot(row, f, op);
    WriteDivisionSigns(row);
    ghost var u := Snapshot(row, f, op);
    DivisionSignPlaces(t.w, u.w, f);
    AdvanceQuietly(t, u, DivisionSigns);
  }

  method EvalQuotient(row: WitnessRow, ghost f: Family, ghost op: Op)
    requires Progress(row, f, op, 4)
    modifies row.w
    ensures Progress(row, f, op, 5)
  {
    ghost var t := Snapshot(row, f, op);
    DivisionSignsSet(t);
    WriteQuotient(row, f, op);
    ghost var u := Snapshot(row, f, op);
    DoneUntouched(t, 4);
    QuotientOutputs(t, u);
    AdvanceOutputs(t, u, FillQuotient);
  }

  lemma DivisionSignsSet(t: State)
    requires Done(t, 4)
    ensures IsBit(t.w[127]) && IsBit(t.w[128]) && IsBit(t.s[1])
    ensures t.f.DIVIDE? ==> t.op.IsDivision() && t.w[127] == Bit(t.op.SignedLeft())
  {
    assert Computed(DivisionSigns, t);
  }

  lemma QuotientOutputs(t: State, u: State)
    requires Untouched(t, 4) && u == t.(w := u.w)
    requires Only(t.w, u.w, {23, 24, 25, 26}) && (!t.f.DIVIDE? ==> u.w == t.w)
    requires InputsInRange(u.w, u.m) && (t.f.DIVIDE? ==> QuotientComputed(u.w, u.m, u.op))
    ensures Follows(t, u, FillQuotient) && (Stage(t.f) != 4 ==> u == t)
    ensures Stage(t.f) == 4 && InputsInRange(u.w, u.m) ==> Checked(u.w).Valid() && OutputOf(u.f, u.w, u.m, u.op)
  {
    StageWrites(t, u, {23, 24, 25, 26}, FillQuotient);
  }

  method EvalCombinedSigns(row: WitnessRow, ghost f: Family, ghost op: Op)
    requires Progress(row, f, op, 5)
    modifies row.w
    ensures Progress(row, f, op, 6)
  {
    ghost var t := Snapshot(row, f, op);
    SignsReady(t);
    WriteCombinedSigns(row);
    ghost var u := Snapshot(row, f, op);
    CombinedPlaces(t.w, u.w, f);
    AdvanceQuietly(t, u, CombineSigns);
  }

  lemma SignsReady(t: State)
    requires Done(t, 5)
    ensures IsBit(t.w[128]) && IsBit(t.s[1]) && IsBit(t.w[55]) && IsBit(t.w[56])
  {
    assert Computed(DivisionSigns, t);
  }

  method EvalComparison(row: WitnessRow, ghost f: Family, ghost op: Op)
    requires Progress(row, f, op, 6)
    modifies row.w
    ensures Progress(row, f, op, 7)
  {
    ghost var t := Snapshot(row, f, op);
    WriteComparison(row, f);
    ghost var v := Snapshot(row, f, op);
    SamePrepared(t, v);
    WriteTarget(row, f);
    ghost var u := Snapshot(row, f, op);
    DoneUntouched(t, 6);
    ComparisonOutputs(t, v, u);
    AdvanceOutputs(t, u, Compare);
  }

  lemma SamePrepared(t: State, v: State)
    requires Done(t, 6) && Only(t.w, v.w, {23, 24, 58}) && v.m == t.m
    ensures Flagged(v.w, t.f) && InputsInRange(v.w, v.m)
  {
  }

  lemma ComparisonOutputs(t: State, v: State, u: State)
    requires Untouched(t, 6) && v == t.(w := v.w) && u == t.(w := u.w)
    requires Only(t.w, v.w, {23, 24, 58}) && Only(v.w, u.w, {25, 26, 62}) && (!t.f.BRANCH? ==> v.w == t.w && u.w == v.w)
    requires t.f.BRANCH? ==> First(v.w).Valid() && InputsInRange(v.w, v.m)
    requires t.f.BRANCH? ==> Balanced(ActiveAddition(v.f, v.w, v.m), v.w[58])
    requires t.f.BRANCH? ==> Balanced(Addition(Pc(u.w), Imm(u.w), Second(u.w)), u.w[62])
    ensures Follows(t, u, Compare) && (Stage(t.f) != 6 ==> u == t)
    ensures Stage(t.f) == 6 && InputsInRange(u.w, u.m) ==> Checked(u.w).Valid() && OutputOf(u.f, u.w, u.m, u.op)
  {
    TwoWrites(t.w, v.w, u.w, {23, 24, 58}, {25, 26, 62});
    StageWrites(t, u, {23, 24, 58, 25, 26, 62}, Compare);
    if t.f.BRANCH? { ComparisonIsOutput(v, u); }
  }

  lemma TwoWrites(before: Row, middle: Row, after: Row, places: set<int>, more: set<int>)
    requires Only(before, middle, places) && Only(middle, after, more)
    ensures Only(before, after, places + more)
  {
  }

  lemma ComparisonIsOutput(v: State, u: State)
    requires u == v.(w := u.w) && Only(v.w, u.w, {25, 26, 62}) && v.f.BRANCH?
    requires First(v.w).Valid() && InputsInRange(v.w, v.m) && Balanced(ActiveAddition(v.f, v.w, v.m), v.w[58])
    requires Balanced(Addition(Pc(u.w), Imm(u.w), Second(u.w)), u.w[62])
    ensures InputsInRange(u.w, u.m) ==> OutputOf(u.f, u.w, u.m, u.op)
  {
    assert ActiveAddition(u.f, u.w, u.m) == ActiveAddition(v.f, v.w, v.m);
  }

  method EvalLastSums(row: WitnessRow, ghost f: Family, ghost op: Op)
    requires Progress(row, f, op, 7)
    modifies row.w
    ensures Progress(row, f, op, 8)
  {
    ghost var t := Snapshot(row, f, op);
    InputsReady(t, 7);
    WriteJumpsAndAddresses(row, f);
    ghost var u := Snapshot(row, f, op);
    LastAdvances(t, u);
  }

  lemma LastFollows(t: State, u: State)
    requires u == t.(w := u.w) && Only(t.w, u.w, if AddsLast(t.f) then {154, 155, 23, 24, 58} else {154, 155})
    ensures Follows(t, u, AddLast) && Checked(u.w) == Checked(t.w) && Second(u.w) == Second(t.w) && u.w[62] == t.w[62]
  {
    if AddsLast(t.f) { OutputPlaces(t.f, AddLast); }
  }

  lemma LastAdvances(t: State, u: State)
    requires Done(t, 7) && u == t.(w := u.w)
    requires Only(t.w, u.w, if AddsLast(t.f) then {154, 155, 23, 24, 58} else {154, 155})
    requires BaseComputed(u.w, u.m) && (AddsLast(t.f) ==> SumDone(u.f, u.w, u.m))
    ensures Done(u, 8)
  {
    LastFollows(t, u);
    PreparedKept(t, u, AddLast);
    DoneUntouched(t, 7);
    if AddsLast(t.f) {
      SumIsOutput(t, u);
    } else {
      OutputsKept(t, u, AddLast);
    }
    Advance(t, u, AddLast);
  }

  // ---------------------------------------------------------------------------------------
  // From the zero tests on, the shared outputs are settled but for the remainder check

  lemma OutputsSettled(t: State, n: nat)
    requires Done(t, n) && n >= 8
    ensures Flagged(t.w, t.f) && InputsInRange(t.w, t.m) && Selectable(t.w, t.f) && Checked(t.w).Valid()
    ensures t.w[45] == 1 ==> Balanced(Addition(Pc(t.w), Imm(t.w), Second(t.w)), t.w[62])
  {
  }

  method EvalZeroTests(row: WitnessRow, ghost f: Family, ghost op: Op)
    requires Progress(row, f, op, 8)
    modifies row.w
    ensures Progress(row, f, op, 9)
  {
    ghost var t := Snapshot(row, f, op);
    OutputsSettled(t, 8);
    WriteZeroTests(row, f);
    ghost var u := Snapshot(row, f, op);
    ZeroPlaces(t.w, u.w, f);
    AdvanceQuietly(t, u, TestZeros);
  }

  lemma ZeroPlaces(before: Row, after: Row, f: Family)
    requires Only(before, after, {64, 59, 172, 173, 174, 60, 175, 176, 177, 61, 178, 179, 180})
    ensures Writes(before, after, f, TestZeros) && Checked(after) == Checked(before)
  {
  }

  method EvalOperands(row: WitnessRow, ghost f: Family, ghost op: Op)
    requires Progress(row, f, op, 9)
    modifies row.w, row.s
    ensures Progress(row, f, op, 10)
  {
    ghost var t := Snapshot(row, f, op);
    OutputsSettled(t, 9);
    WriteOperands(row, f);
    ghost var u := Snapshot(row, f, op);
    OperandPlaces(t, u);
    AdvanceQuietly(t, u, PickOperands);
  }

  lemma OperandPlaces(t: State, u: State)
    requires u == t.(w := u.w, s := u.s) && Only(t.s, u.s, {2, 3, 4, 5})
    requires Only(t.w, u.w, {181, 183, 184, 186, 187, 188, 189})
    ensures Follows(t, u, PickOperands) && Checked(u.w) == Checked(t.w)
  {
  }

  method EvalBytes(row: WitnessRow, ghost f: Family, ghost op: Op)
    requires Progress(row, f, op, 10)
    modifies row.w
    ensures Progress(row, f, op, 11)
  {
    ghost var t := Snapshot(row, f, op);
    LimbsReady(t);
    WriteBytes(row);
    ghost var u := Snapshot(row, f, op);
    BytePlaces(t.w, u.w, f);
    AdvanceQuietly(t, u, SplitBytes);
  }

  lemma LimbsReady(t: State)
    requires Done(t, 10)
    ensures t.s[2] < B16 && t.s[3] < B16 && t.s[4] < B16 && t.s[5] < B16
  {
    assert Computed(PickOperands, t);
  }

  method EvalLowCarries(row: WitnessRow, ghost f: Family, ghost op: Op)
    requires Progress(row, f, op, 11)
    modifies row.w
    ensures Progress(row, f, op, 12)
  {
    ghost var t := Snapshot(row, f, op);
    RelationHolds(t);
    var w, s := row.w, row.s;
    var k0, k1 := ComputeLowCarries(Op1(w[..]), FinalOp2(w[..]), FinalAddend(w[..], s[..]), Product(w[..]));
    StoreLowCarries(row, k0, k1);
    ghost var u := Snapshot(row, f, op);
    LowCarryPlaces(t.w, u.w, f);
    LowCarriesInPlace(t, u);
    AdvanceQuietly(t, u, LowCarries);
  }

  lemma LowCarriesInPlace(t: State, u: State)
    requires Follows(t, u, LowCarries) && LowCarriesAt(u.w, FinalCarries(t.w, t.s).c0, FinalCarries(t.w, t.s).c1)
    ensures LowCarriesStored(u.w, u.s)
  {
    FinalOperandsKept(t, u, LowCarries);
  }

  method EvalOutput(row: WitnessRow, ghost f: Family, ghost op: Op)
    requires Progress(row, f, op, 12)
    modifies row.w
    ensures Progress(row, f, op, 13)
  {
    ghost var t := Snapshot(row, f, op);
    PickReady(t);
    WritePicked(row);
    ghost var u := Snapshot(row, f, op);
    PickPlaces(t.w, u.w, f);
    AdvanceQuietly(t, u, PickOutput);
  }

  lemma PickReady(t: State)
    requires Done(t, 12)
    ensures IsBit(t.w[129]) && IsBit(t.w[59]) && IsBit(t.s[1]) && IsBit(t.w[60]) && IsBit(t.w[47]) && IsBit(t.w[61])
    ensures IsBit(t.w[128])
    ensures Checked(t.w).Valid()
  {
    assert Computed(DivisionSigns, t);
    assert Computed(CombineSigns, t);
    assert Computed(TestZeros, t);
  }

  method EvalRemainderCheck(row: WitnessRow, ghost f: Family, ghost op: Op)
    requires Progress(row, f, op, 13)
    modifies row.w
    ensures Progress(row, f, op, 14)
  {
    ghost var t := Snapshot(row, f, op);
    OutputsSettled(t, 13);
    assert Computed(PickOutput, t);
    WriteRemainderCheck(row, f);
    ghost var u := Snapshot(row, f, op);
    RemainderPlaces(t, u);
    AdvanceQuietly(t, u, CompareRemainder);
  }

  lemma RemainderPlaces(t: State, u: State)
    requires u == t.(w := u.w) && Only(t.w, u.w, if t.f.DIVIDE? then {27, 28, 58, 136} else {136})
    ensures Follows(t, u, CompareRemainder)
  {
  }

  method EvalBoundTest(row: WitnessRow, ghost f: Family, ghost op: Op)
    requires Progress(row, f, op, 14)
    modifies row.w
    ensures Progress(row, f, op, 15)
  {
    ghost var t := Snapshot(row, f, op);
    BoundReady(t);
    WriteBound(row);
    ghost var u := Snapshot(row, f, op);
    BoundPlaces(t.w, u.w, f);
    AdvanceQuietly(t, u, TestBound);
  }

  lemma BoundReady(t: State)
    requires Done(t, 14)
    ensures IsBit(t.w[58]) && IsBit(t.w[134]) && Checked(t.w).Valid()
    ensures t.w[135] == Bit(t.f.DIVIDE? && t.w[134] == 1) && t.w[136] == Bit(t.f.DIVIDE? && t.w[134] == 0)
    ensures InputsInRange(t.w, t.m) && Balanced(ActiveAddition(t.f, t.w, t.m), t.w[58])
  {
    assert Computed(PickOutput, t);
    assert Computed(CompareRemainder, t);
  }

  method EvalMiddleCarry(row: WitnessRow, ghost f: Family, ghost op: Op)
    requires Progress(row, f, op, 15)
    modifies row.w
    ensures Progress(row, f, op, 16)
  {
    ghost var t := Snapshot(row, f, op);
    MiddleReady(t);
    WriteMiddleCarry(row, f);
    ghost var u := Snapshot(row, f, op);
    MiddlePlaces(t.w, u.w, f);
    AdvanceQuietly(t, u, MiddleCarry);
  }

  lemma MiddleReady(t: State)
    requires Done(t, 15)
    ensures Flagged(t.w, t.f) && InputsInRange(t.w, t.m) && OutputsInRange(t.w) && IsBit(t.w[134])
    ensures t.w[135] == Bit(t.f.DIVIDE? && t.w[134] == 1) && t.w[136] == Bit(t.f.DIVIDE? && t.w[134] == 0)
    ensures Balanced(ActiveAddition(t.f, t.w, t.m), t.w[58])
  {
    assert Computed(AddLast, t);
    assert Computed(PickOutput, t);
    assert Computed(CompareRemainder, t);
  }

  method EvalHighCarries(row: WitnessRow, ghost f: Family, ghost op: Op)
    requires Progress(row, f, op, 16)
    modifies row.w
    ensures Progress(row, f, op, 17)
  {
    ghost var t := Snapshot(row, f, op);
    HighReady(t);
    WriteHighCarries(row);
    ghost var u := Snapshot(row, f, op);
    HighPlaces(t.w, u.w, f);
    AdvanceQuietly(t, u, HighCarries);
  }

  lemma HighPlaces(before: Row, after: Row, f: Family)
    requires Only(before, after, {182, 185, 19, 68, 69, 70, 20, 71, 72, 73})
    ensures Writes(before, after, f, HighCarries) && Checked(after) == Checked(before)
  {
  }

  lemma HighReady(t: State)
    requires Done(t, 16)
    ensures IsBit(t.w[51]) && IsBit(t.w[47]) && t.w[51] + t.w[47] <= 1 && SignsPicked(t.w, t.s)
    ensures LowCarriesStored(t.w, t.s)
    ensures RelatesFinally(t.w, t.s)
    ensures Checked(t.w).Valid()
  {
    assert Computed(PickOutput, t);
    assert Computed(LowCarries, t);
    StepsBefore(t, 16, 11);
    RelationHolds(t);
  }

  lemma StepsBefore(t: State, n: nat, k: nat)
    requires Done(t, n) && 7 < k <= n
    ensures Done(t, k)
  {
  }

  // ---------------------------------------------------------------------------------------
  // The whole run

  method EvalOutputs(row: WitnessRow, ghost f: Family, ghost op: Op)
    requires Progress(row, f, op, 0)
    modifies row.w, row.s
    ensures Progress(row, f, op, 8)
  {
    EvalFirstSums(row, f, op);
    EvalFactorSigns(row, f, op);
    EvalProduct(row, f, op);
    EvalDivisionSigns(row, f, op);
    EvalQuotient(row, f, op);
    EvalCombinedSigns(row, f, op);
    EvalComparison(row, f, op);
    EvalLastSums(row, f, op);
  }

  method EvalChecks(row: WitnessRow, ghost f: Family, ghost op: Op)
    requires Progress(row, f, op, 8)
    modifies row.w, row.s
    ensures Progress(row, f, op, STEPS)
  {
    EvalZeroTests(row, f, op);
    EvalOperands(row, f, op);
    EvalBytes(row, f, op);
    EvalLowCarries(row, f, op);
    EvalOutput(row, f, op);
    EvalRemainderCheck(row, f, op);
    EvalBoundTest(row, f, op);
    EvalMiddleCarry(row, f, op);
    EvalHighCarries(row, f, op);
  }

  lemma Begin(t: State)
    requires Prepared(t.w, t.m, t.f, t.op) && Blank(t.w) && Checked(t.w).Valid()
    ensures Done(t, 0)
  {
  }

  /** For every family, all operands and all minor flags: the row satisfies the circuit, and the
      sums, differences, targets, addresses, products and quotients in it are those the ISA
      prescribes. */
  method Evaluate(row: WitnessRow, ghost f: Family, ghost op: Op)
    requires Ready(row) && Prepared(row.w[..], row.m[..], f, op) && Blank(row.w[..]) && Checked(row.w[..]).Valid()
    modifies row.w, row.s
    ensures Ready(row) && Prepared(row.w[..], row.m[..], f, op) && OutputsInRange(row.w[..])
    ensures Satisfied(row.w[..], row.m[..], row.s[..])
    ensures Summed(f, row.w[..], row.m[..])
    ensures f.MULTIPLY? ==> Reg(row.w[125], row.w[126]) == ResultReg(op, row.w[..], row.m[..])
    ensures f.DIVIDE? ==> Reg(row.w[143], row.w[144]) == ResultReg(op, row.w[..], row.m[..])
  {
    Begin(Snapshot(row, f, op));
    EvalOutputs(row, f, op);
    EvalChecks(row, f, op);
    ghost var t := Snapshot(row, f, op);
    Finished(t);
  }

  /** The limbs of the result. */
  function ResultReg(op: Op, w: Row, m: Memory): Reg
    requires InputsInRange(w, m)
  {
    var r := Result(op, Rs1(m).Value(), Rs2(w).Value());
    Reg(Low(r), High(r))
  }

  lemma Finished(t: State)
    requires Done(t, STEPS)
    ensures Satisfied(t.w, t.m, t.s) && OutputsInRange(t.w) && InputsInRange(t.w, t.m)
    ensures Summed(t.f, t.w, t.m)
    ensures t.f.MULTIPLY? ==> Reg(t.w[125], t.w[126]) == ResultReg(t.op, t.w, t.m)
    ensures t.f.DIVIDE? ==> Reg(t.w[143], t.w[144]) == ResultReg(t.op, t.w, t.m)
  {
    RowComplete(t);
    AdderFacts(t);
    FinishedSums(t);
    if t.f.MULTIPLY? || t.f.DIVIDE? { FinishedOutput(t); }
  }

  lemma FinishedSums(t: State)
    requires Prepared(t.w, t.m, t.f, t.op) && Satisfied(t.w, t.m, t.s) && OutputsInRange(t.w) && IsBit(t.w[134])
    ensures Summed(t.f, t.w, t.m)
  {
    assert HoldsIn(Adder, t.w, t.m, t.s);
    assert HoldsIn(Bases, t.w, t.m, t.s);
    assert HoldsIn(Check, t.w, t.m, t.s);
    SummedSound(t.w, t.m, t.f);
  }

  lemma FinishedOutput(t: State)
    requires Prepared(t.w, t.m, t.f, t.op) && (t.f.MULTIPLY? || t.f.DIVIDE?)
    requires Satisfied(t.w, t.m, t.s) && OutputsInRange(t.w)
    ensures (if t.f.DIVIDE? then Reg(t.w[143], t.w[144]) else Reg(t.w[125], t.w[126])) == ResultReg(t.op, t.w, t.m)
  {
    assert t.f == FamilyOf(t.op);
    OutputSound(t.w, t.m, t.s, t.op);
    LimbsOfResult(if t.f.DIVIDE? then Reg(t.w[143], t.w[144]) else Reg(t.w[125], t.w[126]),
      Result(t.op, Rs1(t.m).Value(), Rs2(t.w).Value()));
  }

  lemma LimbsOfResult(out: Reg, r: u32)
    requires out.Valid() && out.Value() == r
    ensures out == Reg(Low(r), High(r))
  {
  }
}
