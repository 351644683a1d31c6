/** A loop with a phi, from the original program over its pre-header to two registers: the assumptions of
    `Pipeline.OriginalRunAgrees` can be met together. */
module LoopExample {
  import opened Cfg
  import opened Coverage
  import opened CoverageLimit
  import opened Ranges
  import opened Ssa
  import opened LiveRanges
  import opened Execution
  import opened LoopTree
  import opened BlockOrder
  import opened FlowGraph
  import opened Redirection
  import opened LoopRewrite
  import opened Preservation
  import opened SsaRewrite
  import opened ConcreteGraphs
  import opened Pipeline
  import LS = LinearScan
  import RS = RegisterSafety
  import RL = RegisterLimits
  import E = EndToEnd
  import DT = DominatorTree

  // ---- The original program --------------------------------------------------------------------------

  /** Block 1 is the header and block 2 the latch. */
  const LOOP: Graph := [[1], [2], [1, 3], []]

  /** Two values, a phi and a value that goes round; instructions 4 and 5 have no result. */
  const LOOP_BODY: Code :=
    [BasicBlock([], [Inst(0, []), Inst(1, [])]),
     BasicBlock([Phi(2, [PhiInput(0, 0), PhiInput(3, 2)])], [Inst(3, [2, 1])]),
     BasicBlock([], [Inst(4, [3])]), BasicBlock([], [Inst(5, [3])])]

  const ORIGINAL: Program := Program(LOOP, LOOP_BODY, {4, 5}, {2}, {4, 5})

  lemma LoopInsts(b: Block, k: nat, v: Value)
    ensures InstDef(LOOP_BODY, b, k, v) <==>
      (b == 0 && k == v < 2) || (b == 1 && k == 0 && v == 3) ||
      (b == 2 && k == 0 && v == 4) || (b == 3 && k == 0 && v == 5)
    ensures InstUse(LOOP_BODY, b, k, v) <==> (b == 1 && k == 0 && 1 <= v <= 2) || (2 <= b <= 3 && k == 0 && v == 3)
  {}

  lemma LoopPhis(b: Block, s: Block, v: Value)
    ensures PhiDef(LOOP_BODY, b, v) <==> b == 1 && v == 2
    ensures PhiUse(LOOP_BODY, b, s, v) <==> s == 1 && ((b == 0 && v == 0) || (b == 2 && v == 3))
  {
    var ins := [PhiInput(0, 0), PhiInput(3, 2)];
    assert LOOP_BODY[1].phis == [Phi(2, ins)];
    if b == 1 && v == 2 {
      assert LOOP_BODY[1].phis[0].id == 2;
    }
    if s == 1 && b == 0 && v == 0 {
      assert LOOP_BODY[1].phis[0].inputs[0] == PhiInput(0, 0);
    }
    if s == 1 && b == 2 && v == 3 {
      assert LOOP_BODY[1].phis[0].inputs[1] == PhiInput(3, 2);
    }
  }

  lemma LoopUsed(v: Value)
    ensures Used(LOOP, LOOP_BODY, v) <==> v < 4
  {
    hide InstUse, PhiUse;
    LoopInsts(1, 0, v);
    LoopInsts(2, 0, v);
    LoopPhis(0, 1, v);
    if v == 0 {
      assert Edge(LOOP, 0, 1) && PhiUse(LOOP_BODY, 0, 1, v);
    }
    if b: Block, k: nat :| InstUse(LOOP_BODY, b, k, v) {
      LoopInsts(b, k, v);
    }
    if b: Block, s: Block :| Edge(LOOP, b, s) && PhiUse(LOOP_BODY, b, s, v) {
      LoopPhis(b, s, v);
    }
  }

  lemma LoopDominators(b: Block)
    ensures Dominates(LOOP, 0, b) && (b > 0 ==> Dominates(LOOP, 1, b))
  {
    forall p | PathFromTo(LOOP, p, START, b) ensures 0 in p {
      assert p[0] in p;
    }
    if b > 0 {
      FenceDominates(LOOP, {0}, 1, b);
    }
  }

  /** Where a used value is defined. */
  function Home(v: Value): (Block, nat, bool) {
    if v < 2 then (0, v, false) else if v == 2 then (1, 0, true) else (1, 0, false)
  }

  lemma LoopDefined(v: Value)
    requires v < 4
    ensures DefinedAt(LOOP_BODY, v, Home(v).0, Home(v).1, Home(v).2)
    ensures UsesDominated(LOOP, LOOP_BODY, v, Home(v).0, Home(v).1, Home(v).2)
  {
    hide InstDef, InstUse, PhiDef, PhiUse, Dominates, Edge;
    LoopInsts(Home(v).0, Home(v).1, v);
    LoopPhis(Home(v).0, 0, v);
    forall b: Block, k: nat
      ensures InstDef(LOOP_BODY, b, k, v) ==> !Home(v).2 && b == Home(v).0 && k == Home(v).1
      ensures InstUse(LOOP_BODY, b, k, v) ==>
                Dominates(LOOP, Home(v).0, b) && (b == Home(v).0 && !Home(v).2 ==> Home(v).1 < k)
    {
      LoopInsts(b, k, v);
      LoopDominators(b);
    }
    forall b: Block ensures PhiDef(LOOP_BODY, b, v) ==> Home(v).2 && b == Home(v).0 {
      LoopPhis(b, 0, v);
    }
    forall b: Block, s: Block | PhiUse(LOOP_BODY, b, s, v) ensures Dominates(LOOP, Home(v).0, b) {
      LoopPhis(b, s, v);
      LoopDominators(b);
    }
  }

  lemma LoopIds()
    ensures UniqueIds(LOOP_BODY)
  {
    hide InstDef, PhiDef;
    forall b: Block, k: nat, v: Value ensures InstDef(LOOP_BODY, b, k, v) ==>
      (b == 0 && k == v < 2) || (b == 1 && k == 0 && v == 3) ||
      (b == 2 && k == 0 && v == 4) || (b == 3 && k == 0 && v == 5)
    {
      LoopInsts(b, k, v);
    }
    forall b: Block, v: Value ensures PhiDef(LOOP_BODY, b, v) ==> b == 1 && v == 2 {
      LoopPhis(b, 0, v);
    }
    assert forall b :: 0 <= b < 4 ==> |LOOP_BODY[b].phis| <= 1;
  }

  lemma OriginalIsSsa()
    ensures SsaProgram(ORIGINAL, 6)
  {
    LoopIds();
    hide InstDef, InstUse, PhiDef, PhiUse, Used, UniqueIds, DefinedAt, UsesDominated;
    forall v: Value ensures Used(LOOP, LOOP_BODY, v) <==> v < 4 {
      LoopUsed(v);
    }
    forall v: Value | Used(LOOP, LOOP_BODY, v)
      ensures exists x, k, isPhi :: DefinedAt(LOOP_BODY, v, x, k, isPhi) &&
                UsesDominated(LOOP, LOOP_BODY, v, x, k, isPhi)
    {
      LoopDefined(v);
    }
    forall b: Block, v: Value ensures PhiDef(LOOP_BODY, b, v) ==> v == 2 {
      LoopPhis(b, 0, v);
    }
  }

  // ---- With a pre-header -------------------------------------------------------------------------------

  /** Block 4 is the pre-header. */
  const PRE: Graph := [[4], [2], [1, 3], [], [1]]

  const PRE_BODY: Code :=
    [BasicBlock([], [Inst(0, []), Inst(1, [])]),
     BasicBlock([Phi(2, [PhiInput(3, 2), PhiInput(0, 4)])], [Inst(3, [2, 1])]),
     BasicBlock([], [Inst(4, [3])]), BasicBlock([], [Inst(5, [3])]), BasicBlock([], [])]

  const NORMALIZED: Program := Program(PRE, PRE_BODY, {4, 5}, {2}, {4, 5})

  const CHANGES: seq<Change> := [Change(4, {0}, 1, 2, 6, NORMALIZED)]

  lemma PreRedirected()
    ensures Redirected(LOOP, PRE, {0}, 1)
  {
    assert Replace([1], 1, 4) == [4];
    forall u: nat | u in {0} ensures Edge(LOOP, u, 1) {}
  }

  lemma PreMoved()
    ensures var phis := LOOP_BODY[1].phis;
      && HaveEntries(phis, 2) && HeaderPhis(phis, {0}, 2)
      && Move(phis, 1, 2, 4, 6) == Moved(PRE_BODY[1].phis, [], 6)
  {
    var phis := LOOP_BODY[1].phis;
    var ins := phis[0].inputs;
    assert ins == [PhiInput(0, 0), PhiInput(3, 2)] && ins[1..] == [PhiInput(3, 2)] && ins[1..][1..] == [];
    assert SourceOf(ins, 2) == 3;
    assert WithoutInput(ins[1..], PhiInput(3, 2)) == [];
    assert Entries(phis[0], 2) == [PhiInput(0, 0)];
    assert ins[0].source == 0 && ins[1].source == 2;
    assert HasSource(ins, 0) && HasSource(ins, 2);
    assert Move(phis, 0, 2, 4, 6) == Moved([], [], 6);
  }

  lemma LoopBelow()
    ensures Below(LOOP_BODY, 6)
  {
    assert LOOP_BODY[1].phis == [Phi(2, [PhiInput(0, 0), PhiInput(3, 2)])];
  }

  lemma LoopComplete()
    ensures PhisComplete(LOOP, LOOP_BODY)
  {
    var ins := LOOP_BODY[1].phis[0].inputs;
    assert ins == [PhiInput(0, 0), PhiInput(3, 2)] && ins[0].source == 0 && ins[1].source == 2;
    assert HasSource(ins, 0) && HasSource(ins, 2);
    hide HasSource;
  }

  lemma PreBody()
    ensures PRE_BODY == LOOP_BODY[1 := BasicBlock(PRE_BODY[1].phis, LOOP_BODY[1].insts)] + [BasicBlock([], [])]
  {}

  lemma PreRewritten()
    ensures Rewritten(ORIGINAL, NORMALIZED, {0}, 1, 2, 6)
  {
    PreRedirected();
    PreMoved();
    LoopBelow();
    LoopComplete();
    PreBody();
    hide Move, Redirected, HaveEntries, HeaderPhis, HasSource, Below, PhisComplete;
    forall u: nat ensures Edge(LOOP, u, 1) <==> u in {0} || u == 2 {}
    assert NewIds(6, 0) == {};
    assert {2} + {} == {2};
    assert |LOOP_BODY[1].phis| == 1;
  }

  lemma PrePreserved()
    ensures Preserved(ORIGINAL, NORMALIZED, CHANGES, 6) && SsaProgram(NORMALIZED, 6)
  {
    PreRewritten();
    OriginalIsSsa();
    hide Rewritten, SsaProgram, Preserved;
    assert CHANGES[..0] == [];
    assert Preservation.Chain(ORIGINAL, CHANGES, 6) && Latest(ORIGINAL, CHANGES) == NORMALIZED;
    ChainPreserves(ORIGINAL, CHANGES, 6);
    ChainKeepsSsa(ORIGINAL, CHANGES, 6);
  }

  lemma PrePhis()
    ensures PhisComplete(PRE, PRE_BODY)
  {
    var ins := PRE_BODY[1].phis[0].inputs;
    assert ins == [PhiInput(3, 2), PhiInput(0, 4)] && ins[0].source == 2 && ins[1].source == 4;
    assert HasSource(ins, 2) && HasSource(ins, 4);
    hide HasSource;
  }

  // ---- Its loop tree and order -------------------------------------------------------------------------

  const PRE_LOOPS: Loops := Loops([0, 1, 1, 0, 0], [NULL, 0], [0, 1], [0, 1], [0, 2], [0, 4])

  const PRE_ORDER: seq<Block> := [0, 4, 1, 2, 3]

  const PRE_RANK: seq<nat> := [0, 2, 3, 4, 1]

  lemma PreWellFormed()
    ensures Valid(PRE) && WellFormed(PRE, PRE_LOOPS) && |PRE| == 5
  {}

  lemma PreEdges(u: Block, v: Block)
    requires Edge(PRE, u, v)
    ensures (u == 0 && v == 4) || (u == 4 && v == 1) || (u == 1 && v == 2) || (u == 2 && v == 1) || (u == 2 && v == 3)
  {}

  lemma PreMembers(b: Block)
    requires b < 5
    ensures InNaturalLoop(PRE, 1, 2, b) <==> 1 <= b <= 2
  {
    if b == 0 || b == 4 {
      FenceExcludes(PRE, {0, 4}, 1, 2, b);
    } else if b == 3 {
      FenceExcludes(PRE, {3}, 1, 2, b);
    } else if b == 2 {
      WalkInLoop(PRE, 1, [2]);
    }
  }

  lemma PreIn(a: nat)
    requires a < 2
    ensures WellFormed(PRE, PRE_LOOPS) && (In(PRE, PRE_LOOPS, a, 1) <==> a == 1)
  {
    PreWellFormed();
  }

  lemma PreInnermost()
    ensures WellFormed(PRE, PRE_LOOPS) && Innermost(PRE, PRE_LOOPS)
  {
    PreWellFormed();
    var t := PRE_LOOPS;
    hide InNaturalLoop;
    forall k, b | 0 < k < |t.outer| && 0 <= b < |PRE|
      ensures In(PRE, t, t.loopOf[b], k) <==> InNaturalLoop(PRE, t.header[k], t.latch[k], b)
    {
      PreIn(t.loopOf[b]);
      PreMembers(b);
    }
  }

  lemma PreHeaders()
    ensures HeadersNormal(PRE, PRE_LOOPS) && Reducible(PRE, PRE_LOOPS, PRE_RANK)
  {
    PreWellFormed();
    FenceDominates(PRE, {0, 4}, 1, 2);
    hide Dominates;
    forall u: nat | Edge(PRE, u, 1) ensures u == 2 || u == 4 {
      PreEdges(u, 1);
    }
    forall u: nat, v: nat | Edge(PRE, u, v)
      ensures v < |PRE| && (PRE_RANK[u] < PRE_RANK[v] || BackEdge(PRE, PRE_LOOPS, u, v))
    {
      PreEdges(u, v);
    }
  }

  lemma PreReached(b: Block)
    requires b < 5
    ensures Reachable(PRE, b)
  {
    WalkReaches(PRE, PRE_ORDER[..PRE_RANK[b] + 1]);
  }

  lemma PreNormalForm()
    ensures NormalForm(PRE, PRE_LOOPS, PRE_RANK)
  {
    PreWellFormed();
    PreHeaders();
    PreInnermost();
    hide Reachable, Reducible, HeadersNormal, Innermost;
    forall b | 0 <= b < |PRE| ensures Reachable(PRE, b) && NoRepeats(PRE[b]) {
      PreReached(b);
    }
  }

  lemma PreForwardFirst()
    ensures ForwardFirst(PRE, PRE_RANK, PRE_ORDER)
  {
    forall i, p: nat | 0 <= i < 5 && Forward(PRE, PRE_RANK, p, PRE_ORDER[i]) ensures p in PRE_ORDER[..i] {
      PreEdges(p, PRE_ORDER[i]);
      assert PRE_ORDER[..i][PRE_RANK[p]] == p;
    }
  }

  lemma PreContiguous()
    ensures WellFormed(PRE, PRE_LOOPS) && Contiguous(PRE, PRE_LOOPS, PRE_ORDER)
  {
    PreWellFormed();
    hide In;
    forall i, k | 0 <= i < 5 && 0 < k < 2 && Open(PRE, PRE_LOOPS, PRE_ORDER, i, k)
      ensures In(PRE, PRE_LOOPS, PRE_LOOPS.loopOf[PRE_ORDER[i]], k)
    {
      PreIn(0);
      PreIn(1);
      var x: nat :| x < 5 && In(PRE, PRE_LOOPS, PRE_LOOPS.loopOf[x], k) && x !in PRE_ORDER[..i];
      var j :| 0 <= j < i && PRE_ORDER[..i][j] == 1;
      assert j == 2 && PRE_ORDER[3] == 2 && i <= 3;
    }
  }

  lemma PreFinished()
    ensures Finished(PRE, PRE_LOOPS, PRE_RANK, PRE_ORDER) && LatchesShared(PRE, PRE_LOOPS)
    ensures Latches(PRE, PRE_LOOPS) == map[1 := 2]
  {
    PreNormalForm();
    PreForwardFirst();
    PreContiguous();
    PreLatches();
    hide NormalForm, ForwardFirst, Contiguous, LatchesShared;
    forall b | 0 <= b < |PRE| ensures b in PRE_ORDER {
      assert PRE_ORDER[PRE_RANK[b]] == b;
    }
  }

  lemma PreLatches()
    ensures WellFormed(PRE, PRE_LOOPS) && LatchesShared(PRE, PRE_LOOPS) && Latches(PRE, PRE_LOOPS) == map[1 := 2]
  {
    PreWellFormed();
  }

  // ---- Its ranges --------------------------------------------------------------------------------------

  const LAYOUT: Layout := Layout(PRE, PRE_BODY, PRE_ORDER, map[1 := 2])

  lemma Starts()
    ensures WellPlaced(LAYOUT)
    ensures BlockRange(LAYOUT, 0) == Range(0, 6) && BlockRange(LAYOUT, 1) == Range(6, 8)
    ensures BlockRange(LAYOUT, 2) == Range(8, 12) && BlockRange(LAYOUT, 3) == Range(12, 16)
    ensures BlockRange(LAYOUT, 4) == Range(16, 20) && IndexOf(PRE_ORDER, 2) == 3
  {
    var b, o := PRE_BODY, PRE_ORDER;
    assert forall k :: 0 <= k < 5 ==> o[k] < 5;
    assert BlockStart(b, o, 1) == BlockStart(b, o, 0) + BlockLength(b[0]);
    assert BlockStart(b, o, 2) == BlockStart(b, o, 1) + BlockLength(b[4]);
    assert BlockStart(b, o, 3) == BlockStart(b, o, 2) + BlockLength(b[1]);
    assert BlockStart(b, o, 4) == BlockStart(b, o, 3) + BlockLength(b[2]);
    assert BlockStart(b, o, 5) == BlockStart(b, o, 4) + BlockLength(b[3]);
    assert PRE_ORDER[1..][1..][1..] == [2, 3];
  }

  const SWEPT4: Live := Live(map[5 := Range(18, 20), 3 := Range(16, 18)], map[3 := {3}])

  const SWEPT3: Live :=
    Live(map[5 := Range(18, 20), 3 := Range(12, 18), 4 := Range(14, 16)], map[3 := {3}, 2 := {3}])

  const SWEPT2: Live :=
    Live(map[5 := Range(18, 20), 3 := Range(10, 18), 4 := Range(14, 16), 2 := Range(8, 10), 1 := Range(8, 16)],
         map[3 := {3}, 2 := {3}, 1 := {1}])

  const SWEPT1: Live :=
    Live(map[5 := Range(18, 20), 3 := Range(10, 18), 4 := Range(14, 16), 2 := Range(8, 10), 1 := Range(6, 16),
             0 := Range(6, 8)], map[3 := {3}, 2 := {3}, 1 := {1}, 4 := {0, 1}])

  const RANGES: RangeMap :=
    map[5 := Range(18, 20), 3 := Range(10, 18), 4 := Range(14, 16),
        2 := Range(8, 10), 1 := Range(4, 16), 0 := Range(2, 8)]

  lemma InitialOne(body: Code, b: Block, s: Block, sets: map<Block, set<Value>>)
    requires s < |body|
    ensures InitialLive(body, [s], b, sets) == FromSuccessor(body, b, s, sets)
  {
    assert [s][1..] == [];
  }

  lemma InitialTwo(body: Code, b: Block, s: Block, u: Block, sets: map<Block, set<Value>>)
    requires s < |body| && u < |body|
    ensures InitialLive(body, [s, u], b, sets) == FromSuccessor(body, b, s, sets) + FromSuccessor(body, b, u, sets)
  {
    assert [s, u][1..] == [u];
    InitialOne(body, b, u, sets);
  }

  /** A block with one instruction. */
  lemma SweepOne(l: Layout, st: Live, i: nat, live: set<Value>, x: Inst)
    requires WellPlaced(l) && i < |l.order| && l.body[l.order[i]].insts == [x]
    requires InitialLive(l.body, l.g[l.order[i]], l.order[i], st.sets) == live
    ensures var b, r := l.order[i], BlockRange(l, i);
      SweepBody(l, st, i) == Live(StepRanges(AddAll(st.ranges, live, r), x, r.start, r.start + 2),
                                  st.sets[b := StepLive(live, x) - PhiIds(l.body[b].phis)])
  {
    var m := AddAll(st.ranges, live, BlockRange(l, i));
    var r := BlockRange(l, i);
    assert SweepRanges(m, [x], 1, r.start) == SweepRanges(StepRanges(m, x, r.start, r.start + 2), [x], 0, r.start);
    assert SweepLive(live, [x], 1) == SweepLive(StepLive(live, x), [x], 0);
  }

  lemma AddOne(m: RangeMap, v: Value, r: Range)
    ensures AddInputs(m, [v], r) == AddRange(m, v, r)
  {
    assert [v][1..] == [];
  }

  lemma FromLatch()
    ensures PhiUses(PRE_BODY[1].phis, 2) == {3} && PhiUses(PRE_BODY[1].phis, 4) == {0}
    ensures PhiIds(PRE_BODY[1].phis) == {2}
  {
    var ins := PRE_BODY[1].phis[0].inputs;
    assert ins == [PhiInput(3, 2), PhiInput(0, 4)] && ins[1..] == [PhiInput(0, 4)] && ins[1..][1..] == [];
    assert InputsFrom(ins[1..], 2) == {} && InputsFrom(ins[1..], 4) == {0};
    assert PRE_BODY[1].phis[1..] == [];
  }

  /** The ranges after such a block. */
  function RangesAfter(m: RangeMap, live: set<Value>, x: Inst, r: Range): RangeMap {
    StepRanges(AddAll(m, live, r), x, r.start, r.start + 2)
  }

  lemma PlainBlock(l: Layout, st: Live, i: nat, live: set<Value>, x: Inst, after: Live)
    requires WellPlaced(l) && i < |l.order| && l.body[l.order[i]] == BasicBlock([], [x]) && l.order[i] !in l.latch
    requires InitialLive(l.body, l.g[l.order[i]], l.order[i], st.sets) == live
    requires after.ranges == RangesAfter(st.ranges, live, x, BlockRange(l, i))
    requires after.sets == st.sets[l.order[i] := StepLive(live, x)]
    ensures SweepBlock(l, st, i) == after
  {
    SweepOne(l, st, i, live, x);
    hide SweepBody, StepRanges, AddAll, InitialLive;
    assert StepLive(live, x) - PhiIds([]) == StepLive(live, x);
  }

  lemma Maps4()
    ensures RangesAfter(map[], {}, Inst(5, [3]), Range(16, 20)) == SWEPT4.ranges && StepLive({}, Inst(5, [3])) == {3}
  {
    AddOne(Define(map[], 5, 18), 3, Range(16, 18));
    assert AddAll(map[], {}, Range(16, 20)) == map[];
  }

  lemma Swept4()
    ensures WellPlaced(LAYOUT) && SweepBlock(LAYOUT, Live(map[], map[]), 4) == SWEPT4
  {
    Starts();
    Maps4();
    hide RangesAfter, StepLive, SweepBlock;
    PlainBlock(LAYOUT, Live(map[], map[]), 4, {}, Inst(5, [3]), SWEPT4);
  }

  lemma Maps3()
    ensures RangesAfter(SWEPT4.ranges, {3}, Inst(4, [3]), Range(12, 16)) == SWEPT3.ranges
    ensures StepLive({3}, Inst(4, [3])) == {3}
  {
    var m := map[5 := Range(18, 20), 3 := Range(12, 18)];
    assert AddAll(SWEPT4.ranges, {3}, Range(12, 16)) == m;
    AddOne(Define(m, 4, 14), 3, Range(12, 14));
  }

  lemma Initial3()
    ensures InitialLive(PRE_BODY, [1, 3], 2, SWEPT4.sets) == {3}
  {
    FromLatch();
    InitialTwo(PRE_BODY, 2, 1, 3, SWEPT4.sets);
    hide InitialLive, PhiUses;
    assert FromSuccessor(PRE_BODY, 2, 1, SWEPT4.sets) == {3};
    NoPhiUses();
    assert FromSuccessor(PRE_BODY, 2, 3, SWEPT4.sets) == {3};
  }

  lemma NoPhiUses()
    ensures forall b: Block :: PhiUses([], b) == {}
  {}

  lemma Swept3()
    ensures WellPlaced(LAYOUT) && SweepBlock(LAYOUT, SWEPT4, 3) == SWEPT3
  {
    Starts();
    Initial3();
    Maps3();
    hide RangesAfter, StepLive, SweepBlock, InitialLive;
    PlainBlock(LAYOUT, SWEPT4, 3, {3}, Inst(4, [3]), SWEPT3);
  }

  lemma Initial2()
    ensures InitialLive(PRE_BODY, [2], 1, SWEPT3.sets) == {3}
  {
    InitialOne(PRE_BODY, 1, 2, SWEPT3.sets);
    hide InitialLive, PhiUses;
    NoPhiUses();
  }

  const AT_HEADER: RangeMap :=
    map[5 := Range(18, 20), 3 := Range(10, 18), 4 := Range(14, 16), 2 := Range(8, 10), 1 := Range(8, 10)]

  lemma Maps2()
    ensures RangesAfter(SWEPT3.ranges, {3}, Inst(3, [2, 1]), Range(8, 12)) == AT_HEADER
    ensures StepLive({3}, Inst(3, [2, 1])) - {2} == {1} && AddAll(AT_HEADER, {1}, Range(8, 16)) == SWEPT2.ranges
  {
    var m := map[5 := Range(18, 20), 3 := Range(8, 18), 4 := Range(14, 16)];
    assert AddAll(SWEPT3.ranges, {3}, Range(8, 12)) == m;
    HeaderStep(m, AT_HEADER);
  }

  lemma HeaderBlock()
    ensures WellPlaced(LAYOUT) && SweepBody(LAYOUT, SWEPT3, 2) == Live(AT_HEADER, SWEPT2.sets)
  {
    Starts();
    Initial2();
    Maps2();
    FromLatch();
    hide StepLive, InitialLive, SweepBody, PhiUses, PhiIds;
    SweepOne(LAYOUT, SWEPT3, 2, {3}, Inst(3, [2, 1]));
  }

  lemma Swept2()
    ensures WellPlaced(LAYOUT) && SweepBlock(LAYOUT, SWEPT3, 2) == SWEPT2
  {
    Starts();
    HeaderBlock();
    Maps2();
    hide SweepBody, RangesAfter, StepLive, BlockRange, AddAll;
  }

  lemma HeaderStep(m: RangeMap, r: RangeMap)
    requires m == map[5 := Range(18, 20), 3 := Range(8, 18), 4 := Range(14, 16)]
    requires r == map[5 := Range(18, 20), 3 := Range(10, 18), 4 := Range(14, 16), 2 := Range(8, 10), 1 := Range(8, 10)]
    ensures StepRanges(m, Inst(3, [2, 1]), 8, 10) == r
  {
    var d := Define(m, 3, 10);
    assert [2, 1][1..] == [1];
    AddOne(AddRange(d, 2, Range(8, 10)), 1, Range(8, 10));
  }

  lemma Initial1()
    ensures InitialLive(PRE_BODY, [1], 4, SWEPT2.sets) == {0, 1}
  {
    FromLatch();
    InitialOne(PRE_BODY, 4, 1, SWEPT2.sets);
    hide InitialLive, PhiUses;
  }

  lemma Swept1()
    ensures WellPlaced(LAYOUT) && SweepBlock(LAYOUT, SWEPT2, 1) == SWEPT1
  {
    Starts();
    Initial1();
    hide InitialLive, BlockRange;
    assert AddAll(SWEPT2.ranges, {0, 1}, Range(6, 8)) == SWEPT1.ranges;
    assert {0, 1} - PhiIds([]) == {0, 1};
    hide AddAll;
  }

  lemma Swept0()
    ensures WellPlaced(LAYOUT) && SweepBlock(LAYOUT, SWEPT1, 0).ranges == RANGES
  {
    Starts();
    var insts := PRE_BODY[0].insts;
    InitialOne(PRE_BODY, 0, 4, SWEPT1.sets);
    assert FromSuccessor(PRE_BODY, 0, 4, SWEPT1.sets) == {0, 1};
    hide InitialLive, FromSuccessor;
    var m0 := AddAll(SWEPT1.ranges, {0, 1}, Range(0, 6));
    assert m0 == SWEPT1.ranges[1 := Range(0, 16)][0 := Range(0, 8)];
    var m1 := StepRanges(m0, insts[1], 0, 4);
    assert m1 == m0[1 := Range(4, 16)];
    var m2 := StepRanges(m1, insts[0], 0, 2);
    assert m2 == RANGES;
    assert SweepRanges(m0, insts, 2, 0) == SweepRanges(m1, insts, 1, 0) == SweepRanges(m2, insts, 0, 0);
  }

  lemma SweepOfLoop()
    ensures WellPlaced(LAYOUT) && Sweep(LAYOUT, 0).ranges == RANGES
  {
    Swept4();
    Swept3();
    Swept2();
    Swept1();
    Swept0();
    hide SweepBlock;
    assert Sweep(LAYOUT, 5) == Live(map[], map[]);
    assert Sweep(LAYOUT, 4) == SWEPT4;
    assert Sweep(LAYOUT, 3) == SWEPT3;
    assert Sweep(LAYOUT, 2) == SWEPT2;
    assert Sweep(LAYOUT, 1) == SWEPT1;
  }

  // ---- Its registers -----------------------------------------------------------------------------------

  /** The ranges of the values that can be used, by start. */
  const LIVE_RANGES: LS.Input :=
    [LS.LiveRange(Range(2, 8), 0), LS.LiveRange(Range(4, 16), 1), LS.LiveRange(Range(8, 10), 2),
     LS.LiveRange(Range(10, 18), 3)]

  /** The allocation that the pass makes for two registers. */
  function LoopAllocation(): E.Allocation {
    E.Allocation(PRE, PRE_LOOPS, PRE_RANK, PRE_ORDER, PRE_BODY, LIVE_RANGES, LS.Run(LIVE_RANGES, 2, 4).loc,
                 {4, 5}, {2}, {4, 5})
  }

  /** There are never more than two values live, and there is no gap. */
  lemma TwoSuffice()
    ensures LS.Sorted(LIVE_RANGES) && RL.NoPressure(LIVE_RANGES, 2) && RL.NoGapThenOverlap(LIVE_RANGES)
  {
    var rs := LIVE_RANGES;
    forall pt: nat ensures |RS.Covering(rs, pt)| <= 2 {
      var c := RS.Covering(rs, pt);
      var first: nat := if pt < 8 then 0 else if pt < 10 then 2 else 3;
      assert c <= {first, 1};
      RL.DistinctBound(c, {first, 1});
    }
    assert RS.End(rs, 0) > RS.Start(rs, 1) && RS.End(rs, 1) > RS.Start(rs, 2) && RS.End(rs, 1) > RS.Start(rs, 3);
  }

  lemma InputIsRanges()
    ensures E.InputFor(LIVE_RANGES, RANGES, {4, 5})
  {
    var rs := LIVE_RANGES;
    TwoSuffice();
    hide RL.NoPressure, RL.NoGapThenOverlap;
    assert |rs| == 4 && forall k :: 0 <= k < 4 ==> rs[k].inst == k && k in RANGES && rs[k].range == RANGES[k];
    forall v | v in RANGES && v !in {4, 5} ensures exists k :: 0 <= k < |rs| && rs[k].inst == v {
      assert rs[v].inst == v;
    }
  }

  lemma LoopAllocated()
    ensures Allocated(NORMALIZED, LoopAllocation())
  {
    var a := LoopAllocation();
    PreFinished();
    SweepOfLoop();
    InputIsRanges();
    hide Finished, LatchesShared, Sweep, LS.Run, E.InputFor, WellPlaced;
    assert E.Plan(a) == LAYOUT;
  }

  /** Everything that `OriginalRunAgrees` assumes holds of this program: a loop with a phi and several live
      values, rewritten by loop analysis, in two registers, as the code allocates them. */
  lemma AssumptionsCanBeMet()
    ensures Preserved(ORIGINAL, NORMALIZED, CHANGES, 6) && SsaProgram(NORMALIZED, 6) && PhisComplete(PRE, PRE_BODY)
    ensures var a := LoopAllocation();
      Allocated(NORMALIZED, a) && Favourable(a) && a.loc == LS.Run(a.rs, 2, |a.rs|).loc
  {
    var a := LoopAllocation();
    hide Preserved, SsaProgram, PhisComplete, Allocated, LS.Run, RL.NoHazard, RL.NoPressure, RL.NoGapThenOverlap,
         E.KeptApart, LatchesShared, Finished, AllCovered, StrictSsa;
    PrePreserved();
    PrePhis();
    PreFinished();
    LoopAllocated();
    TwoSuffice();
    RangesNonEmpty(NORMALIZED, a);
    RL.NoGapNoHazard(a.rs, 2);
    AsWritten(NORMALIZED, a, 2);
    StillStrict();
    SharedLatchesCover(NORMALIZED, a);
  }

  lemma StillStrict()
    requires SsaProgram(NORMALIZED, 6)
    ensures StrictSsa(PRE, PRE_BODY)
  {
    hide StrictSsa;
  }
}