/** How large the ranges of the single sweep are (pass/liveness_analysis.cpp:140-215): the range of a value is
    the smallest interval that holds its definition and every point where it is live. */
module ExactRanges {
  import opened Cfg
  import opened Ranges
  import opened Ssa
  import opened LiveRanges
  import opened Coverage
  import opened LoopTree
  import opened BlockOrder

  // ---- No range is larger than it must be ------------------------------------------------------------

  /** After the first `j` instructions of the `i`-th block `v` is live, or has just been defined. */
  ghost predicate Here(l: Layout, v: Value, i: nat, j: nat)
    requires WellPlaced(l) && i < |l.order|
  {
    && j <= |l.body[l.order[i]].insts|
    && (LiveAt(l.g, l.body, v, l.order[i], j) || (j > 0 && InstDef(l.body, l.order[i], j - 1, v)))
  }

  /** Number `x` belongs to such a point. */
  ghost predicate Needed(l: Layout, v: Value, x: int)
    requires WellPlaced(l)
  {
    exists i: nat, j: nat {:trigger Here(l, v, i, j)} ::
      i < |l.order| && Here(l, v, i, j) && x == PointNumber(BlockStart(l.body, l.order, i), j)
  }

  /** Both ends of the range are needed; a range that reaches back to the start of the block `i` may still
      wait for a definition among the first `k` instructions. */
  ghost predicate FitsTo(l: Layout, v: Value, r: Range, i: nat, k: nat)
    requires WellPlaced(l) && i < |l.order|
  {
    && Needed(l, v, r.end - LIVE_NUMBER_STEP)
    && (Needed(l, v, r.start)
        || (r.start == BlockStart(l.body, l.order, i) && exists m: nat :: m < k && InstDef(l.body, l.order[i], m, v)))
  }

  ghost predicate AllFitTo(l: Layout, m: RangeMap, i: nat, k: nat)
    requires WellPlaced(l) && i < |l.order|
  {
    forall v :: v in m ==> FitsTo(l, v, m[v], i, k)
  }

  ghost predicate AllFit(l: Layout, m: RangeMap)
    requires WellPlaced(l)
  {
    forall v :: v in m ==> Needed(l, v, m[v].start) && Needed(l, v, m[v].end - LIVE_NUMBER_STEP)
  }

  /** What is in the live set of a swept block is live into it. */
  ghost predicate SetsSound(l: Layout, sets: map<Block, set<Value>>)
    requires WellPlaced(l)
  {
    forall s, v :: s in sets && v in sets[s] ==>
      s < |l.g| && LiveAt(l.g, l.body, v, s, 0) && !PhiDef(l.body, s, v)
  }

  lemma NeededAt(l: Layout, v: Value, i: nat, j: nat)
    requires WellPlaced(l) && i < |l.order| && Here(l, v, i, j)
    ensures Needed(l, v, PointNumber(BlockStart(l.body, l.order, i), j))
  {}

  lemma {:induction false} InitialIsLive(l: Layout, ss: seq<Block>, b: Block, sets: map<Block, set<Value>>, v: Value)
    requires WellPlaced(l) && b < |l.g| && InRange(l.g, ss) && SetsSound(l, sets)
    requires (forall s :: s in ss ==> s in l.g[b]) && v in InitialLive(l.body, ss, b, sets)
    ensures LiveAt(l.g, l.body, v, b, |l.body[b].insts|)
    decreases |ss|
  {
    var s := ss[0];
    assert Edge(l.g, b, s) && InRange(l.g, ss[1..]);
    if s in sets && v in sets[s] {
      LiveAcross(l.g, l.body, b, s, v);
    } else if v in PhiUses(l.body[s].phis, b) {
      LivePhiInput(l.g, l.body, b, s, v);
    } else {
      InitialIsLive(l, ss[1..], b, sets, v);
    }
  }

  ghost predicate AllLive(l: Layout, live: set<Value>, b: Block, j: nat) {
    forall v :: v in live ==> LiveAt(l.g, l.body, v, b, j)
  }

  lemma StepIsLive(l: Layout, live: set<Value>, b: Block, k: nat)
    requires WellPlaced(l) && b < |l.g| && k < |l.body[b].insts| && AllLive(l, live, b, k + 1)
    ensures AllLive(l, StepLive(live, l.body[b].insts[k]), b, k)
  {
    forall v | v in StepLive(live, l.body[b].insts[k]) ensures LiveAt(l.g, l.body, v, b, k) {
      if v in l.body[b].insts[k].inputs {
        LiveInput(l.g, l.body, b, k, v);
      } else {
        LiveBefore(l.g, l.body, b, k, v);
      }
    }
  }

  lemma {:induction false} SweptIsLive(l: Layout, live: set<Value>, b: Block, k: nat)
    requires WellPlaced(l) && b < |l.g| && k <= |l.body[b].insts| && AllLive(l, live, b, k)
    ensures AllLive(l, SweepLive(live, l.body[b].insts, k), b, 0)
    decreases k
  {
    hide AllLive;
    if k > 0 {
      StepIsLive(l, live, b, k - 1);
      SweptIsLive(l, StepLive(live, l.body[b].insts[k - 1]), b, k - 1);
    }
  }

  /** What is live after instructions that do not define it was live before them. */
  lemma {:induction false} LiveBack(l: Layout, b: Block, j: nat, v: Value)
    requires WellPlaced(l) && b < |l.g| && LiveAt(l.g, l.body, v, b, j)
    requires forall m: nat :: m < j ==> !InstDef(l.body, b, m, v)
    ensures LiveAt(l.g, l.body, v, b, 0)
    decreases j
  {
    if j > 0 {
      LiveBefore(l.g, l.body, b, j - 1, v);
      LiveBack(l, b, j - 1, v);
    }
  }

  /** A range from the start of the block to a point where the value is live. */
  lemma LiveRangeFits(l: Layout, i: nat, j: nat, v: Value)
    requires WellPlaced(l) && i < |l.order| && j <= |l.body[l.order[i]].insts|
    requires LiveAt(l.g, l.body, v, l.order[i], j)
    ensures var start := BlockStart(l.body, l.order, i);
      FitsTo(l, v, Range(start, PointNumber(start, j + 1)), i, j)
  {
    var start := BlockStart(l.body, l.order, i);
    assert Here(l, v, i, j);
    NeededAt(l, v, i, j);
    if forall m: nat :: m < j ==> !InstDef(l.body, l.order[i], m, v) {
      LiveBack(l, l.order[i], j, v);
      assert Here(l, v, i, 0);
      NeededAt(l, v, i, 0);
    }
  }

  lemma FitsUnion(l: Layout, v: Value, r: Range, s: Range, i: nat, k: nat)
    requires WellPlaced(l) && i < |l.order| && FitsTo(l, v, r, i, k) && FitsTo(l, v, s, i, k)
    ensures FitsTo(l, v, Union(r, s), i, k)
  {
    hide Needed;
  }

  lemma {:induction false} InputsFit(l: Layout, m: RangeMap, ins: seq<Value>, r: Range, i: nat, k: nat)
    requires WellPlaced(l) && i < |l.order| && AllFitTo(l, m, i, k) && forall v :: v in ins ==> FitsTo(l, v, r, i, k)
    ensures AllFitTo(l, AddInputs(m, ins, r), i, k)
    decreases |ins|
  {
    hide FitsTo;
    if ins != [] {
      if ins[0] in m {
        FitsUnion(l, ins[0], m[ins[0]], r, i, k);
      }
      InputsFit(l, AddRange(m, ins[0], r), ins[1..], r, i, k);
    }
  }

  lemma AddedFit(l: Layout, m: RangeMap, s: set<Value>, r: Range, i: nat, k: nat)
    requires WellPlaced(l) && i < |l.order| && AllFitTo(l, m, i, k) && forall v :: v in s ==> FitsTo(l, v, r, i, k)
    ensures AllFitTo(l, AddAll(m, s, r), i, k)
  {
    hide FitsTo;
    forall v | v in m && v in s ensures FitsTo(l, v, Union(m[v], r), i, k) {
      FitsUnion(l, v, m[v], r, i, k);
    }
  }

  /** At its definition the start of a range is settled. */
  lemma DefinedFit(l: Layout, m: RangeMap, i: nat, k: nat)
    requires WellPlaced(l) && i < |l.order| && k < |l.body[l.order[i]].insts| && AllFitTo(l, m, i, k + 1)
    ensures var num := PointNumber(BlockStart(l.body, l.order, i), k + 1);
      AllFitTo(l, Define(m, l.body[l.order[i]].insts[k].id, num), i, k)
  {
    var b := l.order[i];
    var id := l.body[b].insts[k].id;
    var num := PointNumber(BlockStart(l.body, l.order, i), k + 1);
    assert InstDef(l.body, b, k, id) && Here(l, id, i, k + 1);
    NeededAt(l, id, i, k + 1);
    hide Needed;
    forall v | v in m && v != id ensures FitsTo(l, v, m[v], i, k) {
      assert FitsTo(l, v, m[v], i, k + 1) && !InstDef(l.body, b, k, v);
    }
  }

  lemma StepFits(l: Layout, m: RangeMap, i: nat, k: nat)
    requires WellPlaced(l) && i < |l.order| && k < |l.body[l.order[i]].insts| && AllFitTo(l, m, i, k + 1)
    ensures var start := BlockStart(l.body, l.order, i);
      AllFitTo(l, StepRanges(m, l.body[l.order[i]].insts[k], start, PointNumber(start, k + 1)), i, k)
  {
    var inst := l.body[l.order[i]].insts[k];
    DefinedFit(l, m, i, k);
    forall v | v in inst.inputs
      ensures FitsTo(l, v, Range(BlockStart(l.body, l.order, i),
                             PointNumber(BlockStart(l.body, l.order, i), k + 1)), i, k)
    {
      LiveInput(l.g, l.body, l.order[i], k, v);
      LiveRangeFits(l, i, k, v);
    }
    hide AllFitTo, FitsTo, Define;
    InputsFit(l, Define(m, inst.id, PointNumber(BlockStart(l.body, l.order, i), k + 1)), inst.inputs,
              Range(BlockStart(l.body, l.order, i), PointNumber(BlockStart(l.body, l.order, i), k + 1)), i, k);
  }

  lemma {:induction false} SweptFit(l: Layout, m: RangeMap, i: nat, k: nat)
    requires WellPlaced(l) && i < |l.order| && k <= |l.body[l.order[i]].insts| && AllFitTo(l, m, i, k)
    ensures AllFitTo(l, SweepRanges(m, l.body[l.order[i]].insts, k, BlockStart(l.body, l.order, i)), i, 0)
    decreases k
  {
    hide AllFitTo, StepRanges;
    if k > 0 {
      var start := BlockStart(l.body, l.order, i);
      StepFits(l, m, i, k - 1);
      SweptFit(l, StepRanges(m, l.body[l.order[i]].insts[k - 1], start, PointNumber(start, k)), i, k - 1);
    }
  }

  lemma FitMeans(l: Layout, m: RangeMap, i: nat, k: nat)
    requires WellPlaced(l) && i < |l.order|
    ensures AllFit(l, m) ==> AllFitTo(l, m, i, k)
    ensures AllFitTo(l, m, i, 0) ==> AllFit(l, m)
  {
    hide Needed;
    if AllFitTo(l, m, i, 0) {
      forall v | v in m ensures Needed(l, v, m[v].start) && Needed(l, v, m[v].end - LIVE_NUMBER_STEP) {
        assert FitsTo(l, v, m[v], i, 0);
      }
    }
  }

  /** One block, before the extension over a loop. */
  lemma BodyFits(l: Layout, st: Live, i: nat)
    requires WellPlaced(l) && i < |l.order| && AllFit(l, st.ranges) && SetsSound(l, st.sets)
    ensures AllFit(l, SweepBody(l, st, i).ranges) && SetsSound(l, SweepBody(l, st, i).sets)
  {
    var b := l.order[i];
    var insts := l.body[b].insts;
    var live := InitialLive(l.body, l.g[b], b, st.sets);
    var r := BlockRange(l, i);
    forall v | v in live ensures LiveAt(l.g, l.body, v, b, |insts|) && FitsTo(l, v, r, i, |insts|) {
      InitialIsLive(l, l.g[b], b, st.sets, v);
      LiveRangeFits(l, i, |insts|, v);
    }
    SweptIsLive(l, live, b, |insts|);
    FitMeans(l, st.ranges, i, |insts|);
    hide AllFit, AllFitTo, FitsTo, InitialLive, SweepLive, SweepRanges, AddAll, LiveAt;
    AddedFit(l, st.ranges, live, r, i, |insts|);
    SweptFit(l, AddAll(st.ranges, live, r), i, |insts|);
    FitMeans(l, SweepRanges(AddAll(st.ranges, live, r), insts, |insts|, r.start), i, 0);
  }

  ghost predicate LatchesLead(l: Layout)
    requires WellPlaced(l)
  {
    forall h :: h in l.latch && h in l.order ==> Edge(l.g, l.latch[h], h)
  }

  /** What is live into a header is live at the end of the latch. */
  lemma ExtensionFits(l: Layout, i: nat, v: Value)
    requires WellPlaced(l) && i < |l.order| && l.order[i] in l.latch && LatchesLead(l)
    requires LiveAt(l.g, l.body, v, l.order[i], 0) && !PhiDef(l.body, l.order[i], v)
    ensures var end := BlockRange(l, IndexOf(l.order, l.latch[l.order[i]])).end;
      FitsTo(l, v, Range(BlockStart(l.body, l.order, i), end), i, 0)
  {
    var h := l.order[i];
    var q := IndexOf(l.order, l.latch[h]);
    LiveAcross(l.g, l.body, l.latch[h], h, v);
    assert Here(l, v, i, 0) && Here(l, v, q, |l.body[l.order[q]].insts|);
    NeededAt(l, v, i, 0);
    NeededAt(l, v, q, |l.body[l.order[q]].insts|);
  }

  lemma BlockFits(l: Layout, st: Live, i: nat)
    requires WellPlaced(l) && i < |l.order| && LatchesLead(l) && AllFit(l, st.ranges) && SetsSound(l, st.sets)
    ensures AllFit(l, SweepBlock(l, st, i).ranges) && SetsSound(l, SweepBlock(l, st, i).sets)
  {
    BodyFits(l, st, i);
    var b := l.order[i];
    var r := SweepBody(l, st, i);
    hide SweepBody, AllFit, AllFitTo, FitsTo, AddAll;
    if b in l.latch {
      var end := BlockRange(l, IndexOf(l.order, l.latch[b])).end;
      forall v | v in r.sets[b] ensures FitsTo(l, v, Range(BlockRange(l, i).start, end), i, 0) {
        ExtensionFits(l, i, v);
      }
      FitMeans(l, r.ranges, i, 0);
      AddedFit(l, r.ranges, r.sets[b], Range(BlockRange(l, i).start, end), i, 0);
      FitMeans(l, AddAll(r.ranges, r.sets[b], Range(BlockRange(l, i).start, end)), i, 0);
    }
  }

  /** Both ends of every range are needed, whatever the program and the order. */
  lemma {:induction false} SweepFits(l: Layout, i: nat)
    requires WellPlaced(l) && LatchesLead(l) && i <= |l.order|
    ensures AllFit(l, Sweep(l, i).ranges) && SetsSound(l, Sweep(l, i).sets)
    decreases |l.order| - i
  {
    hide AllFit, SetsSound, SweepBlock;
    if i < |l.order| {
      SweepFits(l, i + 1);
      BlockFits(l, Sweep(l, i + 1), i);
    } else {
      NothingFits(l);
    }
  }

  lemma NothingFits(l: Layout)
    requires WellPlaced(l)
    ensures AllFit(l, map[]) && SetsSound(l, map[])
  {}

  // ---- Every range is exactly as large as it must be -----------------------------------------------------

  ghost predicate Ready(l: Layout) {
    Topological(l) && StrictSsa(l.g, l.body) && UniqueIds(l.body)
  }

  /** What is needed is covered. */
  lemma NeededIsCovered(l: Layout, v: Value, x: int)
    requires Ready(l) && LoopsEndWithLatch(l) && Needed(l, v, x)
    ensures x >= 0 && Covered(Sweep(l, 0).ranges, v, x)
  {
    var i: nat, j: nat :| i < |l.order| && Here(l, v, i, j) && x == PointNumber(BlockStart(l.body, l.order, i), j);
    hide Sweep, Covered, LiveAt, Topological, StrictSsa, UniqueIds, LoopsEndWithLatch, WellPlaced;
    if LiveAt(l.g, l.body, v, l.order[i], j) {
      LiveCovered(l, v, i, j);
    } else {
      DefinedOnce(l.body, l.order[i], j - 1, v);
      DefCovered(l, v, i, j - 1);
    }
  }

  lemma LatchesDoLead(l: Layout)
    requires Topological(l)
    ensures WellPlaced(l) && LatchesLead(l)
  {}

  /** No range is empty, and both of its ends are needed.  This holds of every order, also where the sweep
      misses live points. */
  lemma EndsAreNeeded(l: Layout, v: Value)
    requires Topological(l) && v in Sweep(l, 0).ranges
    ensures var r := Sweep(l, 0).ranges[v];
      Needed(l, v, r.start) && Needed(l, v, r.end - LIVE_NUMBER_STEP)
  {
    hide Sweep, Needed, Topological, AllFit;
    LatchesDoLead(l);
    SweepFits(l, 0);
    FitAt(l, Sweep(l, 0).ranges, v);
  }

  lemma FitAt(l: Layout, m: RangeMap, v: Value)
    requires WellPlaced(l) && AllFit(l, m) && v in m
    ensures Needed(l, v, m[v].start) && Needed(l, v, m[v].end - LIVE_NUMBER_STEP)
  {}

  /** Number `x` lies between two points where `v` is needed. */
  ghost predicate Between(l: Layout, v: Value, x: nat)
    requires WellPlaced(l)
  {
    exists a: int, b: int :: Needed(l, v, a) && Needed(l, v, b) && a <= x < b + LIVE_NUMBER_STEP
  }

  /** The range of a value is the smallest interval that holds its definition and all points where it is
      live: a number is covered if and only if it lies between two such points. */
  lemma RangeIsHull(l: Layout, v: Value, x: nat)
    requires Ready(l) && LoopsEndWithLatch(l)
    ensures Covered(Sweep(l, 0).ranges, v, x) <==> Between(l, v, x)
  {
    hide Sweep, Needed, Ready, LoopsEndWithLatch, Between, Covered;
    ReadyIsTopological(l);
    if Covered(Sweep(l, 0).ranges, v, x) {
      CoveredIsBetween(l, v, x);
    }
    if Between(l, v, x) {
      BetweenIsCovered(l, v, x);
    }
  }

  /** This half holds of every order. */
  lemma CoveredIsBetween(l: Layout, v: Value, x: nat)
    requires Topological(l) && Covered(Sweep(l, 0).ranges, v, x)
    ensures Between(l, v, x)
  {
    hide Sweep, Needed, Topological, WellPlaced;
    LatchesDoLead(l);
    EndsAreNeeded(l, v);
    var r := Sweep(l, 0).ranges[v];
    assert r.start <= x < (r.end - LIVE_NUMBER_STEP) + LIVE_NUMBER_STEP;
  }

  lemma BetweenIsCovered(l: Layout, v: Value, x: nat)
    requires Ready(l) && LoopsEndWithLatch(l) && Between(l, v, x)
    ensures Covered(Sweep(l, 0).ranges, v, x)
  {
    hide Sweep, Needed, Ready, LoopsEndWithLatch;
    ReadyIsTopological(l);
    hide Topological;
    var a: int, b: int :| Needed(l, v, a) && Needed(l, v, b) && a <= x < b + LIVE_NUMBER_STEP;
    NeededIsCovered(l, v, a);
    NeededIsCovered(l, v, b);
    EndsAreNeeded(l, v);
    var q := NeededIsEven(l, v, b);
    var t := NeededIsEven(l, v, Sweep(l, 0).ranges[v].end - LIVE_NUMBER_STEP);
  }

  lemma ReadyIsTopological(l: Layout)
    requires Ready(l)
    ensures Topological(l) && WellPlaced(l)
  {}

  /** Numbers are counted in steps. */
  lemma {:induction false} StartIsEven(body: Code, order: seq<Block>, i: nat) returns (q: nat)
    requires i <= |order| && forall k :: 0 <= k < |order| ==> order[k] < |body|
    ensures BlockStart(body, order, i) == LIVE_NUMBER_STEP * q
    decreases i
  {
    q := 0;
    if i > 0 {
      var r := StartIsEven(body, order, i - 1);
      q := r + |body[order[i - 1]].insts| + 1;
    }
  }

  lemma NeededIsEven(l: Layout, v: Value, x: int) returns (q: nat)
    requires WellPlaced(l) && Needed(l, v, x)
    ensures x == LIVE_NUMBER_STEP * q
  {
    var i: nat, j: nat :| i < |l.order| && Here(l, v, i, j) && x == PointNumber(BlockStart(l.body, l.order, i), j);
    var r := StartIsEven(l.body, l.order, i);
    q := r + j;
  }

  // ---- Where ranges start and end ------------------------------------------------------------------------

  /** Where a value is needed its definition has no larger number. */
  lemma NeededAfterDef(l: Layout, v: Value, i: nat, m: nat, x: int)
    requires Ready(l) && i < |l.order| && InstDef(l.body, l.order[i], m, v) && Needed(l, v, x)
    ensures PointNumber(BlockStart(l.body, l.order, i), m + 1) <= x
  {
    var q: nat, j: nat :| q < |l.order| && Here(l, v, q, j) && x == PointNumber(BlockStart(l.body, l.order, q), j);
    if LiveAt(l.g, l.body, v, l.order[q], j) {
      var p :| LivePath(l.g, l.body, v, p, j) && p[0] == l.order[q];
      LiveAfterDef(l, v, p, q, j);
      DefsAt(l, v, x, i);
    } else {
      assert InstDef(l.body, l.order[q], j - 1, v);
      assert l.order[q] == l.order[i] ==> q == i;
    }
  }

  /** The range of an instruction starts at the number of the instruction, used or not. */
  lemma StartsAtDefinition(l: Layout, v: Value, i: nat, m: nat)
    requires Ready(l) && i < |l.order| && InstDef(l.body, l.order[i], m, v)
    ensures v in Sweep(l, 0).ranges
    ensures Sweep(l, 0).ranges[v].start == PointNumber(BlockStart(l.body, l.order, i), m + 1)
  {
    DefinedOnce(l.body, l.order[i], m, v);
    ReadyIsTopological(l);
    DefCovered(l, v, i, m);
    EndsAreNeeded(l, v);
    hide Sweep, Needed;
    NeededAfterDef(l, v, i, m, Sweep(l, 0).ranges[v].start);
  }

  /** The range of a phi that is used starts with its block. */
  lemma StartsAtPhi(l: Layout, v: Value, i: nat)
    requires Ready(l) && LoopsEndWithLatch(l) && (forall b :: 0 <= b < |l.g| ==> Reachable(l.g, b))
    requires i < |l.order| && PhiDef(l.body, l.order[i], v) && v in Sweep(l, 0).ranges
    ensures Sweep(l, 0).ranges[v].start == BlockStart(l.body, l.order, i)
  {
    ReadyIsTopological(l);
    EndsAreNeeded(l, v);
    hide Sweep;
    PhiNeededAfter(l, v, i, Sweep(l, 0).ranges[v].start);
    assert Here(l, v, i, 0);
    NeededAt(l, v, i, 0);
    hide Ready, Topological, Needed, LoopsEndWithLatch;
    NeededIsCovered(l, v, BlockStart(l.body, l.order, i));
  }

  lemma PhiNeededAfter(l: Layout, v: Value, i: nat, x: int)
    requires Ready(l) && i < |l.order| && PhiDef(l.body, l.order[i], v) && Needed(l, v, x)
    requires forall b :: 0 <= b < |l.g| ==> Reachable(l.g, b)
    ensures BlockStart(l.body, l.order, i) <= x && LiveAt(l.g, l.body, v, l.order[i], 0)
  {
    var q: nat, j: nat :| q < |l.order| && Here(l, v, q, j) && x == PointNumber(BlockStart(l.body, l.order, q), j);
    var p :| LivePath(l.g, l.body, v, p, j) && p[0] == l.order[q];
    LiveIsUsed(l.g, l.body, v, p, j);
    UsedPhiLive(l.g, l.body, l.order[i], v);
    var d, m, isPhi :| DefinedAt(l.body, v, d, m, isPhi) && UsesDominated(l.g, l.body, v, d, m, isPhi);
    LiveIsDominated(l.g, l.body, v, p, j, d, m, isPhi);
    hide StrictSsa, UniqueIds, LiveAt, Dominates;
    InOrder(l, i, q);
    if i < q {
      StartsGrow(l.body, l.order, i, q);
    }
  }

  lemma InOrder(l: Layout, i: nat, q: nat)
    requires Topological(l) && i < |l.order| && q < |l.order| && Dominates(l.g, l.order[i], l.order[q])
    ensures i <= q
  {
    assert Before(l.order, l.order[i], l.order[q]);
    assert IndexOf(l.order, l.order[i]) == i && IndexOf(l.order, l.order[q]) == q;
  }

  /** The value is used by the next instruction, it is live out of the block, or it has just been defined and
      nothing uses it any more. */
  ghost predicate LastPoint(l: Layout, v: Value, i: nat, j: nat)
    requires WellPlaced(l) && i < |l.order|
  {
    var b := l.order[i];
    || InstUse(l.body, b, j, v)
    || (j == |l.body[b].insts| && LiveAt(l.g, l.body, v, b, j))
    || (j > 0 && InstDef(l.body, b, j - 1, v) && !LiveAt(l.g, l.body, v, b, j))
  }

  lemma AliveGoesOn(l: Layout, v: Value, i: nat, j: nat)
    requires WellPlaced(l) && i < |l.order| && Here(l, v, i, j) && !LastPoint(l, v, i, j)
    ensures j < |l.body[l.order[i]].insts| && Here(l, v, i, j + 1)
  {
    hide LiveAt;
    LiveOn(l, v, i, j);
  }

  /** The range of a value ends behind the last point at which the value is needed. */
  lemma EndsAtLastUse(l: Layout, v: Value) returns (i: nat, j: nat)
    requires Ready(l) && LoopsEndWithLatch(l) && v in Sweep(l, 0).ranges
    ensures i < |l.order| && LastPoint(l, v, i, j)
    ensures Sweep(l, 0).ranges[v].end == PointNumber(BlockStart(l.body, l.order, i), j + 1)
  {
    hide Sweep, Ready, LoopsEndWithLatch, LastPoint, Here;
    ReadyIsTopological(l);
    hide Topological;
    EndsAreNeeded(l, v);
    var x := Sweep(l, 0).ranges[v].end - LIVE_NUMBER_STEP;
    i, j :| i < |l.order| && Here(l, v, i, j) && x == PointNumber(BlockStart(l.body, l.order, i), j);
    if !LastPoint(l, v, i, j) {
      AliveGoesOn(l, v, i, j);
      NeededAt(l, v, i, j + 1);
      NeededIsCovered(l, v, x + LIVE_NUMBER_STEP);
    }
  }

  /** A value that is live before an instruction that does not use it is needed after it. */
  lemma LiveOn(l: Layout, v: Value, i: nat, j: nat)
    requires WellPlaced(l) && i < |l.order| && j < |l.body[l.order[i]].insts|
    requires LiveAt(l.g, l.body, v, l.order[i], j) && !InstUse(l.body, l.order[i], j, v)
    ensures Here(l, v, i, j + 1)
  {
    var b := l.order[i];
    if !InstDef(l.body, b, j, v) {
      var p :| LivePath(l.g, l.body, v, p, j) && p[0] == b;
      if UseFrom(l.body, b, j, v) {
        var k: nat :| j <= k && InstUse(l.body, b, k, v) && forall m :: j <= m < k ==> !InstDef(l.body, b, m, v);
        assert UseFrom(l.body, b, j + 1, v);
      }
      assert LivePath(l.g, l.body, v, p, j + 1);
    }
  }

  /** All uses of the value that instruction `m` of `b` defines are instructions of the same block. */
  ghost predicate Local(l: Layout, b: Block, v: Value) {
    && (forall c, k :: InstUse(l.body, c, k, v) ==> c == b)
    && (forall c, s {:trigger PhiUse(l.body, c, s, v)} :: Edge(l.g, c, s) ==> !PhiUse(l.body, c, s, v))
  }

  /** A local value is live in its block only, before a use. */
  lemma LocalIsLocal(l: Layout, v: Value, i: nat, m: nat, p: seq<Block>, j: nat) returns (k: nat)
    requires Ready(l) && i < |l.order| && InstDef(l.body, l.order[i], m, v) && Local(l, l.order[i], v)
    requires LivePath(l.g, l.body, v, p, j)
    ensures p[0] == l.order[i] && m < j <= k && InstUse(l.body, l.order[i], k, v)
  {
    LiveIsUsed(l.g, l.body, v, p, j);
    var d, q, isPhi :| DefinedAt(l.body, v, d, q, isPhi) && UsesDominated(l.g, l.body, v, d, q, isPhi);
    assert d == l.order[i] && q == m && !isPhi;
    LiveIsDominated(l.g, l.body, v, p, j, d, m, false);
    var n := LocalEnd(l, v, d, m, p, j);
    k := n;
  }

  lemma {:induction false} LocalEnd(l: Layout, v: Value, d: Block, m: nat, p: seq<Block>, j: nat) returns (k: nat)
    requires WellPlaced(l) && InstDef(l.body, d, m, v) && Local(l, d, v) && LivePath(l.g, l.body, v, p, j)
    requires forall q :: InstUse(l.body, d, q, v) ==> m < q
    ensures p[0] == d && j <= k && InstUse(l.body, d, k, v)
    decreases |p|
  {
    if |p| == 1 {
      if !UseFrom(l.body, p[0], j, v) {
        var s :| s in l.g[p[0]] && PhiUse(l.body, p[0], s, v);
        assert Edge(l.g, p[0], s);
      }
      k :| j <= k && InstUse(l.body, p[0], k, v) && forall q :: j <= q < k ==> !InstDef(l.body, p[0], q, v);
    } else {
      var q := LocalEnd(l, v, d, m, p[1..], 0);
      NoLiveInto(l, v, d, m, p[1..]);
      k := q;
    }
  }

  /** A local value is not live into its own block. */
  lemma NoLiveInto(l: Layout, v: Value, d: Block, m: nat, p: seq<Block>)
    requires WellPlaced(l) && InstDef(l.body, d, m, v) && Local(l, d, v) && |p| > 0 && p[0] == d
    requires forall q :: InstUse(l.body, d, q, v) ==> m < q
    ensures !LivePath(l.g, l.body, v, p, 0)
  {}

  lemma UseIsCovered(l: Layout, v: Value, i: nat, k: nat)
    requires Ready(l) && i < |l.order| && InstUse(l.body, l.order[i], k, v)
    ensures Covered(Sweep(l, 0).ranges, v, PointNumber(BlockStart(l.body, l.order, i), k))
  {
    var b := l.order[i];
    assert UseFrom(l.body, b, k, v);
    assert LivePath(l.g, l.body, v, [b], k);
    LiveAfterDef(l, v, [b], i, k);
    hide Sweep, StrictSsa, UniqueIds;
    OwnBlockCovers(l, v, i, k);
  }

  /** The exact range of a value whose uses are all in its own block, whatever the order: from the definition
      to the last use, or to the next number if there is none. */
  lemma LocalRange(l: Layout, v: Value, i: nat, m: nat, k: nat)
    requires Ready(l) && i < |l.order| && InstDef(l.body, l.order[i], m, v) && Local(l, l.order[i], v)
    requires InstUse(l.body, l.order[i], k, v) || k == m + 1
    requires forall q: nat :: InstUse(l.body, l.order[i], q, v) ==> q <= k
    ensures v in Sweep(l, 0).ranges
    ensures var start := BlockStart(l.body, l.order, i);
      Sweep(l, 0).ranges[v] == Range(PointNumber(start, m + 1), PointNumber(start, k + 1))
  {
    hide Sweep, Ready, Local, Topological, Needed, BlockStart;
    ReadyIsTopological(l);
    StartsAtDefinition(l, v, i, m);
    EndsAreNeeded(l, v);
    LocalEndsAt(l, v, i, m, k, Sweep(l, 0).ranges[v].end - LIVE_NUMBER_STEP);
    if InstUse(l.body, l.order[i], k, v) {
      UseIsCovered(l, v, i, k);
      LocalStep(l, v, i, k, Sweep(l, 0).ranges[v].end - LIVE_NUMBER_STEP);
    }
  }

  lemma LocalStep(l: Layout, v: Value, i: nat, k: nat, x: int)
    requires WellPlaced(l) && i < |l.order| && Needed(l, v, x)
    requires PointNumber(BlockStart(l.body, l.order, i), k) < x + LIVE_NUMBER_STEP
    ensures PointNumber(BlockStart(l.body, l.order, i), k) <= x
  {
    var r := StartIsEven(l.body, l.order, i);
    var q := NeededIsEven(l, v, x);
  }

  /** A local value is needed up to its last use only. */
  lemma LocalEndsAt(l: Layout, v: Value, i: nat, m: nat, k: nat, x: int)
    requires Ready(l) && i < |l.order| && InstDef(l.body, l.order[i], m, v) && Local(l, l.order[i], v)
    requires InstUse(l.body, l.order[i], k, v) || k == m + 1
    requires forall q: nat :: InstUse(l.body, l.order[i], q, v) ==> q <= k
    requires Needed(l, v, x)
    ensures PointNumber(BlockStart(l.body, l.order, i), m + 1) <= x
    ensures x <= PointNumber(BlockStart(l.body, l.order, i), k)
  {
    NeededAfterDef(l, v, i, m, x);
    var q: nat, j: nat :| q < |l.order| && Here(l, v, q, j) && x == PointNumber(BlockStart(l.body, l.order, q), j);
    if InstUse(l.body, l.order[i], k, v) {
      LiveInput(l.g, l.body, l.order[i], k, v);
      var p :| LivePath(l.g, l.body, v, p, k) && p[0] == l.order[i];
      var _ := LocalIsLocal(l, v, i, m, p, k);
    }
    if LiveAt(l.g, l.body, v, l.order[q], j) {
      var p :| LivePath(l.g, l.body, v, p, j) && p[0] == l.order[q];
      var n := LocalIsLocal(l, v, i, m, p, j);
      assert q == i && n <= k;
    } else {
      assert InstDef(l.body, l.order[q], j - 1, v);
      assert q == i && j == m + 1;
    }
  }

  /** The whole pass: if latches are shared, every range is the smallest interval that it must be. */
  lemma PassIsExact(g: Graph, t: Loops, rank: seq<nat>, order: seq<Block>, body: Code, v: Value, x: nat)
    requires Finished(g, t, rank, order) && LatchesShared(g, t)
    requires |body| == |g| && StrictSsa(g, body) && UniqueIds(body)
    ensures var l := Layout(g, body, order, Latches(g, t));
      Ready(l) && (Covered(Sweep(l, 0).ranges, v, x) <==> Between(l, v, x))
  {
    hide StrictSsa, UniqueIds, Finished, LatchesShared, Topological, LoopsEndWithLatch, Sweep, Between;
    EndsWithLatchIffShared(g, t, rank, order, body);
    OrderIsTopological(g, t, rank, order, body);
    RangeIsHull(Layout(g, body, order, Latches(g, t)), v, x);
  }

  // ---- Holes -------------------------------------------------------------------------------------------

  /** A branch: block 0 defines value 0 and leads to block 1 and to block 2, which uses it. */
  const FORK: Layout :=
    Layout([[1, 2], [], []],
           [BasicBlock([], [Inst(0, [])]), BasicBlock([], [Inst(1, [])]), BasicBlock([], [Inst(2, [0])])],
           [0, 1, 2], map[])

  lemma ForkUses(b: Block, k: nat, v: Value)
    ensures InstUse(FORK.body, b, k, v) <==> b == 2 && k == 0 && v == 0
    ensures InstDef(FORK.body, b, k, v) <==> b == v < 3 && k == 0
    ensures !PhiDef(FORK.body, b, v) && forall s :: !PhiUse(FORK.body, b, s, v)
  {}

  lemma ForkStrict()
    ensures StrictSsa(FORK.g, FORK.body) && UniqueIds(FORK.body)
  {
    forall b, k, v
      ensures InstUse(FORK.body, b, k, v) <==> b == 2 && k == 0 && v == 0
      ensures InstDef(FORK.body, b, k, v) <==> b == v < 3 && k == 0
      ensures !PhiDef(FORK.body, b, v) && forall s :: !PhiUse(FORK.body, b, s, v)
    {
      ForkUses(b, k, v);
    }
    assert FORK.body[0].phis == [] && FORK.body[1].phis == [] && FORK.body[2].phis == [];
    assert |FORK.body| == |FORK.g| == 3;
    ForkStarts();
    OneUse(FORK.g, FORK.body);
  }

  /** A program with three definitions and a single use is in strict SSA form. */
  lemma OneUse(g: Graph, body: Code)
    requires forall b, k, v :: InstUse(body, b, k, v) <==> b == 2 && k == 0 && v == 0
    requires forall b, k, v :: InstDef(body, b, k, v) <==> b == v < 3 && k == 0
    requires (forall b, v :: !PhiDef(body, b, v)) && forall b, s, v :: !PhiUse(body, b, s, v)
    requires |body| == |g| && Dominates(g, 0, 2) && forall b :: 0 <= b < |body| ==> body[b].phis == []
    ensures StrictSsa(g, body) && UniqueIds(body)
  {
    hide InstUse, InstDef, PhiDef, PhiUse, Dominates;
    forall v | Used(g, body, v)
      ensures exists d, m, isPhi :: DefinedAt(body, v, d, m, isPhi) && UsesDominated(g, body, v, d, m, isPhi)
    {
      assert DefinedAt(body, 0, 0, 0, false) && UsesDominated(g, body, 0, 0, 0, false);
    }
  }

  /** Every path starts in block 0, and two blocks can be reached without block 2. */
  lemma ForkStarts()
    ensures Dominates(FORK.g, 0, 2)
    ensures forall d: nat, b: nat :: b < d < 3 ==> !Dominates(FORK.g, d, b)
  {
    var g := FORK.g;
    assert g[0] == [1, 2];
    assert PathFromTo(g, [0], START, 0) && PathFromTo(g, [0, 1], START, 1);
  }

  lemma ForkPlaces(b: Block)
    ensures b in FORK.order <==> b < 3
    ensures b < 3 ==> IndexOf(FORK.order, b) == b
  {
    if b < 3 {
      assert FORK.order[b] == b;
    }
  }

  lemma ForkEdges(b: Block, s: Block)
    ensures Edge(FORK.g, b, s) <==> b == 0 && 1 <= s <= 2
  {}

  lemma ForkTopological()
    ensures Topological(FORK) && LoopsEndWithLatch(FORK)
  {
    ForkStarts();
    forall b: nat ensures (b in FORK.order <==> b < 3) && (b < 3 ==> IndexOf(FORK.order, b) == b) {
      ForkPlaces(b);
    }
    forall b: nat, s: nat ensures Edge(FORK.g, b, s) <==> b == 0 && 1 <= s <= 2 {
      ForkEdges(b, s);
    }
    hide Dominates, IndexOf, Edge;
  }

  lemma ForkNeeds()
    ensures WellPlaced(FORK) && Needed(FORK, 0, 2) && Needed(FORK, 0, 8) && BlockStart(FORK.body, FORK.order, 1) == 4
  {
    ForkUses(0, 0, 0);
    ForkUses(2, 0, 0);
    LiveInput(FORK.g, FORK.body, 2, 0, 0);
    hide LiveAt;
    assert Here(FORK, 0, 0, 1) && Here(FORK, 0, 2, 0);
    NeededAt(FORK, 0, 0, 1);
    NeededAt(FORK, 0, 2, 0);
    assert BlockStart(FORK.body, FORK.order, 1) == 4 && BlockStart(FORK.body, FORK.order, 2) == 8;
  }

  /** A range may have holes: value 0 is not live in block 1, which lies between its definition and its use,
      and still its range covers that block. */
  lemma RangesHaveHoles()
    ensures Ready(FORK) && LoopsEndWithLatch(FORK)
    ensures Covered(Sweep(FORK, 0).ranges, 0, PointNumber(BlockStart(FORK.body, FORK.order, 1), 0))
    ensures !Here(FORK, 0, 1, 0)
  {
    ForkStrict();
    ForkTopological();
    ForkDead();
    ForkNeeds();
    hide Topological, StrictSsa, UniqueIds, LoopsEndWithLatch, Sweep, Needed, Here, BlockStart, Covered;
    assert Between(FORK, 0, 4);
    RangeIsHull(FORK, 0, 4);
  }

  lemma ForkDead()
    ensures WellPlaced(FORK) && !Here(FORK, 0, 1, 0)
  {
    ForkUses(1, 0, 0);
    forall p | |p| > 0 && p[0] == 1 ensures !LivePath(FORK.g, FORK.body, 0, p, 0) {}
  }
}
