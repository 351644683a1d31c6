/** Soundness of the single-sweep liveness: every point after which a value is live lies in the
    value's range, if and only if every loop ends with its latch in the linear order. */
module Coverage {
  import opened Cfg
  import opened Ranges
  import opened Ssa
  import opened LiveRanges

  /** `x` belongs to the natural loop with header `h` and latch `t`: it is the header, or it
      reaches the latch without meeting the header. */
  ghost predicate InNaturalLoop(g: Graph, h: Block, t: Block, x: Block) {
    x == h || exists p :: PathFromTo(g, p, x, t) && h !in p
  }

  ghost predicate Before(order: seq<Block>, a: Block, b: Block) {
    a in order && b in order && IndexOf(order, a) <= IndexOf(order, b)
  }

  ghost predicate NoRepeats(order: seq<Block>) {
    forall i, j :: 0 <= i < j < |order| ==> order[i] != order[j]
  }

  /** A linear order as the pass requires it: each block once, closed under successors, dominators
      first, and every edge forward except the one from the latch of a header to the header. */
  ghost predicate Topological(l: Layout) {
    && WellPlaced(l) && Valid(l.g) && NoRepeats(l.order)
    && (forall b, s :: b in l.order && Edge(l.g, b, s) ==>
          s in l.order && (IndexOf(l.order, b) < IndexOf(l.order, s) || (s in l.latch && l.latch[s] == b)))
    && (forall d, b :: b in l.order && d in l.order && Dominates(l.g, d, b) ==> Before(l.order, d, b))
    && (forall h :: h in l.latch && h in l.order ==>
          Edge(l.g, l.latch[h], h) && Dominates(l.g, h, l.latch[h]))
  }

  /** No block of a natural loop comes after the latch. */
  ghost predicate LoopsEndWithLatch(l: Layout)
    requires WellPlaced(l)
  {
    forall h, x :: h in l.order && h in l.latch && x in l.order ==>
      InNaturalLoop(l.g, h, l.latch[h], x) ==> Before(l.order, x, l.latch[h])
  }

  ghost predicate Covered(m: RangeMap, v: Value, pt: nat) {
    v in m && m[v].Contains(pt)
  }

  /** No definition of `v` in the block is numbered after `pt`. */
  ghost predicate DefsBefore(insts: seq<Inst>, k: nat, start: nat, v: Value, pt: nat)
    requires k <= |insts|
  {
    forall m :: 0 <= m < k && insts[m].id == v ==> PointNumber(start, m + 1) <= pt
  }

  lemma AddRangeCovers(m: RangeMap, w: Value, r: Range, v: Value, pt: nat)
    requires Covered(m, v, pt) || (w == v && r.Contains(pt))
    ensures Covered(AddRange(m, w, r), v, pt)
  {
    if w == v && v in m {
      var u := Union(m[v], r);
      assert m[v].Contains(pt) || r.Contains(pt);
    }
  }

  lemma {:induction false} AddInputsCovers(m: RangeMap, ins: seq<Value>, r: Range, v: Value, pt: nat)
    requires Covered(m, v, pt) || (v in ins && r.Contains(pt))
    ensures Covered(AddInputs(m, ins, r), v, pt)
    decreases |ins|
  {
    if ins != [] {
      if Covered(m, v, pt) || (ins[0] == v && r.Contains(pt)) {
        AddRangeCovers(m, ins[0], r, v, pt);
      } else {
        assert v in ins[1..];
      }
      AddInputsCovers(AddRange(m, ins[0], r), ins[1..], r, v, pt);
    }
  }

  lemma AddAllCovers(m: RangeMap, s: set<Value>, r: Range, v: Value, pt: nat)
    requires Covered(m, v, pt) || (v in s && r.Contains(pt))
    ensures Covered(AddAll(m, s, r), v, pt)
  {}

  lemma StepCovers(m: RangeMap, inst: Inst, start: nat, num: nat, v: Value, pt: nat)
    requires (Covered(m, v, pt) && (inst.id == v ==> num <= pt)) || (v in inst.inputs && start <= pt < num)
    ensures Covered(StepRanges(m, inst, start, num), v, pt)
  {
    AddInputsCovers(Define(m, inst.id, num), inst.inputs, Range(start, num), v, pt);
  }

  /** What is covered stays covered while earlier instructions are swept. */
  lemma {:induction false} SweepKeeps(m: RangeMap, insts: seq<Inst>, k: nat, start: nat, v: Value, pt: nat)
    requires k <= |insts| && Covered(m, v, pt) && DefsBefore(insts, k, start, v, pt)
    ensures Covered(SweepRanges(m, insts, k, start), v, pt)
    decreases k
  {
    if k > 0 {
      StepCovers(m, insts[k - 1], start, PointNumber(start, k), v, pt);
      SweepKeeps(StepRanges(m, insts[k - 1], start, PointNumber(start, k)), insts, k - 1, start, v, pt);
    }
  }

  /** A use after the first `j` instructions covers that point. */
  lemma {:induction false} SweepCoversUse(m: RangeMap, insts: seq<Inst>, k: nat, start: nat, v: Value,
                                          i: nat, pt: nat)
    requires i < k <= |insts| && v in insts[i].inputs
    requires start <= pt < PointNumber(start, i + 1) && DefsBefore(insts, i, start, v, pt)
    ensures Covered(SweepRanges(m, insts, k, start), v, pt)
    decreases k
  {
    var m' := StepRanges(m, insts[k - 1], start, PointNumber(start, k));
    if i == k - 1 {
      StepCovers(m, insts[i], start, PointNumber(start, k), v, pt);
      SweepKeeps(m', insts, i, start, v, pt);
    } else {
      SweepCoversUse(m', insts, k - 1, start, v, i, pt);
    }
  }

  lemma {:induction false} SweepLiveKeeps(live: set<Value>, insts: seq<Inst>, k: nat, v: Value)
    requires k <= |insts| && v in live && forall m :: 0 <= m < k ==> insts[m].id != v
    ensures v in SweepLive(live, insts, k)
    decreases k
  {
    if k > 0 {
      SweepLiveKeeps(StepLive(live, insts[k - 1]), insts, k - 1, v);
    }
  }

  lemma {:induction false} SweepLiveUse(live: set<Value>, insts: seq<Inst>, k: nat, v: Value, i: nat)
    requires i < k <= |insts| && v in insts[i].inputs && forall m :: 0 <= m < i ==> insts[m].id != v
    ensures v in SweepLive(live, insts, k)
    decreases k
  {
    if i == k - 1 {
      SweepLiveKeeps(StepLive(live, insts[i]), insts, i, v);
    } else {
      SweepLiveUse(StepLive(live, insts[k - 1]), insts, k - 1, v, i);
    }
  }

  lemma {:induction false} InitialLiveHas(body: Code, ss: seq<Block>, b: Block, sets: map<Block, set<Value>>,
                                          s: Block, v: Value)
    requires (forall k :: 0 <= k < |ss| ==> ss[k] < |body|) && s in ss
    requires (s in sets && v in sets[s]) || PhiUse(body, b, s, v)
    ensures v in InitialLive(body, ss, b, sets)
    decreases |ss|
  {
    if ss[0] == s {
      assert v in FromSuccessor(body, b, s, sets);
    } else {
      InitialLiveHas(body, ss[1..], b, sets, s, v);
    }
  }

  lemma {:induction false} StartsGrow(body: Code, order: seq<Block>, i: nat, j: nat)
    requires i < j <= |order| && forall k :: 0 <= k < |order| ==> order[k] < |body|
    ensures BlockStart(body, order, i) + BlockLength(body[order[i]]) <= BlockStart(body, order, j)
    decreases j
  {
    if j > i + 1 {
      StartsGrow(body, order, i, j - 1);
    }
  }

  lemma BlockKeeps(l: Layout, st: Live, i: nat, v: Value, pt: nat)
    requires WellPlaced(l) && i < |l.order| && Covered(st.ranges, v, pt)
    requires var insts := l.body[l.order[i]].insts;
      DefsBefore(insts, |insts|, BlockStart(l.body, l.order, i), v, pt)
    ensures Covered(SweepBlock(l, st, i).ranges, v, pt)
  {
    var b := l.order[i];
    var bb := l.body[b];
    var r := BlockRange(l, i);
    var live := InitialLive(l.body, l.g[b], b, st.sets);
    var m := AddAll(st.ranges, live, r);
    AddAllCovers(st.ranges, live, r, v, pt);
    SweepKeeps(m, bb.insts, |bb.insts|, r.start, v, pt);
  }

  /** A point of the block is covered for every value that is used later in the block or that is
      in the initial live set. */
  lemma BlockCovers(l: Layout, st: Live, i: nat, v: Value, j: nat)
    requires WellPlaced(l) && i < |l.order| && j <= |l.body[l.order[i]].insts|
    requires var insts := l.body[l.order[i]].insts;
      var start := BlockStart(l.body, l.order, i);
      DefsBefore(insts, |insts|, start, v, PointNumber(start, j))
    requires UseFrom(l.body, l.order[i], j, v)
          || v in InitialLive(l.body, l.g[l.order[i]], l.order[i], st.sets)
    ensures Covered(SweepBlock(l, st, i).ranges, v, PointNumber(BlockStart(l.body, l.order, i), j))
  {
    var b := l.order[i];
    var bb := l.body[b];
    var r := BlockRange(l, i);
    var pt := PointNumber(r.start, j);
    var live := InitialLive(l.body, l.g[b], b, st.sets);
    var m := AddAll(st.ranges, live, r);
    if v in live {
      assert r.Contains(pt);
      AddAllCovers(st.ranges, live, r, v, pt);
      SweepKeeps(m, bb.insts, |bb.insts|, r.start, v, pt);
    } else {
      var k :| j <= k && InstUse(l.body, b, k, v);
      SweepCoversUse(m, bb.insts, |bb.insts|, r.start, v, k, pt);
    }
  }

  /** A value live into the block is in the block's final live set. */
  lemma BlockLiveIn(l: Layout, st: Live, i: nat, v: Value)
    requires WellPlaced(l) && i < |l.order| && !PhiDef(l.body, l.order[i], v)
    requires UseFrom(l.body, l.order[i], 0, v)
          || (NoDefFrom(l.body, l.order[i], 0, v)
              && v in InitialLive(l.body, l.g[l.order[i]], l.order[i], st.sets))
    ensures v in SweepBlock(l, st, i).sets[l.order[i]]
  {
    var b := l.order[i];
    var bb := l.body[b];
    var live := InitialLive(l.body, l.g[b], b, st.sets);
    if UseFrom(l.body, b, 0, v) {
      var k: nat :| InstUse(l.body, b, k, v) && forall m :: 0 <= m < k ==> !InstDef(l.body, b, m, v);
      forall m | 0 <= m < k ensures bb.insts[m].id != v {
        assert !InstDef(l.body, b, m, v);
      }
      SweepLiveUse(live, bb.insts, |bb.insts|, v, k);
    } else {
      forall m | 0 <= m < |bb.insts| ensures bb.insts[m].id != v {
        assert !InstDef(l.body, b, m, v);
      }
      SweepLiveKeeps(live, bb.insts, |bb.insts|, v);
    }
  }

  /** The values live into a header are extended over the whole loop. */
  lemma HeaderCovers(l: Layout, st: Live, i: nat, v: Value, pt: nat)
    requires WellPlaced(l) && i < |l.order| && l.order[i] in l.latch
    requires v in SweepBlock(l, st, i).sets[l.order[i]]
    requires BlockStart(l.body, l.order, i) <= pt
    requires pt < BlockRange(l, IndexOf(l.order, l.latch[l.order[i]])).end
    ensures Covered(SweepBlock(l, st, i).ranges, v, pt)
  {}

  /** Final live sets do not change once the block has been swept. */
  lemma {:induction false} SetsStable(l: Layout, i: nat, j: nat)
    requires WellPlaced(l) && NoRepeats(l.order) && i <= j < |l.order|
    ensures l.order[j] in Sweep(l, j).sets && l.order[j] in Sweep(l, i).sets
    ensures Sweep(l, i).sets[l.order[j]] == Sweep(l, j).sets[l.order[j]]
    decreases j - i
  {
    hide *;
    if i < j {
      SetsStable(l, i + 1, j);
      SetsOther(l, i, j);
    } else {
      SetsOwn(l, i);
    }
  }

  lemma SetsOwn(l: Layout, i: nat)
    requires WellPlaced(l) && i < |l.order|
    ensures l.order[i] in Sweep(l, i).sets
  {}

  lemma SetsOther(l: Layout, i: nat, j: nat)
    requires WellPlaced(l) && NoRepeats(l.order) && i < j < |l.order|
    requires l.order[j] in Sweep(l, i + 1).sets
    ensures l.order[j] in Sweep(l, i).sets
    ensures Sweep(l, i).sets[l.order[j]] == Sweep(l, i + 1).sets[l.order[j]]
  {
    assert l.order[i] != l.order[j];
  }

  ghost predicate DefsAllBefore(l: Layout, v: Value, pt: nat)
    requires WellPlaced(l)
  {
    forall i :: 0 <= i < |l.order| ==>
      var insts := l.body[l.order[i]].insts;
      DefsBefore(insts, |insts|, BlockStart(l.body, l.order, i), v, pt)
  }

  lemma {:induction false} CoverStable(l: Layout, i: nat, j: nat, v: Value, pt: nat)
    requires WellPlaced(l) && i <= j <= |l.order| && DefsAllBefore(l, v, pt)
    requires Covered(Sweep(l, j).ranges, v, pt)
    ensures Covered(Sweep(l, i).ranges, v, pt)
    decreases j - i
  {
    hide *;
    if i < j {
      CoverStable(l, i + 1, j, v, pt);
      SweepStep(l, i);
      DefsAt(l, v, pt, i);
      BlockKeeps(l, Sweep(l, i + 1), i, v, pt);
    }
  }

  lemma SweepStep(l: Layout, i: nat)
    requires WellPlaced(l) && i < |l.order|
    ensures Sweep(l, i) == SweepBlock(l, Sweep(l, i + 1), i)
  {}

  lemma DefsAt(l: Layout, v: Value, pt: nat, i: nat)
    requires WellPlaced(l) && DefsAllBefore(l, v, pt) && i < |l.order|
    ensures l.order[i] < |l.body|
    ensures forall k :: 0 <= k < |l.order| ==> l.order[k] < |l.body|
    ensures var insts := l.body[l.order[i]].insts;
      DefsBefore(insts, |insts|, BlockStart(l.body, l.order, i), v, pt)
  {}

  /** Where a value is live, all its definitions have smaller numbers. */
  lemma LiveAfterDef(l: Layout, v: Value, p: seq<Block>, i: nat, j: nat)
    requires Topological(l) && StrictSsa(l.g, l.body) && i < |l.order|
    requires LivePath(l.g, l.body, v, p, j) && p[0] == l.order[i]
    ensures DefsAllBefore(l, v, PointNumber(BlockStart(l.body, l.order, i), j))
  {
    LiveIsUsed(l.g, l.body, v, p, j);
    var d, m, isPhi :| DefinedAt(l.body, v, d, m, isPhi) && UsesDominated(l.g, l.body, v, d, m, isPhi);
    LiveIsDominated(l.g, l.body, v, p, j, d, m, isPhi);
    forall k | 0 <= k < |l.order|
      ensures var insts := l.body[l.order[k]].insts;
        DefsBefore(insts, |insts|, BlockStart(l.body, l.order, k), v,
                   PointNumber(BlockStart(l.body, l.order, i), j))
    {
      DefBeforePoint(l, v, d, m, isPhi, i, j, k);
    }
  }

  lemma DefBeforePoint(l: Layout, v: Value, d: Block, m: nat, isPhi: bool, i: nat, j: nat, k: nat)
    requires Topological(l) && i < |l.order| && k < |l.order|
    requires DefinedAt(l.body, v, d, m, isPhi) && Dominates(l.g, d, l.order[i])
    requires d == l.order[i] && !isPhi ==> m < j
    ensures var insts := l.body[l.order[k]].insts;
      DefsBefore(insts, |insts|, BlockStart(l.body, l.order, k), v,
                 PointNumber(BlockStart(l.body, l.order, i), j))
  {
    var insts := l.body[l.order[k]].insts;
    forall q | 0 <= q < |insts| && insts[q].id == v
      ensures PointNumber(BlockStart(l.body, l.order, k), q + 1) <= PointNumber(BlockStart(l.body, l.order, i), j)
    {
      assert InstDef(l.body, l.order[k], q, v);
      assert d == l.order[k] && q == m && !isPhi;
      assert Before(l.order, d, l.order[i]);
      assert IndexOf(l.order, l.order[k]) == k && IndexOf(l.order, l.order[i]) == i;
      if k < i {
        StartsGrow(l.body, l.order, k, i);
      }
    }
  }

  /** `v` is in the final live set of block `b`. */
  ghost predicate Held(l: Layout, v: Value, b: Block)
    requires WellPlaced(l)
  {
    b in l.order && b in Sweep(l, 0).sets && v in Sweep(l, 0).sets[b]
  }

  lemma HeldAtSweep(l: Layout, v: Value, i: nat)
    requires WellPlaced(l) && NoRepeats(l.order) && i < |l.order|
    ensures Held(l, v, l.order[i]) <==> v in SweepBlock(l, Sweep(l, i + 1), i).sets[l.order[i]]
  {
    SetsStable(l, 0, i);
    SweepStep(l, i);
  }

  /** A value held by a successor further down the order is in the initial live set. */
  lemma HeldFlowsBack(l: Layout, v: Value, i: nat, s: Block)
    requires WellPlaced(l) && NoRepeats(l.order) && i < |l.order|
    requires Edge(l.g, l.order[i], s) && Held(l, v, s) && i < IndexOf(l.order, s)
    ensures v in InitialLive(l.body, l.g[l.order[i]], l.order[i], Sweep(l, i + 1).sets)
  {
    var k := IndexOf(l.order, s);
    SetsStable(l, 0, k);
    SetsStable(l, i + 1, k);
    hide Sweep;
    InitialLiveHas(l.body, l.g[l.order[i]], l.order[i], Sweep(l, i + 1).sets, s, v);
  }

  /** A predecessor of a loop member other than the header is a loop member. */
  lemma PredInLoop(g: Graph, h: Block, t: Block, b: Block, c: Block)
    requires b < |g| && Edge(g, b, c) && InNaturalLoop(g, h, t, c) && c != h
    ensures InNaturalLoop(g, h, t, b)
  {
    if b != h {
      var p :| PathFromTo(g, p, c, t) && h !in p;
      assert c < |g|;
      EdgePath(g, b, c);
      PathConcat(g, [b, c], p);
    }
  }

  lemma LatchInLoop(g: Graph, h: Block, t: Block)
    requires t < |g|
    ensures InNaturalLoop(g, h, t, t)
  {
    if t != h {
      SinglePath(g, t);
      assert h !in [t];
    }
  }

  /** The blocks whose live sets answer for the values live into `b`: `b` itself, or the header of
      a loop around `b`. */
  ghost predicate Anchors(l: Layout, w: Block, b: Block) {
    w == b || (w in l.latch && InNaturalLoop(l.g, w, l.latch[w], b))
  }

  /** Moving an anchor of `c` back over the edge from `b`. */
  lemma AnchorBack(l: Layout, w: Block, b: Block, c: Block)
    requires Topological(l) && b in l.order && Edge(l.g, b, c) && Anchors(l, w, c) && w in l.order
    ensures || (w in l.latch && InNaturalLoop(l.g, w, l.latch[w], b))
            || (w == c && IndexOf(l.order, b) < IndexOf(l.order, c))
  {
    if w == c {
      if c in l.latch && l.latch[c] == b {
        LatchInLoop(l.g, c, b);
      }
    } else {
      PredInLoop(l.g, w, l.latch[w], b, c);
    }
  }

  /** A value live into a block is held by an anchor of the block, although every block is swept
      only once. */
  lemma {:induction false} LiveInHeld(l: Layout, v: Value, p: seq<Block>) returns (w: Block)
    requires Topological(l) && LivePath(l.g, l.body, v, p, 0)
    requires p[0] in l.order && !PhiDef(l.body, p[0], v)
    ensures w in l.order && Held(l, v, w) && Anchors(l, w, p[0])
    decreases |p|
  {
    var b := p[0];
    var i := IndexOf(l.order, b);
    if |p| == 1 {
      hide Sweep, SweepBlock;
      LastBlockLiveIn(l, v, p, i);
      w := b;
    } else {
      var c := p[1];
      hide Sweep, SweepBlock;
      assert Edge(l.g, b, c) && c in l.order;
      w := LiveInHeld(l, v, p[1..]);
      AnchorBack(l, w, b, c);
      if !Anchors(l, w, b) {
        HeldFlowsBack(l, v, i, c);
        BlockLiveIn(l, Sweep(l, i + 1), i, v);
        HeldAtSweep(l, v, i);
        w := b;
      }
    }
  }

  lemma LastBlockLiveIn(l: Layout, v: Value, p: seq<Block>, i: nat)
    requires Topological(l) && i < |l.order| && |p| == 1 && p[0] == l.order[i]
    requires LivePath(l.g, l.body, v, p, 0) && !PhiDef(l.body, p[0], v)
    ensures Held(l, v, p[0])
  {
    var b := p[0];
    if !UseFrom(l.body, b, 0, v) {
      PhiUseIsInitial(l, v, b, i, 0);
    }
    hide Sweep, SweepBlock;
    BlockLiveIn(l, Sweep(l, i + 1), i, v);
    HeldAtSweep(l, v, i);
  }

  lemma PhiUseIsInitial(l: Layout, v: Value, b: Block, i: nat, j: nat)
    requires Topological(l) && i < |l.order| && b == l.order[i]
    requires exists s :: s in l.g[b] && PhiUse(l.body, b, s, v)
    ensures v in InitialLive(l.body, l.g[b], b, Sweep(l, i + 1).sets)
  {
    var s :| s in l.g[b] && PhiUse(l.body, b, s, v);
    InitialLiveHas(l.body, l.g[b], b, Sweep(l, i + 1).sets, s, v);
  }

  lemma HeaderDominatesLoop(g: Graph, h: Block, t: Block, x: Block)
    requires Dominates(g, h, t) && InNaturalLoop(g, h, t, x)
    ensures Dominates(g, h, x)
  {
    if x == h {
      forall p | PathFromTo(g, p, START, x) ensures h in p {
        assert p[|p| - 1] in p;
      }
    } else {
      var q :| PathFromTo(g, q, x, t) && h !in q;
      forall p | PathFromTo(g, p, START, x) ensures h in p {
        PathConcat(g, p, q);
        assert h in p + q[1..];
      }
    }
  }

  lemma LoopOrder(l: Layout, w: Block, i: nat)
    requires Topological(l) && LoopsEndWithLatch(l) && w in l.order && w in l.latch && i < |l.order|
    requires InNaturalLoop(l.g, w, l.latch[w], l.order[i])
    ensures WellPlaced(l) && l.latch[w] in l.order
    ensures IndexOf(l.order, w) <= i <= IndexOf(l.order, l.latch[w])
  {
    HeaderDominatesLoop(l.g, w, l.latch[w], l.order[i]);
    assert Before(l.order, w, l.order[i]) && Before(l.order, l.order[i], l.latch[w]);
    assert IndexOf(l.order, l.order[i]) == i;
  }

  /** Every point of a member block lies between the start of the header and the end of the
      latch. */
  lemma PointInLoop(l: Layout, w: Block, i: nat, j: nat)
    requires Topological(l) && LoopsEndWithLatch(l) && w in l.order && w in l.latch && i < |l.order|
    requires InNaturalLoop(l.g, w, l.latch[w], l.order[i]) && j <= |l.body[l.order[i]].insts|
    ensures var pt := PointNumber(BlockStart(l.body, l.order, i), j);
      BlockStart(l.body, l.order, IndexOf(l.order, w)) <= pt
        < BlockRange(l, IndexOf(l.order, l.latch[w])).end
  {
    hide Topological, LoopsEndWithLatch, InNaturalLoop;
    LoopOrder(l, w, i);
    var k := IndexOf(l.order, w);
    var e := IndexOf(l.order, l.latch[w]);
    if k < i {
      StartsGrow(l.body, l.order, k, i);
    }
    if i < e {
      StartsGrow(l.body, l.order, i, e);
    }
  }

  /** The extension over the loop of `w` reaches every point of the member block `i`. */
  lemma LoopCovers(l: Layout, v: Value, w: Block, i: nat, j: nat)
    requires Topological(l) && LoopsEndWithLatch(l) && w in l.order && w in l.latch && i < |l.order|
    requires InNaturalLoop(l.g, w, l.latch[w], l.order[i]) && Held(l, v, w)
    requires j <= |l.body[l.order[i]].insts|
    requires DefsAllBefore(l, v, PointNumber(BlockStart(l.body, l.order, i), j))
    ensures Covered(Sweep(l, 0).ranges, v, PointNumber(BlockStart(l.body, l.order, i), j))
  {
    PointInLoop(l, w, i, j);
    IndexOfElement(l, i);
    var k := IndexOf(l.order, w);
    var pt := PointNumber(BlockStart(l.body, l.order, i), j);
    hide Sweep, SweepBlock, DefsAllBefore, Topological, LoopsEndWithLatch, Covered, BlockRange, Held;
    HeldAtSweep(l, v, k);
    HeaderCovers(l, Sweep(l, k + 1), k, v, pt);
    SweepStep(l, k);
    CoverStable(l, 0, k, v, pt);
  }

  /** A point of a block is covered when the value is used later in the block or held by the
      initial live set of the block's own sweep. */
  lemma OwnBlockCovers(l: Layout, v: Value, i: nat, j: nat)
    requires WellPlaced(l) && i < |l.order| && j <= |l.body[l.order[i]].insts|
    requires DefsAllBefore(l, v, PointNumber(BlockStart(l.body, l.order, i), j))
    requires UseFrom(l.body, l.order[i], j, v)
          || v in InitialLive(l.body, l.g[l.order[i]], l.order[i], Sweep(l, i + 1).sets)
    ensures Covered(Sweep(l, 0).ranges, v, PointNumber(BlockStart(l.body, l.order, i), j))
  {
    var pt := PointNumber(BlockStart(l.body, l.order, i), j);
    DefsAt(l, v, pt, i);
    hide Sweep, SweepBlock, DefsAllBefore, Covered, UseFrom;
    BlockCovers(l, Sweep(l, i + 1), i, v, j);
    SweepStep(l, i);
    CoverStable(l, 0, i, v, pt);
  }

  /** Main theorem: when every loop ends with its latch, a value that is live after the first `j`
      instructions of a block has that point in its range. */
  lemma LiveCovered(l: Layout, v: Value, i: nat, j: nat)
    requires Topological(l) && LoopsEndWithLatch(l) && StrictSsa(l.g, l.body)
    requires i < |l.order| && LiveAt(l.g, l.body, v, l.order[i], j)
    ensures Covered(Sweep(l, 0).ranges, v, PointNumber(BlockStart(l.body, l.order, i), j))
  {
    var p :| LivePath(l.g, l.body, v, p, j) && p[0] == l.order[i];
    LiveAfterDef(l, v, p, i, j);
    var b := l.order[i];
    if |p| == 1 {
      if !UseFrom(l.body, b, j, v) {
        PhiUseIsInitial(l, v, b, i, j);
      }
      hide Sweep;
      OwnBlockCovers(l, v, i, j);
    } else {
      var c := p[1];
      assert Edge(l.g, b, c) && c in l.order;
      hide Sweep, DefsAllBefore, StrictSsa;
      var w := LiveInHeld(l, v, p[1..]);
      AnchorBack(l, w, b, c);
      hide Covered, Topological, LoopsEndWithLatch;
      if w in l.latch && InNaturalLoop(l.g, w, l.latch[w], b) {
        LoopCovers(l, v, w, i, j);
      } else {
        IndexOfElement(l, i);
        HeldFlowsBack(l, v, i, c);
        OwnBlockCovers(l, v, i, j);
      }
    }
  }

  lemma IndexOfElement(l: Layout, i: nat)
    requires Topological(l) && i < |l.order|
    ensures WellPlaced(l) && NoRepeats(l.order) && IndexOf(l.order, l.order[i]) == i
  {}

  /** All ranges are non-empty and end after `num`. */
  ghost predicate EndAfter(m: RangeMap, num: nat) {
    forall v :: v in m ==> m[v].start < m[v].end && num < m[v].end
  }

  lemma {:induction false} AddInputsEnd(m: RangeMap, ins: seq<Value>, r: Range, num: nat)
    requires EndAfter(m, num) && r.start < r.end && num < r.end
    ensures EndAfter(AddInputs(m, ins, r), num)
    decreases |ins|
  {
    if ins != [] {
      AddInputsEnd(AddRange(m, ins[0], r), ins[1..], r, num);
    }
  }

  lemma {:induction false} SweepEnd(m: RangeMap, insts: seq<Inst>, k: nat, start: nat)
    requires k <= |insts| && EndAfter(m, PointNumber(start, k))
    ensures EndAfter(SweepRanges(m, insts, k, start), start)
    decreases k
  {
    if k > 0 {
      var m1 := Define(m, insts[k - 1].id, PointNumber(start, k));
      var r := Range(start, PointNumber(start, k));
      AddInputsEnd(m1, insts[k - 1].inputs, r, PointNumber(start, k - 1));
      SweepEnd(AddInputs(m1, insts[k - 1].inputs, r), insts, k - 1, start);
    }
  }

  lemma HeaderBeforeLatch(l: Layout, i: nat)
    requires Topological(l) && i < |l.order| && l.order[i] in l.latch
    ensures WellPlaced(l)
    ensures BlockStart(l.body, l.order, i) < BlockRange(l, IndexOf(l.order, l.latch[l.order[i]])).end
  {
    var e := IndexOf(l.order, l.latch[l.order[i]]);
    assert Before(l.order, l.order[i], l.latch[l.order[i]]);
    assert IndexOf(l.order, l.order[i]) == i;
    hide Topological;
    if i < e {
      StartsGrow(l.body, l.order, i, e);
    }
  }

  lemma BodyEnd(l: Layout, st: Live, i: nat)
    requires WellPlaced(l) && i < |l.order| && EndAfter(st.ranges, BlockStart(l.body, l.order, i + 1))
    ensures EndAfter(SweepBody(l, st, i).ranges, BlockStart(l.body, l.order, i))
    ensures l.order[i] in SweepBody(l, st, i).sets
  {
    var b := l.order[i];
    var bb := l.body[b];
    var r := BlockRange(l, i);
    var m := AddAll(st.ranges, InitialLive(l.body, l.g[b], b, st.sets), r);
    hide SweepRanges, InitialLive;
    SweepEnd(m, bb.insts, |bb.insts|, r.start);
  }

  lemma AddAllEnd(m: RangeMap, s: set<Value>, r: Range, num: nat)
    requires EndAfter(m, num) && r.start < r.end && num < r.end
    ensures EndAfter(AddAll(m, s, r), num)
  {}

  lemma BlockEnd(l: Layout, st: Live, i: nat)
    requires Topological(l) && i < |l.order| && EndAfter(st.ranges, BlockStart(l.body, l.order, i + 1))
    ensures EndAfter(SweepBlock(l, st, i).ranges, BlockStart(l.body, l.order, i))
  {
    BodyEnd(l, st, i);
    if l.order[i] in l.latch {
      HeaderBeforeLatch(l, i);
      hide Topological, SweepBody, EndAfter, AddAll;
      var r := SweepBody(l, st, i);
      var end := BlockRange(l, IndexOf(l.order, l.latch[l.order[i]])).end;
      AddAllEnd(r.ranges, r.sets[l.order[i]], Range(BlockRange(l, i).start, end), BlockStart(l.body, l.order, i));
    }
  }

  /** No range is empty, and all ranges end after the blocks still to be swept. */
  lemma {:induction false} SweptRangesEnd(l: Layout, i: nat)
    requires Topological(l) && i <= |l.order|
    ensures WellPlaced(l) && EndAfter(Sweep(l, i).ranges, BlockStart(l.body, l.order, i))
    decreases |l.order| - i
  {
    if i < |l.order| {
      SweptRangesEnd(l, i + 1);
      SweepStep(l, i);
      hide Sweep, SweepBlock, EndAfter;
      BlockEnd(l, Sweep(l, i + 1), i);
    }
  }

  lemma {:induction false} SweepCoversDef(m: RangeMap, insts: seq<Inst>, k: nat, start: nat, v: Value, i: nat)
    requires i < k <= |insts| && insts[i].id == v && EndAfter(m, PointNumber(start, k))
    requires forall q :: 0 <= q < i ==> insts[q].id != v
    ensures Covered(SweepRanges(m, insts, k, start), v, PointNumber(start, i + 1))
    decreases k
  {
    var num := PointNumber(start, k);
    var m1 := Define(m, insts[k - 1].id, num);
    var r := Range(start, num);
    var m' := AddInputs(m1, insts[k - 1].inputs, r);
    if i == k - 1 {
      AddInputsCovers(m1, insts[i].inputs, r, v, num);
      SweepKeeps(m', insts, i, start, v, num);
    } else {
      AddInputsEnd(m1, insts[k - 1].inputs, r, PointNumber(start, k - 1));
      SweepCoversDef(m', insts, k - 1, start, v, i);
    }
  }

  /** Every instruction has a range, and it contains the number of the instruction itself, whether
      or not the value is used. */
  lemma DefCovered(l: Layout, v: Value, i: nat, m: nat)
    requires Topological(l) && i < |l.order| && DefinedAt(l.body, v, l.order[i], m, false)
    ensures WellPlaced(l)
    ensures Covered(Sweep(l, 0).ranges, v, PointNumber(BlockStart(l.body, l.order, i), m + 1))
  {
    var pt := PointNumber(BlockStart(l.body, l.order, i), m + 1);
    assert InstDef(l.body, l.order[i], m, v);
    OwnDefs(l, v, i, m);
    SweptRangesEnd(l, i + 1);
    SweepStep(l, i);
    DefsAt(l, v, pt, i);
    BlockDef(l, Sweep(l, i + 1), i, v, m);
    hide *;
    CoverStable(l, 0, i, v, pt);
  }

  lemma OwnDefs(l: Layout, v: Value, i: nat, m: nat)
    requires Topological(l) && i < |l.order| && DefinedAt(l.body, v, l.order[i], m, false)
    ensures DefsAllBefore(l, v, PointNumber(BlockStart(l.body, l.order, i), m + 1))
  {
    forall k | 0 <= k < |l.order|
      ensures var insts := l.body[l.order[k]].insts;
        DefsBefore(insts, |insts|, BlockStart(l.body, l.order, k), v,
                   PointNumber(BlockStart(l.body, l.order, i), m + 1))
    {
      var insts := l.body[l.order[k]].insts;
      forall q | 0 <= q < |insts| && insts[q].id == v ensures k == i && q == m {
        assert InstDef(l.body, l.order[k], q, v);
      }
    }
  }

  lemma BlockDef(l: Layout, st: Live, i: nat, v: Value, m: nat)
    requires Topological(l) && i < |l.order| && DefinedAt(l.body, v, l.order[i], m, false)
    requires EndAfter(st.ranges, BlockStart(l.body, l.order, i + 1))
    ensures Covered(SweepBlock(l, st, i).ranges, v, PointNumber(BlockStart(l.body, l.order, i), m + 1))
  {
    var b := l.order[i];
    var bb := l.body[b];
    var r := BlockRange(l, i);
    var live := InitialLive(l.body, l.g[b], b, st.sets);
    assert InstDef(l.body, b, m, v);
    forall q | 0 <= q < m ensures bb.insts[q].id != v {
      assert !InstDef(l.body, b, q, v);
    }
    SweepCoversDef(AddAll(st.ranges, live, r), bb.insts, |bb.insts|, r.start, v, m);
  }
}
