/** The backward sweep of the liveness pass (pass/liveness_analysis.cpp:110-215) as functions on
    values: one range per value, built in a single pass over the linear order. */
module LiveRanges {
  import opened Cfg
  import opened Ranges
  import opened Ssa

  const LIVE_NUMBER_STEP: nat := 2

  type RangeMap = map<Value, Range>

  datatype Live = Live(ranges: RangeMap, sets: map<Block, set<Value>>)

  /** `bb_live_ranges_`: the numbers of the `i`-th block of the order start here.  The phis sit at
      the start, and instruction `k` at the start plus `k + 1` steps. */
  function BlockStart(body: Code, order: seq<Block>, i: nat): nat
    requires i <= |order| && forall k :: 0 <= k < |order| ==> order[k] < |body|
  {
    if i == 0 then 0 else BlockStart(body, order, i - 1) + BlockLength(body[order[i - 1]])
  }

  function BlockLength(bb: BasicBlock): nat {
    LIVE_NUMBER_STEP * (|bb.insts| + 1)
  }

  /** The number of the point after the first `j` instructions. */
  function PointNumber(start: nat, j: nat): nat {
    start + LIVE_NUMBER_STEP * j
  }

  function AddRange(m: RangeMap, v: Value, r: Range): RangeMap {
    m[v := if v in m then Union(m[v], r) else r]
  }

  function AddAll(m: RangeMap, s: set<Value>, r: Range): RangeMap {
    map v | v in m.Keys + s :: if v !in s then m[v] else if v in m then Union(m[v], r) else r
  }

  function AddInputs(m: RangeMap, ins: seq<Value>, r: Range): RangeMap
    decreases |ins|
  {
    if ins == [] then m else AddInputs(AddRange(m, ins[0], r), ins[1..], r)
  }

  /** The definition of `v` at number `num`. */
  function Define(m: RangeMap, v: Value, num: nat): RangeMap {
    m[v := Range(num, if v in m then m[v].end else num + LIVE_NUMBER_STEP)]
  }

  function StepRanges(m: RangeMap, inst: Inst, start: nat, num: nat): RangeMap {
    AddInputs(Define(m, inst.id, num), inst.inputs, Range(start, num))
  }

  function StepLive(live: set<Value>, inst: Inst): set<Value> {
    (live - {inst.id}) + Elems(inst.inputs)
  }

  /** Instructions `k - 1` down to `0`. */
  function SweepRanges(m: RangeMap, insts: seq<Inst>, k: nat, start: nat): RangeMap
    requires k <= |insts|
    decreases k
  {
    if k == 0 then m
    else SweepRanges(StepRanges(m, insts[k - 1], start, PointNumber(start, k)), insts, k - 1, start)
  }

  function SweepLive(live: set<Value>, insts: seq<Inst>, k: nat): set<Value>
    requires k <= |insts|
    decreases k
  {
    if k == 0 then live else SweepLive(StepLive(live, insts[k - 1]), insts, k - 1)
  }

  function InputsFrom(ins: seq<PhiInput>, b: Block): (r: set<Value>)
    ensures forall v :: v in r <==> exists k :: 0 <= k < |ins| && ins[k] == PhiInput(v, b)
  {
    if ins == [] then {}
    else
      var rest := InputsFrom(ins[1..], b);
      assert forall k :: 0 < k < |ins| ==> ins[k] == ins[1..][k - 1];
      if ins[0].source == b then {ins[0].value} + rest else rest
  }

  function PhiUses(phis: seq<Phi>, b: Block): (r: set<Value>)
    ensures forall v :: v in r <==> exists i :: 0 <= i < |phis| && v in InputsFrom(phis[i].inputs, b)
  {
    if phis == [] then {}
    else
      var rest := PhiUses(phis[1..], b);
      assert forall i :: 0 < i < |phis| ==> phis[i] == phis[1..][i - 1];
      InputsFrom(phis[0].inputs, b) + rest
  }

  function FromSuccessor(body: Code, b: Block, s: Block, sets: map<Block, set<Value>>): set<Value>
    requires s < |body|
  {
    (if s in sets then sets[s] else {}) + PhiUses(body[s].phis, b)
  }

  /** `CalculateInitialLiveSet`: a successor that has not been swept yet contributes only the
      inputs of its phis. */
  function InitialLive(body: Code, ss: seq<Block>, b: Block, sets: map<Block, set<Value>>): set<Value>
    requires forall k :: 0 <= k < |ss| ==> ss[k] < |body|
  {
    if ss == [] then {}
    else FromSuccessor(body, b, ss[0], sets) + InitialLive(body, ss[1..], b, sets)
  }

  function PhiIds(phis: seq<Phi>): (r: set<Value>)
    ensures forall v :: v in r <==> exists i :: 0 <= i < |phis| && phis[i].id == v
  {
    if phis == [] then {}
    else
      var rest := PhiIds(phis[1..]);
      assert forall i :: 0 < i < |phis| ==> phis[i] == phis[1..][i - 1];
      {phis[0].id} + rest
  }

  /** Everything the sweep needs: the graph, the code, the linear order, and the single back edge
      of every loop header. */
  datatype Layout = Layout(g: Graph, body: Code, order: seq<Block>, latch: map<Block, Block>)

  predicate WellPlaced(l: Layout) {
    && |l.body| == |l.g|
    && (forall b :: 0 <= b < |l.g| ==> InRange(l.g, l.g[b]))
    && (forall k :: 0 <= k < |l.order| ==> l.order[k] < |l.g|)
    && (forall h :: h in l.latch ==> l.latch[h] in l.order)
  }

  function BlockRange(l: Layout, i: nat): Range
    requires WellPlaced(l) && i < |l.order|
  {
    Range(BlockStart(l.body, l.order, i), BlockStart(l.body, l.order, i + 1))
  }

  /** The part of `CalculateLiveRanges` that walks the instructions of the `i`-th block. */
  function SweepBody(l: Layout, st: Live, i: nat): Live
    requires WellPlaced(l) && i < |l.order|
  {
    var b := l.order[i];
    var bb := l.body[b];
    var r := BlockRange(l, i);
    var live := InitialLive(l.body, l.g[b], b, st.sets);
    Live(SweepRanges(AddAll(st.ranges, live, r), bb.insts, |bb.insts|, r.start),
         st.sets[b := SweepLive(live, bb.insts, |bb.insts|) - PhiIds(bb.phis)])
  }

  /** `CalculateLiveRanges` for the `i`-th block of the order: what is live into a loop header is
      extended to the end of the latch. */
  function SweepBlock(l: Layout, st: Live, i: nat): Live
    requires WellPlaced(l) && i < |l.order|
  {
    var b := l.order[i];
    var r := SweepBody(l, st, i);
    if b !in l.latch then r
    else
      var end := BlockRange(l, IndexOf(l.order, l.latch[b])).end;
      r.(ranges := AddAll(r.ranges, r.sets[b], Range(BlockRange(l, i).start, end)))
  }

  /** The state when the blocks from the `i`-th on have been swept. */
  function Sweep(l: Layout, i: nat): Live
    requires WellPlaced(l) && i <= |l.order|
    decreases |l.order| - i
  {
    if i == |l.order| then Live(map[], map[]) else SweepBlock(l, Sweep(l, i + 1), i)
  }
}
