/** The liveness pass object (pass/liveness_analysis.cpp): linear order, numbering, backward
    sweep. */
module Liveness {
  import opened Cfg
  import opened Ranges
  import opened Ssa
  import opened LiveRanges
  import opened Coverage
  import opened LoopTree
  import opened BlockOrder
  import opened OrderChoice
  import opened DominatorTree

  /** `Init` numbers the phis of a block at the block start, and instruction `k` there plus `k + 1` steps. */
  ghost predicate Numbered(body: Code, order: seq<Block>, nums: map<Value, nat>, n: nat)
    requires n <= |order| && forall i :: 0 <= i < |order| ==> order[i] < |body|
  {
    forall i: nat :: i < n ==> BlockNumbered(body[order[i]], nums, BlockStart(body, order, i))
  }

  ghost predicate BlockNumbered(bb: BasicBlock, nums: map<Value, nat>, start: nat) {
    PhisNumbered(bb.phis, |bb.phis|, nums, start) && InstsNumbered(bb.insts, |bb.insts|, nums, start)
  }

  ghost predicate PhisNumbered(phis: seq<Phi>, k: nat, nums: map<Value, nat>, start: nat)
    requires k <= |phis|
  {
    forall q :: 0 <= q < k ==> phis[q].id in nums && nums[phis[q].id] == start
  }

  ghost predicate InstsNumbered(insts: seq<Inst>, k: nat, nums: map<Value, nat>, start: nat)
    requires k <= |insts|
  {
    forall q :: 0 <= q < k ==> insts[q].id in nums && nums[insts[q].id] == PointNumber(start, q + 1)
  }

  ghost predicate BlocksNumbered(body: Code, order: seq<Block>, rs: map<Block, Range>, n: nat)
    requires n <= |order| && forall i :: 0 <= i < |order| ==> order[i] < |body|
  {
    forall i :: 0 <= i < n ==>
      && order[i] in rs
      && rs[order[i]] == Range(BlockStart(body, order, i), BlockStart(body, order, i + 1))
  }

  /** Numbering a value that a block does not define leaves it numbered. */
  lemma BlockOther(body: Code, b: Block, nums: map<Value, nat>, start: nat, v: Value, num: nat)
    requires b < |body| && BlockNumbered(body[b], nums, start)
    requires !PhiDef(body, b, v) && forall k :: !InstDef(body, b, k, v)
    ensures BlockNumbered(body[b], nums[v := num], start)
  {
    forall q | 0 <= q < |body[b].insts| ensures body[b].insts[q].id != v {
      assert !InstDef(body, b, q, v);
    }
  }

  lemma NumberOther(body: Code, order: seq<Block>, nums: map<Value, nat>, n: nat, v: Value, num: nat)
    requires n <= |order| && forall i :: 0 <= i < |order| ==> order[i] < |body|
    requires Numbered(body, order, nums, n)
    requires forall i: nat :: i < n ==> !PhiDef(body, order[i], v) && forall k :: !InstDef(body, order[i], k, v)
    ensures Numbered(body, order, nums[v := num], n)
  {
    hide BlockNumbered, BlockStart, PhiDef, InstDef;
    forall i: nat | i < n ensures BlockNumbered(body[order[i]], nums[v := num], BlockStart(body, order, i)) {
      BlockOther(body, order[i], nums, BlockStart(body, order, i), v, num);
    }
  }

  /** No other block defines what the `i`-th block defines. */
  lemma DefElsewhere(body: Code, order: seq<Block>, i: nat, v: Value)
    requires i < |order| && (forall j :: 0 <= j < |order| ==> order[j] < |body|) && UniqueIds(body) && NoRepeats(order)
    requires PhiDef(body, order[i], v) || exists k :: InstDef(body, order[i], k, v)
    ensures forall j: nat :: j < i ==> !PhiDef(body, order[j], v) && forall k :: !InstDef(body, order[j], k, v)
  {
    hide PhiDef, InstDef;
    forall j: nat | j < i ensures !PhiDef(body, order[j], v) && forall k :: !InstDef(body, order[j], k, v) {
      assert order[j] != order[i];
    }
  }

  lemma PhiNumbered(body: Code, order: seq<Block>, nums: map<Value, nat>, i: nat, k: nat, num: nat)
    requires i < |order| && (forall j :: 0 <= j < |order| ==> order[j] < |body|) && UniqueIds(body) && NoRepeats(order)
    requires k < |body[order[i]].phis| && Numbered(body, order, nums, i)
    requires PhisNumbered(body[order[i]].phis, k, nums, num)
    ensures var r := nums[body[order[i]].phis[k].id := num];
      Numbered(body, order, r, i) && PhisNumbered(body[order[i]].phis, k + 1, r, num)
  {
    assert PhiDef(body, order[i], body[order[i]].phis[k].id);
    hide Numbered, UniqueIds, PhiDef, InstDef;
    DefElsewhere(body, order, i, body[order[i]].phis[k].id);
    NumberOther(body, order, nums, i, body[order[i]].phis[k].id, num);
  }

  lemma InstNumbered(body: Code, order: seq<Block>, nums: map<Value, nat>, i: nat, k: nat, start: nat)
    requires i < |order| && (forall j :: 0 <= j < |order| ==> order[j] < |body|) && UniqueIds(body) && NoRepeats(order)
    requires k < |body[order[i]].insts| && Numbered(body, order, nums, i)
    requires PhisNumbered(body[order[i]].phis, |body[order[i]].phis|, nums, start)
    requires InstsNumbered(body[order[i]].insts, k, nums, start)
    ensures var r := nums[body[order[i]].insts[k].id := PointNumber(start, k + 1)];
      && Numbered(body, order, r, i) && InstsNumbered(body[order[i]].insts, k + 1, r, start)
      && PhisNumbered(body[order[i]].phis, |body[order[i]].phis|, r, start)
  {
    var b := order[i];
    var v := body[b].insts[k].id;
    assert InstDef(body, b, k, v);
    forall q | 0 <= q < |body[b].phis| ensures body[b].phis[q].id != v {
      assert PhiDef(body, b, body[b].phis[q].id);
    }
    forall q | 0 <= q < k ensures body[b].insts[q].id != v {
      assert InstDef(body, b, q, body[b].insts[q].id);
    }
    hide Numbered, UniqueIds, PhiDef, InstDef;
    DefElsewhere(body, order, i, v);
    NumberOther(body, order, nums, i, v, PointNumber(start, k + 1));
  }

  lemma OneMoreNumbered(body: Code, order: seq<Block>, nums: map<Value, nat>, i: nat)
    requires i < |order| && (forall j :: 0 <= j < |order| ==> order[j] < |body|) && Numbered(body, order, nums, i)
    requires BlockNumbered(body[order[i]], nums, BlockStart(body, order, i))
    ensures Numbered(body, order, nums, i + 1)
  {
    hide BlockNumbered, BlockStart;
  }

  lemma OneMoreRange(body: Code, order: seq<Block>, rs: map<Block, Range>, i: nat)
    requires i < |order| && (forall j :: 0 <= j < |order| ==> order[j] < |body|) && NoRepeats(order)
    requires BlocksNumbered(body, order, rs, i)
    ensures BlocksNumbered(body, order,
              rs[order[i] := Range(BlockStart(body, order, i), BlockStart(body, order, i + 1))], i + 1)
  {
    hide BlockStart;
  }

  lemma NumberAt(body: Code, order: seq<Block>, nums: map<Value, nat>, i: nat, k: nat)
    requires i < |order| && (forall j :: 0 <= j < |order| ==> order[j] < |body|) && Numbered(body, order, nums, |order|)
    requires k < |body[order[i]].insts|
    ensures var v := body[order[i]].insts[k].id;
      v in nums && nums[v] == PointNumber(BlockStart(body, order, i), k + 1)
  {
    assert BlockNumbered(body[order[i]], nums, BlockStart(body, order, i));
  }

  lemma LatchNumbered(body: Code, order: seq<Block>, rs: map<Block, Range>, b: Block)
    requires forall i :: 0 <= i < |order| ==> order[i] < |body|
    requires BlocksNumbered(body, order, rs, |order|) && b in order
    ensures b in rs && rs[b].end == BlockStart(body, order, IndexOf(order, b) + 1)
  {
    var i := IndexOf(order, b);
    assert order[i] == b;
  }

  lemma AddAllStep(m: RangeMap, s: set<Value>, v: Value, r: Range)
    requires v in s
    ensures AddAll(m, s, r) == AddAll(AddRange(m, v, r), s - {v}, r)
  {}

  lemma AddAllNone(m: RangeMap, r: Range)
    ensures AddAll(m, {}, r) == m
  {}

  lemma AddInputsStep(m: RangeMap, ins: seq<Value>, i: nat, r: Range)
    requires i < |ins|
    ensures AddInputs(m, ins[i..], r) == AddInputs(AddRange(m, ins[i], r), ins[i + 1..], r)
  {
    assert ins[i..][1..] == ins[i + 1..];
  }

  lemma InitialLiveStep(body: Code, ss: seq<Block>, k: nat, b: Block, sets: map<Block, set<Value>>)
    requires (forall i :: 0 <= i < |ss| ==> ss[i] < |body|) && k < |ss|
    ensures InitialLive(body, ss[k..], b, sets)
         == FromSuccessor(body, b, ss[k], sets) + InitialLive(body, ss[k + 1..], b, sets)
  {
    assert ss[k..][1..] == ss[k + 1..];
  }

  lemma NormalBlock(g: Graph, t: Loops, rank: seq<nat>, b: Block)
    requires NormalForm(g, t, rank) && b < |g|
    ensures WellFormed(g, t) && Valid(g) && Reachable(g, b)
  {}

  lemma NormalGraph(g: Graph, t: Loops, rank: seq<nat>)
    requires NormalForm(g, t, rank)
    ensures WellFormed(g, t) && Valid(g)
  {}

  lemma RoundStart(g: Graph, t: Loops, w: Work)
    requires WellFormed(g, t) && Valid(g) && Blocks(g, w.queue) && w.queue != []
    ensures var b := w.queue[0];
      && b < |g| && InRange(g, g[b]) && Blocks(g, w.queue[1..])
      && Elems(w.done + [b]) == Elems(w.done) + {b}
      && Round(g, t, w) == ConsiderAll(g, t, Work(w.done + [b], w.queue[1..]), g[b], |g[b]|)
  {
    hide WellFormed, ConsiderAll;
  }

  lemma ConsiderAllStep(g: Graph, t: Loops, w: Work, ss: seq<Block>, k: nat)
    requires WellFormed(g, t) && InRange(g, ss) && k < |ss| && Blocks(g, w.queue)
    ensures ss[k] < |g| && Blocks(g, Consider(g, t, w, ss[k]).queue)
    ensures ConsiderAll(g, t, w, ss, k + 1) == ConsiderAll(g, t, Consider(g, t, w, ss[k]), ss, k)
  {
    hide WellFormed, Consider;
  }

  lemma ConsiderAllNone(g: Graph, t: Loops, w: Work, ss: seq<Block>)
    requires WellFormed(g, t) && InRange(g, ss) && Blocks(g, w.queue)
    ensures ConsiderAll(g, t, w, ss, 0) == w
  {}

  lemma OuterSteps(g: Graph, t: Loops, a: nat, b: nat)
    requires WellFormed(g, t) && a < |t.outer|
    ensures t.outer[a] == NULL <==> a == 0
    ensures a > 0 ==> 0 <= t.outer[a] < |t.outer| && t.depth[t.outer[a]] < t.depth[a]
    ensures Inside(g, t, a, b) <==> a > 0 && In(g, t, t.outer[a], b)
  {
    if a > 0 && a == b && In(g, t, t.outer[a], b) {
      InDepth(g, t, t.outer[a], b);
    }
  }

  ghost predicate PredReady(g: Graph, t: Loops, marked: set<Block>, s: Block, p: Block)
    requires WellFormed(g, t) && s < |g|
  {
    p in marked || (IsHeader(g, t, s) && Dominates(g, s, p))
  }

  lemma PredReadyIff(g: Graph, t: Loops, marked: set<Block>, s: Block, p: Block)
    requires WellFormed(g, t) && s < |g|
    ensures PredReady(g, t, marked, s, p) <==> p in marked || (IsHeader(g, t, s) && Dominates(g, s, p))
    ensures s == p ==> Dominates(g, s, p)
  {
    if s == p {
      SelfDominates(g, s);
    }
  }

  lemma PredsInRange(g: Graph, preds: seq<seq<Block>>, s: Block)
    requires Valid(g) && PredsExact(g, preds) && s < |g|
    ensures |preds| == |g| && forall j :: 0 <= j < |preds[s]| ==> preds[s][j] < |g|
  {
    forall j | 0 <= j < |preds[s]| ensures preds[s][j] < |g| {
      assert Edge(g, preds[s][j], s);
    }
  }

  lemma NotReady(g: Graph, t: Loops, preds: seq<seq<Block>>, done: seq<Block>, marked: set<Block>, s: Block, p: Block)
    requires WellFormed(g, t) && s < |g| && PredsExact(g, preds) && marked == Elems(done) && p in preds[s]
    ensures !PredReady(g, t, marked, s, p) ==> !Ready(g, t, done, s)
  {
    assert Edge(g, p, s);
  }

  lemma AllReady(g: Graph, t: Loops, preds: seq<seq<Block>>, done: seq<Block>, marked: set<Block>, s: Block)
    requires WellFormed(g, t) && s < |g| && PredsExact(g, preds) && marked == Elems(done)
    requires forall j :: 0 <= j < |preds[s]| ==> PredReady(g, t, marked, s, preds[s][j])
    ensures Ready(g, t, done, s)
  {
    forall p: nat | Edge(g, p, s) ensures PredReady(g, t, marked, s, p) {
      assert p in preds[s];
    }
  }

  lemma ManyBlocks(done: seq<Block>, n: nat)
    requires NoRepeats(done) && forall i :: 0 <= i < |done| ==> done[i] < n
    ensures |done| <= n
  {
    ElemsSize(done);
    SubsetSize(Elems(done), Below(n));
  }

  function Below(n: nat): (r: set<nat>)
    ensures |r| == n && forall x: nat :: x in r <==> x < n
  {
    if n == 0 then {} else Below(n - 1) + {n - 1}
  }

  lemma {:induction false} ElemsSize(s: seq<nat>)
    requires NoRepeats(s)
    ensures |Elems(s)| == |s|
  {
    if s != [] {
      assert s == [s[0]] + s[1..];
      assert forall i :: 0 <= i < |s| - 1 ==> s[1..][i] == s[i + 1];
      ElemsSize(s[1..]);
      assert Elems(s) == {s[0]} + Elems(s[1..]);
    }
  }

  lemma {:induction false} SubsetSize(a: set<nat>, b: set<nat>)
    requires a <= b
    ensures |a| <= |b|
    decreases a
  {
    if a != {} {
      var x :| x in a;
      SubsetSize(a - {x}, b - {x});
    }
  }

  lemma InvSizes(g: Graph, t: Loops, rank: seq<nat>, w: Work)
    requires NormalForm(g, t, rank) && Inv(g, t, rank, w)
    ensures Valid(g) && WellFormed(g, t) && Blocks(g, w.queue) && |w.done| <= |g|
  {
    ManyBlocks(w.done, |g|);
  }

  lemma PlanPlaced(g: Graph, t: Loops, rank: seq<nat>, order: seq<Block>, body: Code)
    requires Finished(g, t, rank, order) && |body| == |g|
    ensures WellFormed(g, t) && WellPlaced(Layout(g, body, order, Latches(g, t))) && NoRepeats(order)
    ensures forall i :: 0 <= i < |order| ==> order[i] < |body|
  {
    OrderIsTopological(g, t, rank, order, body);
  }

  class LivenessAnalysis {
    const g: Graph
    const body: Code
    var linearBlocks: seq<Block>
    var instLiveNumbers: map<Value, nat>
    var instLiveRanges: RangeMap
    var bbLiveRanges: map<Block, Range>
    var bbLiveSets: map<Block, set<Value>>

    constructor (g: Graph, body: Code)
      ensures this.g == g && this.body == body
    {
      this.g, this.body := g, body;
      linearBlocks, instLiveNumbers, instLiveRanges, bbLiveRanges, bbLiveSets := [], map[], map[], map[], map[];
    }

    ghost function Plan(latch: map<Block, Block>): Layout
      reads `linearBlocks
    {
      Layout(g, body, linearBlocks, latch)
    }

    ghost function State(): Live
      reads `instLiveRanges, `bbLiveSets
    {
      Live(instLiveRanges, bbLiveSets)
    }

    method Init()
      requires |body| == |g| && NoRepeats(linearBlocks) && UniqueIds(body)
      requires forall i :: 0 <= i < |linearBlocks| ==> linearBlocks[i] < |body|
      modifies this`instLiveNumbers, this`bbLiveRanges
      ensures Numbered(body, linearBlocks, instLiveNumbers, |linearBlocks|)
      ensures BlocksNumbered(body, linearBlocks, bbLiveRanges, |linearBlocks|)
    {
      instLiveNumbers, bbLiveRanges := map[], map[];
      var cur := 0;
      NothingNumbered();
      hide Numbered, BlocksNumbered, UniqueIds, NoRepeats;
      for i := 0 to |linearBlocks|
        invariant cur == BlockStart(body, linearBlocks, i)
        invariant Numbered(body, linearBlocks, instLiveNumbers, i)
        invariant BlocksNumbered(body, linearBlocks, bbLiveRanges, i)
      {
        var start := cur;
        cur := NumberBlock(i, start);
        OneMoreRange(body, linearBlocks, bbLiveRanges, i);
        bbLiveRanges := bbLiveRanges[linearBlocks[i] := Range(start, cur)];
      }
    }

    lemma NothingNumbered()
      requires forall i :: 0 <= i < |linearBlocks| ==> linearBlocks[i] < |body|
      ensures BlockStart(body, linearBlocks, 0) == 0
      ensures Numbered(body, linearBlocks, map[], 0) && BlocksNumbered(body, linearBlocks, map[], 0)
    {}

    method NumberBlock(i: nat, start: nat) returns (end: nat)
      requires |body| == |g| && NoRepeats(linearBlocks) && UniqueIds(body) && i < |linearBlocks|
      requires forall k :: 0 <= k < |linearBlocks| ==> linearBlocks[k] < |body|
      requires start == BlockStart(body, linearBlocks, i)
      requires Numbered(body, linearBlocks, instLiveNumbers, i)
      modifies this`instLiveNumbers
      ensures Numbered(body, linearBlocks, instLiveNumbers, i + 1)
      ensures end == BlockStart(body, linearBlocks, i + 1)
    {
      var bb := body[linearBlocks[i]];
      hide Numbered, UniqueIds, NoRepeats, PhisNumbered, InstsNumbered;
      NoneNumbered(bb, instLiveNumbers, start);
      for k := 0 to |bb.phis|
        invariant Numbered(body, linearBlocks, instLiveNumbers, i)
        invariant PhisNumbered(bb.phis, k, instLiveNumbers, start)
      {
        PhiNumbered(body, linearBlocks, instLiveNumbers, i, k, start);
        instLiveNumbers := instLiveNumbers[bb.phis[k].id := start];
      }
      end := start + LIVE_NUMBER_STEP;
      NoneNumbered(bb, instLiveNumbers, start);
      for k := 0 to |bb.insts|
        invariant end == PointNumber(start, k + 1)
        invariant Numbered(body, linearBlocks, instLiveNumbers, i)
        invariant PhisNumbered(bb.phis, |bb.phis|, instLiveNumbers, start)
        invariant InstsNumbered(bb.insts, k, instLiveNumbers, start)
      {
        InstNumbered(body, linearBlocks, instLiveNumbers, i, k, start);
        instLiveNumbers := instLiveNumbers[bb.insts[k].id := end];
        end := end + LIVE_NUMBER_STEP;
      }
      OneMoreNumbered(body, linearBlocks, instLiveNumbers, i);
    }

    lemma NoneNumbered(bb: BasicBlock, nums: map<Value, nat>, start: nat)
      ensures PhisNumbered(bb.phis, 0, nums, start) && InstsNumbered(bb.insts, 0, nums, start)
    {}

    method InstAddLiveRange(v: Value, r: Range)
      modifies this`instLiveRanges
      ensures instLiveRanges == AddRange(old(instLiveRanges), v, r)
    {
      if v !in instLiveRanges {
        instLiveRanges := instLiveRanges[v := r];
      } else {
        instLiveRanges := instLiveRanges[v := Union(instLiveRanges[v], r)];
      }
    }

    method AddRangeToAll(s: set<Value>, r: Range)
      modifies this`instLiveRanges
      ensures instLiveRanges == AddAll(old(instLiveRanges), s, r)
    {
      var todo := s;
      while todo != {}
        invariant AddAll(instLiveRanges, todo, r) == AddAll(old(instLiveRanges), s, r)
      {
        var v :| v in todo;
        AddAllStep(instLiveRanges, todo, v, r);
        InstAddLiveRange(v, r);
        todo := todo - {v};
      }
      AddAllNone(instLiveRanges, r);
    }

    method CalculateInitialLiveSet(b: Block) returns (live: set<Value>)
      requires |body| == |g| && b < |g| && forall k :: 0 <= k < |g[b]| ==> g[b][k] < |body|
      ensures live == InitialLive(body, g[b], b, bbLiveSets)
    {
      var ss := g[b];
      live := {};
      assert ss[0..] == ss;
      for k := 0 to |ss|
        invariant live + InitialLive(body, ss[k..], b, bbLiveSets) == InitialLive(body, ss, b, bbLiveSets)
      {
        InitialLiveStep(body, ss, k, b, bbLiveSets);
        if ss[k] in bbLiveSets {
          live := live + bbLiveSets[ss[k]];
        }
        var uses := PhiInputsFrom(ss[k], b);
        live := live + uses;
      }
    }

    method PhiInputsFrom(s: Block, b: Block) returns (uses: set<Value>)
      requires s < |body|
      ensures uses == PhiUses(body[s].phis, b)
    {
      var phis := body[s].phis;
      uses := {};
      for i := 0 to |phis|
        invariant forall v :: v in uses <==> exists q :: 0 <= q < i && v in InputsFrom(phis[q].inputs, b)
      {
        var ins := phis[i].inputs;
        ghost var before := uses;
        for k := 0 to |ins|
          invariant forall v :: v in uses <==> v in before || exists q :: 0 <= q < k && ins[q] == PhiInput(v, b)
        {
          if ins[k].source == b {
            uses := uses + {ins[k].value};
          }
        }
      }
    }

    method CalculateLiveRanges(i: nat, latch: map<Block, Block>)
      requires WellPlaced(Plan(latch)) && NoRepeats(linearBlocks) && i < |linearBlocks|
      requires Numbered(body, linearBlocks, instLiveNumbers, |linearBlocks|)
      requires BlocksNumbered(body, linearBlocks, bbLiveRanges, |linearBlocks|)
      modifies this`instLiveRanges, this`bbLiveSets
      ensures State() == SweepBlock(Plan(latch), old(State()), i)
    {
      hide SweepBody, AddAll, Numbered;
      SweepBlockBody(i, latch);
      var b := linearBlocks[i];
      if b in latch {
        LatchNumbered(body, linearBlocks, bbLiveRanges, latch[b]);
        var end := bbLiveRanges[latch[b]].end;
        AddRangeToAll(bbLiveSets[b], Range(bbLiveRanges[b].start, end));
      }
    }

    method SweepBlockBody(i: nat, latch: map<Block, Block>)
      requires WellPlaced(Plan(latch)) && NoRepeats(linearBlocks) && i < |linearBlocks|
      requires Numbered(body, linearBlocks, instLiveNumbers, |linearBlocks|)
      requires BlocksNumbered(body, linearBlocks, bbLiveRanges, |linearBlocks|)
      modifies this`instLiveRanges, this`bbLiveSets
      ensures State() == SweepBody(Plan(latch), old(State()), i) && linearBlocks[i] in bbLiveSets
    {
      hide SweepRanges, SweepLive, InitialLive, AddAll, PhiIds, Numbered;
      var b := linearBlocks[i];
      var range := bbLiveRanges[b];
      var live := CalculateInitialLiveSet(b);
      bbLiveSets := bbLiveSets[b := live];
      AddRangeToAll(live, range);
      SweepInsts(i, range);
      ErasePhis(b);
    }

    /** The instructions of the block, last one first. */
    method SweepInsts(i: nat, range: Range)
      requires WellPlaced(Plan(map[])) && i < |linearBlocks| && linearBlocks[i] in bbLiveSets
      requires Numbered(body, linearBlocks, instLiveNumbers, |linearBlocks|)
      requires range == BlockRange(Plan(map[]), i)
      modifies this`instLiveRanges, this`bbLiveSets
      ensures var b := linearBlocks[i];
        && instLiveRanges == SweepRanges(old(instLiveRanges), body[b].insts, |body[b].insts|, range.start)
        && bbLiveSets == old(bbLiveSets)[b := SweepLive(old(bbLiveSets)[b], body[b].insts, |body[b].insts|)]
    {
      var b := linearBlocks[i];
      var insts := body[b].insts;
      for k := |insts| downto 0
        invariant b in bbLiveSets && bbLiveSets == old(bbLiveSets)[b := bbLiveSets[b]]
        invariant SweepRanges(instLiveRanges, insts, k, range.start)
               == SweepRanges(old(instLiveRanges), insts, |insts|, range.start)
        invariant SweepLive(bbLiveSets[b], insts, k) == SweepLive(old(bbLiveSets)[b], insts, |insts|)
      {
        NumberAt(body, linearBlocks, instLiveNumbers, i, k);
        var num := instLiveNumbers[insts[k].id];
        SweepInst(b, insts[k], range.start, num);
      }
    }

    method SweepInst(b: Block, inst: Inst, start: nat, num: nat)
      requires b in bbLiveSets
      modifies this`instLiveRanges, this`bbLiveSets
      ensures instLiveRanges == StepRanges(old(instLiveRanges), inst, start, num)
      ensures bbLiveSets == old(bbLiveSets)[b := StepLive(old(bbLiveSets)[b], inst)]
    {
      if inst.id !in instLiveRanges {
        instLiveRanges := instLiveRanges[inst.id := Range(num, num + LIVE_NUMBER_STEP)];
      } else {
        instLiveRanges := instLiveRanges[inst.id := Range(num, instLiveRanges[inst.id].end)];
      }
      bbLiveSets := bbLiveSets[b := bbLiveSets[b] - {inst.id}];
      ghost var m, s := instLiveRanges, bbLiveSets[b];
      assert inst.inputs[0..] == inst.inputs;
      for k := 0 to |inst.inputs|
        invariant b in bbLiveSets && bbLiveSets == old(bbLiveSets)[b := bbLiveSets[b]]
        invariant bbLiveSets[b] == s + Elems(inst.inputs[..k])
        invariant AddInputs(instLiveRanges, inst.inputs[k..], Range(start, num))
               == AddInputs(m, inst.inputs, Range(start, num))
      {
        AddInputsStep(instLiveRanges, inst.inputs, k, Range(start, num));
        assert inst.inputs[..k + 1] == inst.inputs[..k] + [inst.inputs[k]];
        bbLiveSets := bbLiveSets[b := bbLiveSets[b] + {inst.inputs[k]}];
        InstAddLiveRange(inst.inputs[k], Range(start, num));
      }
      assert inst.inputs[..|inst.inputs|] == inst.inputs;
    }

    method ErasePhis(b: Block)
      requires b < |body| && b in bbLiveSets
      modifies this`bbLiveSets
      ensures bbLiveSets == old(bbLiveSets)[b := old(bbLiveSets)[b] - PhiIds(body[b].phis)]
    {
      var phis := body[b].phis;
      for k := 0 to |phis|
        invariant b in bbLiveSets && bbLiveSets == old(bbLiveSets)[b := bbLiveSets[b]]
        invariant forall v :: v in bbLiveSets[b] <==>
                    v in old(bbLiveSets)[b] && forall q :: 0 <= q < k ==> phis[q].id != v
      {
        bbLiveSets := bbLiveSets[b := bbLiveSets[b] - {phis[k].id}];
      }
      assert bbLiveSets[b] == old(bbLiveSets)[b] - PhiIds(phis);
    }

    /** The whole sweep. */
    method CalculateLiveness(latch: map<Block, Block>)
      requires WellPlaced(Plan(latch)) && NoRepeats(linearBlocks)
      requires Numbered(body, linearBlocks, instLiveNumbers, |linearBlocks|)
      requires BlocksNumbered(body, linearBlocks, bbLiveRanges, |linearBlocks|)
      requires instLiveRanges == map[] && bbLiveSets == map[]
      modifies this`instLiveRanges, this`bbLiveSets
      ensures State() == Sweep(Plan(latch), 0)
    {
      hide SweepBlock;
      for i := |linearBlocks| downto 0
        invariant State() == Sweep(Plan(latch), i)
      {
        CalculateLiveRanges(i, latch);
      }
    }

    method AllForwardEdgesVisited(dt: DomTree, t: Loops, ghost rank: seq<nat>, preds: seq<seq<Block>>,
                                  ghost done: seq<Block>, visited: set<Block>, s: Block) returns (r: bool)
      requires NormalForm(g, t, rank) && PredsExact(g, preds) && s < |g| && visited == Elems(done)
      requires dt.g == g && IsDominatorTree(g, dt.immDominator)
      ensures WellFormed(g, t) && (r <==> Ready(g, t, done, s))
    {
      hide *;
      NormalBlock(g, t, rank, s);
      PredsInRange(g, preds, s);
      for i := 0 to |preds[s]|
        invariant forall j :: 0 <= j < i ==> PredReady(g, t, visited, s, preds[s][j])
      {
        var ready := PredVisited(dt, t, rank, visited, s, preds[s][i]);
        NotReady(g, t, preds, done, visited, s, preds[s][i]);
        if !ready {
          return false;
        }
      }
      AllReady(g, t, preds, done, visited, s);
      return true;
    }

    /** The test on one predecessor: a header does not wait for the blocks it dominates. */
    method PredVisited(dt: DomTree, t: Loops, ghost rank: seq<nat>, visited: set<Block>, s: Block, p: Block)
      returns (r: bool)
      requires NormalForm(g, t, rank) && s < |g| && p < |g|
      requires dt.g == g && IsDominatorTree(g, dt.immDominator)
      ensures WellFormed(g, t) && (r <==> PredReady(g, t, visited, s, p))
    {
      NormalBlock(g, t, rank, p);
      PredReadyIff(g, t, visited, s, p);
      hide NormalForm, IsDominatorTree, Dominates, Reachable, WellFormed, Valid;
      if IsHeader(g, t, s) {
        var above := dt.BlockDominates(s, p);
        return above || p in visited;
      }
      return p in visited;
    }

    /** `Loop::Inside`: the chain of outer loops. */
    method LoopInside(t: Loops, a: nat, b: nat) returns (r: bool)
      requires WellFormed(g, t) && a < |t.outer| && b < |t.outer|
      ensures r <==> Inside(g, t, a, b)
    {
      OuterSteps(g, t, a, b);
      var k := t.outer[a];
      while k != NULL
        invariant k == NULL || 0 <= k < |t.outer|
        invariant Inside(g, t, a, b) <==> k != NULL && In(g, t, k, b)
        decreases if k == NULL then -1 else t.depth[k]
      {
        if k == b {
          return true;
        }
        OuterSteps(g, t, k, b);
        k := t.outer[k];
      }
      return false;
    }

    method InsertInOrder(t: Loops, queue: seq<Block>, s: Block) returns (q: seq<Block>)
      requires WellFormed(g, t) && s < |g| && Blocks(g, queue)
      ensures q == Insert(g, t, queue, s) && Blocks(g, q)
    {
      var k := 0;
      assert queue[0..] == queue;
      while k < |queue|
        invariant 0 <= k <= |queue| && InsertAt(g, t, queue, s) == k + InsertAt(g, t, queue[k..], s)
      {
        assert queue[k..][1..] == queue[k + 1..];
        var inside := LoopInside(t, t.loopOf[queue[k]], t.loopOf[s]);
        if !inside {
          break;
        }
        k := k + 1;
      }
      q := queue[..k] + [s] + queue[k..];
    }

    method ConsiderSuccessor(dt: DomTree, t: Loops, ghost rank: seq<nat>, preds: seq<seq<Block>>,
                             marked: set<Block>, queue: seq<Block>, s: Block) returns (q: seq<Block>)
      requires NormalForm(g, t, rank) && PredsExact(g, preds) && s < |g|
      requires dt.g == g && IsDominatorTree(g, dt.immDominator)
      requires Blocks(g, queue) && marked == Elems(linearBlocks)
      ensures Work(linearBlocks, q) == Consider(g, t, Work(linearBlocks, queue), s)
    {
      NormalGraph(g, t, rank);
      hide NormalForm, WellFormed, InsertAt, Insert, Ready, Valid, PredsExact, IsDominatorTree;
      q := queue;
      if s !in marked {
        var ready := AllForwardEdgesVisited(dt, t, rank, preds, linearBlocks, marked, s);
        if ready {
          q := InsertInOrder(t, queue, s);
        }
      }
    }

    /** The successors of the block just emitted, last one first. */
    method ConsiderSuccessors(dt: DomTree, t: Loops, ghost rank: seq<nat>, preds: seq<seq<Block>>,
                              marked: set<Block>, queue: seq<Block>, succs: seq<Block>) returns (q: seq<Block>)
      requires NormalForm(g, t, rank) && PredsExact(g, preds) && InRange(g, succs)
      requires dt.g == g && IsDominatorTree(g, dt.immDominator)
      requires Blocks(g, queue) && marked == Elems(linearBlocks)
      ensures WellFormed(g, t) && Blocks(g, q)
      ensures Work(linearBlocks, q) == ConsiderAll(g, t, Work(linearBlocks, queue), succs, |succs|)
    {
      hide *;
      NormalGraph(g, t, rank);
      q := queue;
      ghost var all := ConsiderAll(g, t, Work(linearBlocks, queue), succs, |succs|);
      for k := |succs| downto 0
        invariant Blocks(g, q) && ConsiderAll(g, t, Work(linearBlocks, q), succs, k) == all
      {
        ConsiderAllStep(g, t, Work(linearBlocks, q), succs, k);
        q := ConsiderSuccessor(dt, t, rank, preds, marked, q, succs[k]);
      }
      ConsiderAllNone(g, t, Work(linearBlocks, q), succs);
    }

    /** One round: emits the front of the queue and queues what has become ready. */
    method EmitFront(dt: DomTree, t: Loops, ghost rank: seq<nat>, preds: seq<seq<Block>>,
                     visited: set<Block>, queue: seq<Block>) returns (marked: set<Block>, q: seq<Block>)
      requires NormalForm(g, t, rank) && PredsExact(g, preds)
      requires dt.g == g && IsDominatorTree(g, dt.immDominator)
      requires Blocks(g, queue) && queue != [] && visited == Elems(linearBlocks)
      modifies this`linearBlocks
      ensures Blocks(g, q) && marked == Elems(linearBlocks)
      ensures Work(linearBlocks, q) == Round(g, t, Work(old(linearBlocks), queue))
    {
      hide *;
      NormalGraph(g, t, rank);
      RoundStart(g, t, Work(linearBlocks, queue));
      var bb := queue[0];
      linearBlocks, marked := linearBlocks + [bb], visited + {bb};
      q := ConsiderSuccessors(dt, t, rank, preds, marked, queue[1..], g[bb]);
    }

    method LinearizeBlocks(dt: DomTree, t: Loops, ghost rank: seq<nat>, preds: seq<seq<Block>>)
      requires NormalForm(g, t, rank) && PredsExact(g, preds) && linearBlocks == []
      requires dt.g == g && IsDominatorTree(g, dt.immDominator)
      modifies this`linearBlocks
      ensures Finished(g, t, rank, linearBlocks) && Greedy(g, t, linearBlocks)
    {
      NormalGraph(g, t, rank);
      StartChoice(g, t);
      hide NormalForm, Inv, Round, Finished, Greedy, QueueOrder, WellFormed;
      var visited: set<Block> := {};
      var queue := [START];
      StartInv(g, t, rank);
      InvSizes(g, t, rank, Work([], [START]));
      while queue != []
        invariant Blocks(g, queue) && |linearBlocks| <= |g| && visited == Elems(linearBlocks)
        invariant Inv(g, t, rank, Work(linearBlocks, queue)) && Choice(g, t, Work(linearBlocks, queue))
        decreases |g| - |linearBlocks|
      {
        RoundKeepsInv(g, t, rank, Work(linearBlocks, queue));
        RoundKeepsChoice(g, t, rank, Work(linearBlocks, queue));
        InvSizes(g, t, rank, Round(g, t, Work(linearBlocks, queue)));
        visited, queue := EmitFront(dt, t, rank, preds, visited, queue);
      }
      WorkFinished(g, t, rank, Work(linearBlocks, queue));
    }

    /** The pass.  `latch` holds the single back edge of every loop header. */
    method Run(dt: DomTree, t: Loops, ghost rank: seq<nat>, preds: seq<seq<Block>>, latch: map<Block, Block>)
      requires NormalForm(g, t, rank) && PredsExact(g, preds) && latch == Latches(g, t)
      requires dt.g == g && IsDominatorTree(g, dt.immDominator)
      requires |body| == |g| && UniqueIds(body)
      modifies this
      ensures Finished(g, t, rank, linearBlocks) && Greedy(g, t, linearBlocks) && WellPlaced(Plan(latch))
      ensures Numbered(body, linearBlocks, instLiveNumbers, |linearBlocks|)
      ensures BlocksNumbered(body, linearBlocks, bbLiveRanges, |linearBlocks|)
      ensures State() == Sweep(Plan(latch), 0)
    {
      hide Finished, NormalForm, PredsExact, IsDominatorTree, Numbered, BlocksNumbered, UniqueIds, Latches, Greedy;
      linearBlocks, instLiveRanges, bbLiveSets := [], map[], map[];
      LinearizeBlocks(dt, t, rank, preds);
      PlanPlaced(g, t, rank, linearBlocks, body);
      Init();
      CalculateLiveness(latch);
    }
  }
}
