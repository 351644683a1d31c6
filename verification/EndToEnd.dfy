/** Liveness and register allocation together: running the allocated program, where every value
    sits in the register or stack slot of its range, computes the same values as the SSA program.
    Phis are carried out as a parallel copy on the edge. */
module EndToEnd {
  import opened Cfg
  import opened Ranges
  import opened Ssa
  import opened LiveRanges
  import opened Coverage
  import opened CoverageLimit
  import opened LoopTree
  import opened BlockOrder
  import opened Execution
  import LS = LinearScan
  import RS = RegisterSafety

  /** What `LinearScan::Init` hands to the allocator: the ranges of all values that can be used,
      each once, sorted by start. */
  ghost predicate InputFor(rs: LS.Input, m: RangeMap, noUse: set<Value>) {
    && LS.Sorted(rs)
    && (forall a :: 0 <= a < |rs| ==>
          rs[a].inst in m && rs[a].inst !in noUse && rs[a].range == m[rs[a].inst])
    && (forall v :: v in m && v !in noUse ==> exists a :: 0 <= a < |rs| && rs[a].inst == v)
    && (forall a, b :: 0 <= a < b < |rs| ==> rs[a].inst != rs[b].inst)
  }

  /** A program that has been through both passes; `loc` are the places of the ranges `rs`.  `effects` is any
      choice of observable instructions; `moved` are the phis that somebody uses: the others have no place. */
  datatype Allocation = Allocation(g: Graph, t: Loops, rank: seq<nat>, order: seq<Block>, body: Code,
                                   rs: LS.Input, loc: seq<LS.Location>, noUse: set<Value>, moved: set<Value>,
                                   effects: set<Value>)

  function Prog(c: Allocation): Program {
    Program(c.g, c.body, c.noUse, c.moved, c.effects)
  }

  ghost predicate Analysed(c: Allocation) {
    && Finished(c.g, c.t, c.rank, c.order)
    && StrictSsa(c.g, c.body) && UniqueIds(c.body) && PhisComplete(c.g, c.body) && c.body[START].phis == []
    && (forall v :: v in c.noUse ==> !Used(c.g, c.body, v))
    && (forall b, v :: PhiDef(c.body, b, v) ==> (v in c.moved <==> Used(c.g, c.body, v)))
  }

  ghost function Plan(c: Allocation): (l: Layout)
    requires WellFormed(c.g, c.t)
  {
    Layout(c.g, c.body, c.order, Latches(c.g, c.t))
  }

  /** Every range has a place, and ranges that intersect have different ones. */
  ghost predicate KeptApart(rs: LS.Input, loc: seq<LS.Location>) {
    |loc| == |rs| && RS.Separated(rs, loc) && forall a :: 0 <= a < |loc| ==> loc[a].where != LS.UNSET
  }

  /** Both passes have done their work: every live point lies in its range, and ranges are kept apart. */
  ghost predicate Sound(c: Allocation) {
    && Analysed(c) && WellPlaced(Plan(c)) && AllCovered(Plan(c))
    && InputFor(c.rs, Sweep(Plan(c), 0).ranges, c.noUse) && KeptApart(c.rs, c.loc)
  }

  /** The location of a value; values without a range have none. */
  ghost function Place(c: Allocation, v: Value): LS.Location {
    if a :| 0 <= a < |c.rs| && a < |c.loc| && c.rs[a].inst == v then c.loc[a] else LS.Location(LS.UNSET, 0)
  }

  /** Range `a` of the input belongs to `v` and covers the point after the first `j` instructions of
      the `i`-th block. */
  ghost predicate RangeHolds(c: Allocation, a: nat, v: Value, i: nat, j: nat) {
    && a < |c.rs| && c.rs[a].inst == v
    && i <= |c.order| && (forall k :: 0 <= k < |c.order| ==> c.order[k] < |c.body|)
    && c.rs[a].range.Contains(PointNumber(BlockStart(c.body, c.order, i), j))
  }

  lemma CoveredHasRange(c: Allocation, v: Value, i: nat, j: nat) returns (a: nat)
    requires Sound(c) && i < |c.order| && v !in c.noUse
    requires Covered(Sweep(Plan(c), 0).ranges, v, PointNumber(BlockStart(c.body, c.order, i), j))
    ensures RangeHolds(c, a, v, i, j)
  {
    hide Analysed, Sweep, KeptApart;
    a :| 0 <= a < |c.rs| && c.rs[a].inst == v;
  }

  lemma LayoutReady(c: Allocation)
    requires Analysed(c)
    ensures WellPlaced(Plan(c)) && Topological(Plan(c))
    ensures forall b :: 0 <= b < |c.g| ==> b in c.order
  {
    OrderIsTopological(c.g, c.t, c.rank, c.order, c.body);
  }

  lemma LiveNotNoUse(c: Allocation, v: Value, b: Block, j: nat)
    requires Analysed(c) && LiveAt(c.g, c.body, v, b, j)
    ensures v !in c.noUse
  {
    var p :| LivePath(c.g, c.body, v, p, j) && p[0] == b;
    LiveIsUsed(c.g, c.body, v, p, j);
  }

  lemma LiveHasRange(c: Allocation, v: Value, i: nat, j: nat) returns (a: nat)
    requires Sound(c) && i < |c.order| && LiveAt(c.g, c.body, v, c.order[i], j)
    ensures RangeHolds(c, a, v, i, j)
  {
    LiveNotNoUse(c, v, c.order[i], j);
    hide Analysed, Sweep, LiveAt, InputFor, KeptApart;
    assert Covered(Sweep(Plan(c), 0).ranges, v, PointNumber(BlockStart(c.body, c.order, i), j));
    a := CoveredHasRange(c, v, i, j);
  }

  lemma DefHasRange(c: Allocation, v: Value, i: nat, m: nat) returns (a: nat)
    requires Sound(c) && i < |c.order| && InstDef(c.body, c.order[i], m, v) && v !in c.noUse
    ensures RangeHolds(c, a, v, i, m + 1)
  {
    LayoutReady(c);
    DefinedOnce(c.body, c.order[i], m, v);
    hide Finished, AllCovered, UniqueIds, PhisComplete, Sweep, StrictSsa, Topological, DefinedAt;
    DefCovered(Plan(c), v, i, m);
    a := CoveredHasRange(c, v, i, m + 1);
  }

  lemma PlaceOf(c: Allocation, a: nat)
    requires Sound(c) && a < |c.rs|
    ensures |c.loc| == |c.rs| && Place(c, c.rs[a].inst) == c.loc[a]
  {
    hide Analysed, Sweep, RS.Separated;
    forall b | 0 <= b < |c.rs| && c.rs[b].inst == c.rs[a].inst ensures b == a {}
  }

  lemma RangesMeet(c: Allocation, a: nat, b: nat, v: Value, w: Value, i: nat, j: nat)
    requires Sound(c) && v != w && RangeHolds(c, a, v, i, j) && RangeHolds(c, b, w, i, j)
    ensures a != b && a < |c.rs| && b < |c.rs| && c.rs[a].inst == v && c.rs[b].inst == w
    ensures IfIntersect(c.rs[a].range, c.rs[b].range) && IfIntersect(c.rs[b].range, c.rs[a].range)
    ensures KeptApart(c.rs, c.loc)
  {
    hide Analysed, Sweep, LS.Sorted, KeptApart;
  }

  lemma ApartIn(rs: LS.Input, loc: seq<LS.Location>, a: nat, b: nat)
    requires KeptApart(rs, loc) && a < b < |rs| && IfIntersect(rs[a].range, rs[b].range)
    ensures |loc| == |rs| && loc[a] != loc[b] && loc[a].where != LS.UNSET && loc[b].where != LS.UNSET
  {}

  /** Two values that share a point are in different places, in a register or on the stack. */
  lemma Apart(c: Allocation, a: nat, b: nat, v: Value, w: Value, i: nat, j: nat)
    requires Sound(c) && v != w && RangeHolds(c, a, v, i, j) && RangeHolds(c, b, w, i, j)
    ensures Place(c, v) != Place(c, w) && Place(c, v).where != LS.UNSET
  {
    hide *;
    RangesMeet(c, a, b, v, w, i, j);
    PlaceOf(c, a);
    PlaceOf(c, b);
    ApartIn(c.rs, c.loc, if a < b then a else b, if a < b then b else a);
  }

  /** No instruction overwrites a value that is live after it, and values that are live together are
      in different places. */
  lemma NoLiveValueClobbered(c: Allocation, v: Value, w: Value, i: nat, j: nat)
    requires Sound(c) && i < |c.order| && v != w && LiveAt(c.g, c.body, v, c.order[i], j)
    requires LiveAt(c.g, c.body, w, c.order[i], j)
          || (j > 0 && InstDef(c.body, c.order[i], j - 1, w) && w !in c.noUse)
    ensures Place(c, v) != Place(c, w)
  {
    hide Sound, Place, LiveAt;
    var a := LiveHasRange(c, v, i, j);
    if LiveAt(c.g, c.body, w, c.order[i], j) {
      var b := LiveHasRange(c, w, i, j);
      Apart(c, a, b, v, w, i, j);
    } else {
      var b := DefHasRange(c, w, i, j - 1);
      Apart(c, a, b, v, w, i, j);
    }
  }

  // ---- Running the program -------------------------------------------------------------------

  /** Both runs have observed the same, and every value live at the point is in its place. */
  ghost predicate Agrees(c: Allocation, s: Store<Value>, t: Store<LS.Location>, b: Block, j: nat) {
    && s.trace == t.trace
    && forall v :: LiveAt(c.g, c.body, v, b, j) ==> Read(s, v) == Read(t, Place(c, v))
  }

  ghost function SsaEnter(c: Allocation, f: Semantics, p: seq<Block>): Store<Value>
    requires InProgram(Prog(c), p)
  {
    Enter(Prog(c), (v: Value) => v, f, p)
  }

  ghost function SsaAt(c: Allocation, f: Semantics, p: seq<Block>, k: nat): Store<Value>
    requires InProgram(Prog(c), p) && k <= |c.body[p[|p| - 1]].insts|
  {
    At(Prog(c), (v: Value) => v, f, p, k)
  }

  ghost function PlacedEnter(c: Allocation, f: Semantics, p: seq<Block>): Store<LS.Location>
    requires InProgram(Prog(c), p)
  {
    Enter(Prog(c), (v: Value) => Place(c, v), f, p)
  }

  ghost function PlacedAt(c: Allocation, f: Semantics, p: seq<Block>, k: nat): Store<LS.Location>
    requires InProgram(Prog(c), p) && k <= |c.body[p[|p| - 1]].insts|
  {
    At(Prog(c), (v: Value) => Place(c, v), f, p, k)
  }

  lemma {:induction false} SameOperands(c: Allocation, s: Store<Value>, t: Store<LS.Location>, ins: seq<Value>)
    requires forall v :: v in ins ==> Read(s, v) == Read(t, Place(c, v))
    ensures Operands(s, (v: Value) => v, ins) == Operands(t, (v: Value) => Place(c, v), ins)
    decreases |ins|
  {
    if ins != [] {
      assert forall v :: v in ins[1..] ==> v in ins;
      SameOperands(c, s, t, ins[1..]);
    }
  }

  /** An instruction reads the same operands from both stores. */
  lemma OperandsAgree(c: Allocation, s: Store<Value>, t: Store<LS.Location>, b: Block, k: nat)
    requires b < |c.g| == |c.body| && k < |c.body[b].insts| && Agrees(c, s, t, b, k)
    ensures var ins := c.body[b].insts[k].inputs;
      Operands(s, (v: Value) => v, ins) == Operands(t, (v: Value) => Place(c, v), ins)
  {
    var inst := c.body[b].insts[k];
    hide Place, LiveAt;
    forall v | v in inst.inputs ensures Read(s, v) == Read(t, Place(c, v)) {
      LiveInput(c.g, c.body, b, k, v);
    }
    SameOperands(c, s, t, inst.inputs);
  }

  /** An instruction keeps the stores in agreement. */
  lemma StepAgrees(c: Allocation, s: Store<Value>, t: Store<LS.Location>, f: Semantics, i: nat, k: nat)
    requires Sound(c) && i < |c.order| && c.order[i] < |c.g| == |c.body| && k < |c.body[c.order[i]].insts|
    requires Agrees(c, s, t, c.order[i], k)
    ensures var inst := c.body[c.order[i]].insts[k];
      Agrees(c, Step(Prog(c), s, (v: Value) => v, f, inst),
             Step(Prog(c), t, (v: Value) => Place(c, v), f, inst), c.order[i], k + 1)
  {
    var b := c.order[i];
    var inst := c.body[b].insts[k];
    OperandsAgree(c, s, t, b, k);
    var s' := Step(Prog(c), s, (v: Value) => v, f, inst);
    var t' := Step(Prog(c), t, (v: Value) => Place(c, v), f, inst);
    hide Sound, Place, LiveAt, Operands;
    forall v | LiveAt(c.g, c.body, v, b, k + 1) ensures Read(s', v) == Read(t', Place(c, v)) {
      if v == inst.id {
        LiveKept(c, v, i, k + 1);
      } else {
        Undisturbed(c, v, i, k);
      }
    }
  }

  /** A value live after an instruction that does not define it was live before, in another place
      than the result. */
  lemma Undisturbed(c: Allocation, v: Value, i: nat, k: nat)
    requires Sound(c) && i < |c.order| && c.order[i] < |c.g| == |c.body| && k < |c.body[c.order[i]].insts|
    requires LiveAt(c.g, c.body, v, c.order[i], k + 1) && v != c.body[c.order[i]].insts[k].id
    ensures LiveAt(c.g, c.body, v, c.order[i], k)
    ensures var d := c.body[c.order[i]].insts[k].id; d !in c.noUse ==> Place(c, d) != Place(c, v)
  {
    var d := c.body[c.order[i]].insts[k].id;
    hide Sound, Place, LiveAt;
    LiveBefore(c.g, c.body, c.order[i], k, v);
    if d !in c.noUse {
      NoLiveValueClobbered(c, v, d, i, k + 1);
    }
  }

  lemma LiveKept(c: Allocation, v: Value, i: nat, j: nat)
    requires Sound(c) && i < |c.order| && LiveAt(c.g, c.body, v, c.order[i], j)
    ensures v !in c.noUse
  {
    LiveNotNoUse(c, v, c.order[i], j);
  }

  // ---- Crossing an edge ----------------------------------------------------------------------

  lemma PhiAt(c: Allocation, b: Block, q: nat)
    requires Sound(c) && b < |c.g| && b < |c.body| && q < |c.body[b].phis| && c.body[b].phis[q].id in c.moved
    ensures LiveAt(c.g, c.body, c.body[b].phis[q].id, b, 0)
  {
    assert PhiDef(c.body, b, c.body[b].phis[q].id);
    assert Valid(c.g) && forall x :: 0 <= x < |c.g| ==> Reachable(c.g, x);
    assert StrictSsa(c.g, c.body) && UniqueIds(c.body) && Used(c.g, c.body, c.body[b].phis[q].id);
    hide *;
    UsedPhiLive(c.g, c.body, b, c.body[b].phis[q].id);
  }

  /** The copies into the other phis leave the place of a live value alone. */
  lemma CopiesApart(c: Allocation, v: Value, e: nat, from: nat)
    requires Sound(c) && e < |c.order| && c.order[e] < |c.g| == |c.body|
    requires LiveAt(c.g, c.body, v, c.order[e], 0)
    requires forall q :: from <= q < |c.body[c.order[e]].phis| ==> c.body[c.order[e]].phis[q].id != v
    ensures var phis := c.body[c.order[e]].phis;
      && Untouched((w: Value) => Place(c, w), phis, c.moved, from, Place(c, v))
      && Untouched((w: Value) => w, phis, c.moved, from, v)
  {
    var phis := c.body[c.order[e]].phis;
    hide Sound, Place, LiveAt, Used;
    forall q | from <= q < |phis| && phis[q].id in c.moved ensures Place(c, phis[q].id) != Place(c, v) {
      PhiAt(c, c.order[e], q);
      NoLiveValueClobbered(c, v, phis[q].id, e, 0);
    }
  }

  lemma PhiSource(c: Allocation, b: Block, s: Block, q: nat)
    requires Sound(c) && b < |c.g| && s < |c.g| && Edge(c.g, b, s) && |c.body| == |c.g| && q < |c.body[s].phis|
    ensures LiveAt(c.g, c.body, SourceOf(c.body[s].phis[q].inputs, b), b, |c.body[b].insts|)
    ensures forall x :: q < x < |c.body[s].phis| ==> c.body[s].phis[x].id != c.body[s].phis[q].id
  {
    assert PhisComplete(c.g, c.body) && UniqueIds(c.body);
    hide Sound, LiveAt;
    var u := SourceOf(c.body[s].phis[q].inputs, b);
    assert HasSource(c.body[s].phis[q].inputs, b);
    assert PhiUse(c.body, b, s, u);
    LivePhiInput(c.g, c.body, b, s, u);
  }

  ghost function SsaCross(c: Allocation, s: Store<Value>, b: Block, to: Block): Store<Value>
    requires to < |c.body|
  {
    Cross(Prog(c), s, (w: Value) => w, b, to)
  }

  ghost function PlacedCross(c: Allocation, t: Store<LS.Location>, b: Block, to: Block): Store<LS.Location>
    requires to < |c.body|
  {
    Cross(Prog(c), t, (w: Value) => Place(c, w), b, to)
  }

  lemma CrossPhi(c: Allocation, s: Store<Value>, t: Store<LS.Location>, b: Block, e: nat, q: nat)
    requires Sound(c) && e < |c.order| && b < |c.g| && c.order[e] < |c.g| == |c.body|
    requires Edge(c.g, b, c.order[e]) && Agrees(c, s, t, b, |c.body[b].insts|)
    requires q < |c.body[c.order[e]].phis|
    requires LiveAt(c.g, c.body, c.body[c.order[e]].phis[q].id, c.order[e], 0)
    ensures var v := c.body[c.order[e]].phis[q].id;
      Read(SsaCross(c, s, b, c.order[e]), v) == Read(PlacedCross(c, t, b, c.order[e]), Place(c, v))
  {
    var phis := c.body[c.order[e]].phis;
    var v := phis[q].id;
    LiveValueUsed(c, v, c.order[e]);
    assert PhiDef(c.body, c.order[e], v) && v in c.moved;
    hide Sound, Place, LiveAt, Used, Untouched;
    PhiSource(c, b, c.order[e], q);
    CopiesApart(c, v, e, q + 1);
    CopiesOwn(s, s.vals, (w: Value) => w, phis, b, c.moved, q);
    CopiesOwn(t, t.vals, (w: Value) => Place(c, w), phis, b, c.moved, q);
  }

  lemma LiveValueUsed(c: Allocation, v: Value, b: Block)
    requires LiveAt(c.g, c.body, v, b, 0)
    ensures Used(c.g, c.body, v)
  {
    var p :| LivePath(c.g, c.body, v, p, 0) && p[0] == b;
    LiveIsUsed(c.g, c.body, v, p, 0);
  }

  lemma CrossOther(c: Allocation, s: Store<Value>, t: Store<LS.Location>, b: Block, e: nat, v: Value)
    requires Sound(c) && e < |c.order| && b < |c.g| && c.order[e] < |c.g| == |c.body|
    requires Edge(c.g, b, c.order[e]) && Agrees(c, s, t, b, |c.body[b].insts|)
    requires LiveAt(c.g, c.body, v, c.order[e], 0) && !PhiDef(c.body, c.order[e], v)
    ensures Read(SsaCross(c, s, b, c.order[e]), v) == Read(PlacedCross(c, t, b, c.order[e]), Place(c, v))
  {
    var phis := c.body[c.order[e]].phis;
    LiveAcross(c.g, c.body, b, c.order[e], v);
    forall q | 0 <= q < |phis| ensures phis[q].id != v {}
    hide Sound, Place, LiveAt, Used, Untouched;
    CopiesApart(c, v, e, 0);
    CopiesOther(s, s.vals, (w: Value) => w, phis, b, c.moved, v);
    CopiesOther(t, t.vals, (w: Value) => Place(c, w), phis, b, c.moved, Place(c, v));
  }

  /** Crossing an edge keeps the stores in agreement. */
  lemma CrossAgrees(c: Allocation, s: Store<Value>, t: Store<LS.Location>, b: Block, e: nat)
    requires Sound(c) && e < |c.order| && b < |c.g| && c.order[e] < |c.g| == |c.body|
    requires Edge(c.g, b, c.order[e]) && Agrees(c, s, t, b, |c.body[b].insts|)
    ensures Agrees(c, SsaCross(c, s, b, c.order[e]), PlacedCross(c, t, b, c.order[e]), c.order[e], 0)
  {
    hide Sound, Place, LiveAt, Used, Copies;
    forall v | LiveAt(c.g, c.body, v, c.order[e], 0)
      ensures Read(SsaCross(c, s, b, c.order[e]), v) == Read(PlacedCross(c, t, b, c.order[e]), Place(c, v))
    {
      if PhiDef(c.body, c.order[e], v) {
        var q :| 0 <= q < |c.body[c.order[e]].phis| && c.body[c.order[e]].phis[q].id == v;
        CrossPhi(c, s, t, b, e, q);
      } else {
        CrossOther(c, s, t, b, e, v);
      }
    }
  }

  lemma LiveAtStart(g: Graph, body: Code, v: Value)
    requires Valid(g) && StrictSsa(g, body) && LiveAt(g, body, v, START, 0)
    ensures PhiDef(body, START, v)
  {
    var p :| LivePath(g, body, v, p, 0) && p[0] == START;
    LiveIsUsed(g, body, v, p, 0);
    var d, m, isPhi :| DefinedAt(body, v, d, m, isPhi) && UsesDominated(g, body, v, d, m, isPhi);
    LiveIsDominated(g, body, v, p, 0, d, m, isPhi);
    StartDominator(g, d);
  }

  /** Nothing is live at the start of the program. */
  lemma StartAgrees(c: Allocation, s: Store<Value>, t: Store<LS.Location>)
    requires Sound(c) && s.trace == t.trace
    ensures Agrees(c, s, t, START, 0)
  {
    assert c.body[START].phis == [] && StrictSsa(c.g, c.body) && Valid(c.g);
    hide Sound, Place;
    forall v ensures !LiveAt(c.g, c.body, v, START, 0) {
      if LiveAt(c.g, c.body, v, START, 0) {
        LiveAtStart(c.g, c.body, v);
      }
    }
  }

  lemma OneBlock(c: Allocation, f: Semantics, p: seq<Block>)
    requires Sound(c) && InProgram(Prog(c), p) && p == [START]
    ensures Agrees(c, SsaEnter(c, f, p), PlacedEnter(c, f, p), START, 0)
  {
    hide Sound, Place, Agrees;
    StartAgrees(c, SsaEnter(c, f, p), PlacedEnter(c, f, p));
  }

  lemma Position(c: Allocation, p: seq<Block>) returns (i: nat)
    requires Sound(c) && IsPath(c.g, p)
    ensures |p| > 0 && i < |c.order| && c.order[i] == p[|p| - 1] && p[|p| - 1] < |c.g| == |c.body|
  {
    i := IndexOf(c.order, p[|p| - 1]);
  }

  lemma InProgramPath(c: Allocation, p: seq<Block>)
    requires InProgram(Prog(c), p)
    ensures IsPath(c.g, p)
  {}

  lemma AtSnoc(c: Allocation, f: Semantics, p: seq<Block>, k: nat)
    requires InProgram(Prog(c), p) && 0 < k <= |c.body[p[|p| - 1]].insts|
    ensures var inst := c.body[p[|p| - 1]].insts[k - 1];
      && SsaAt(c, f, p, k) == Step(Prog(c), SsaAt(c, f, p, k - 1), (v: Value) => v, f, inst)
      && PlacedAt(c, f, p, k) == Step(Prog(c), PlacedAt(c, f, p, k - 1), (v: Value) => Place(c, v), f, inst)
  {
    hide Sound, Place, Agrees, Step, Enter;
  }

  lemma AtNone(c: Allocation, f: Semantics, p: seq<Block>)
    requires InProgram(Prog(c), p)
    ensures SsaAt(c, f, p, 0) == SsaEnter(c, f, p) && PlacedAt(c, f, p, 0) == PlacedEnter(c, f, p)
  {
    hide Sound, Place, Agrees, Step, Enter;
  }

  lemma {:induction false} BlockAgrees(c: Allocation, f: Semantics, p: seq<Block>, k: nat)
    requires Sound(c) && InProgram(Prog(c), p) && k <= |c.body[p[|p| - 1]].insts|
    requires Agrees(c, SsaEnter(c, f, p), PlacedEnter(c, f, p), p[|p| - 1], 0)
    ensures Agrees(c, SsaAt(c, f, p, k), PlacedAt(c, f, p, k), p[|p| - 1], k)
    decreases k
  {
    hide Sound, Place, Agrees, Steps, Enter, Step, At;
    if k == 0 {
      AtNone(c, f, p);
    } else {
      BlockAgrees(c, f, p, k - 1);
      InProgramPath(c, p);
      var i := Position(c, p);
      AtSnoc(c, f, p, k);
      StepAgrees(c, SsaAt(c, f, p, k - 1), PlacedAt(c, f, p, k - 1), f, i, k - 1);
    }
  }

  lemma EdgeAgrees(c: Allocation, f: Semantics, p: seq<Block>, q: seq<Block>)
    requires Sound(c) && InProgram(Prog(c), p) && InProgram(Prog(c), q) && |p| > 1 && q == p[0..|p| - 1]
    requires var k := |c.body[q[|q| - 1]].insts|;
      Agrees(c, SsaAt(c, f, q, k), PlacedAt(c, f, q, k), q[|q| - 1], k)
    ensures Agrees(c, SsaEnter(c, f, p), PlacedEnter(c, f, p), p[|p| - 1], 0)
  {
    var i := Position(c, p);
    EnterStep(Prog(c), (v: Value) => v, f, p, q);
    EnterStep(Prog(c), (v: Value) => Place(c, v), f, p, q);
    hide Sound, Place, Agrees, Cross, Enter, Steps;
    var k := |c.body[q[|q| - 1]].insts|;
    CrossAgrees(c, SsaAt(c, f, q, k), PlacedAt(c, f, q, k), q[|q| - 1], i);
  }

  lemma {:induction false} PathAgrees(c: Allocation, f: Semantics, p: seq<Block>)
    requires Sound(c) && InProgram(Prog(c), p) && p[0] == START
    ensures Agrees(c, SsaEnter(c, f, p), PlacedEnter(c, f, p), p[|p| - 1], 0)
    decreases |p|
  {
    if |p| == 1 {
      OneBlock(c, f, p);
    } else {
      PathSlice(c.g, p, 0, |p| - 1);
      var q := p[0..|p| - 1];
      hide Sound, Agrees, Enter, Steps;
      PathAgrees(c, f, q);
      BlockAgrees(c, f, q, |c.body[q[|q| - 1]].insts|);
      EdgeAgrees(c, f, p, q);
    }
  }

  /** The allocated program computes what the SSA program computes: along every path through the
      graph, whatever the instructions do, every live value is found in its register or stack slot,
      every instruction reads the operands it reads in the SSA program, and the same is observed. */
  lemma AllocatedRunAgrees(c: Allocation, f: Semantics, p: seq<Block>, k: nat)
    requires Sound(c) && InProgram(Prog(c), p) && p[0] == START && k <= |c.body[p[|p| - 1]].insts|
    ensures Agrees(c, SsaAt(c, f, p, k), PlacedAt(c, f, p, k), p[|p| - 1], k)
    ensures k < |c.body[p[|p| - 1]].insts| ==>
              var ins := c.body[p[|p| - 1]].insts[k].inputs;
              Operands(SsaAt(c, f, p, k), (v: Value) => v, ins)
                == Operands(PlacedAt(c, f, p, k), (v: Value) => Place(c, v), ins)
  {
    hide Sound, Agrees, Enter, Steps, Place, Operands;
    PathAgrees(c, f, p);
    BlockAgrees(c, f, p, k);
    if k < |c.body[p[|p| - 1]].insts| {
      OperandsAgree(c, SsaAt(c, f, p, k), PlacedAt(c, f, p, k), p[|p| - 1], k);
    }
  }
}
