/** Many rewritings in a row (pass/loop_analysis.cpp:107-160): every one keeps the phis of the program
    complete, and together they still preserve runs and dominance. */
module Preservation {
  import opened Cfg
  import opened Coverage
  import opened Ssa
  import opened Execution
  import opened FlowGraph
  import opened Redirection
  import opened LoopRewrite

  // ---- Composition ---------------------------------------------------------------------------------

  /** One rewriting: a new block `n` in front of `h` for the edges from `ps`, all but the one from `t`.
      Instruction ids from `bound` on were new; `after` is the program that results. */
  datatype Change = Change(n: Block, ps: set<Block>, h: Block, t: Block, bound: Value, after: Program)

  function Latest(c: Program, cs: seq<Change>): Program {
    if cs == [] then c else cs[|cs| - 1].after
  }

  /** A run of rewritings from `c` on. */
  ghost predicate Chain(c: Program, cs: seq<Change>, base: Value)
    decreases |cs|
  {
    cs == [] ||
    var front, x := cs[..|cs| - 1], cs[|cs| - 1];
    && Chain(c, front, base) && x.n == |Latest(c, front).g| && base <= x.bound
    && Rewritten(Latest(c, front), x.after, x.ps, x.h, x.t, x.bound)
  }

  lemma ChainNext(c: Program, cs: seq<Change>, base: Value, x: Change)
    requires Chain(c, cs, base) && x.n == |Latest(c, cs).g| && base <= x.bound
    requires Rewritten(Latest(c, cs), x.after, x.ps, x.h, x.t, x.bound)
    ensures Chain(c, cs + [x], base) && Latest(c, cs + [x]) == x.after
  {
    assert (cs + [x])[..|cs + [x]| - 1] == cs;
  }

  function ExpandAll(cs: seq<Change>, p: seq<Block>): (q: seq<Block>)
    requires |p| > 0
    ensures |q| > 0 && q[0] == p[0] && q[|q| - 1] == p[|p| - 1]
    decreases |cs|
  {
    if cs == [] then p
    else
      var x := cs[|cs| - 1];
      Expand(x.n, x.ps, x.h, ExpandAll(cs[..|cs| - 1], p))
  }

  /** What remains of a path when all blocks from number `n` on are erased. */
  function OldBlocks(n: Block, q: seq<Block>): seq<Block> {
    if q == [] then [] else OldBlocks(n, q[..|q| - 1]) + if q[|q| - 1] < n then [q[|q| - 1]] else []
  }

  ghost predicate RunKept(c: Program, d: Program, cs: seq<Change>, bound: Value, p: seq<Block>)
    requires |p| > 0
  {
    var q := ExpandAll(cs, p);
    && InProgram(c, p) && InProgram(d, q) && OldBlocks(|c.g|, q) == p
    && forall f: Semantics :: SameRun(c, d, bound, f, p, q)
  }

  ghost predicate SameRun(c: Program, d: Program, bound: Value, f: Semantics, p: seq<Block>, q: seq<Block>)
    requires InProgram(c, p) && InProgram(d, q)
  {
    && SameBelow(bound, Enter(c, Self(), f, p), Enter(d, Self(), f, q))
    && SameBelow(bound, End(c, Self(), f, p), End(d, Self(), f, q))
  }

  ghost predicate RunFound(c: Program, cs: seq<Change>, q: seq<Block>) {
    var p := OldBlocks(|c.g|, q);
    IsPath(c.g, p) && ExpandAll(cs, p) == q
  }

  ghost predicate RunsKept(c: Program, d: Program, cs: seq<Change>, bound: Value) {
    forall p :: IsPath(c.g, p) ==> RunKept(c, d, cs, bound, p)
  }

  ghost predicate RunsFound(c: Program, d: Program, cs: seq<Change>) {
    forall q :: IsPath(d.g, q) && q[0] < |c.g| && q[|q| - 1] < |c.g| ==> RunFound(c, cs, q)
  }

  ghost predicate DominanceKept(g: Graph, r: Graph) {
    forall a, b :: 0 <= a < |g| && 0 <= b < |g| ==> SameDominance(g, r, a, b)
  }

  /** Runs of the two programs correspond one to one, a path of the new program being a path of the old
      one with new blocks put in; along corresponding paths, and on arrival at every block, the two have
      computed the same old values and observed the same events.  Dominance is unchanged. */
  ghost predicate Preserved(c: Program, d: Program, cs: seq<Change>, bound: Value) {
    && |c.g| == |c.body| && |d.g| == |d.body| && |c.g| <= |d.g|
    && RunsKept(c, d, cs, bound) && RunsFound(c, d, cs) && DominanceKept(c.g, d.g)
  }

  ghost predicate SameDominance(g: Graph, r: Graph, a: Block, b: Block) {
    (Dominates(g, a, b) <==> Dominates(r, a, b)) && (Reachable(g, b) <==> Reachable(r, b))
  }

  lemma {:induction false} AllOld(n: Block, p: seq<Block>)
    requires forall i :: 0 <= i < |p| ==> p[i] < n
    ensures OldBlocks(n, p) == p
    decreases |p|
  {
    if p != [] {
      AllOld(n, p[..|p| - 1]);
      assert p == p[..|p| - 1] + [p[|p| - 1]];
    }
  }

  lemma NothingChanged(c: Program, bound: Value)
    requires |c.g| == |c.body|
    ensures Preserved(c, c, [], bound)
  {
    forall p | IsPath(c.g, p) ensures RunKept(c, c, [], bound, p) && RunFound(c, [], p) {
      AllOld(|c.g|, p);
      hide Enter, End;
    }
    forall a, b ensures SameDominance(c.g, c.g, a, b) {}
    hide RunKept, RunFound, SameDominance;
  }

  /** Erasing one new block first does not matter. */
  lemma {:induction false} OldErased(n: Block, m: Block, q: seq<Block>)
    requires n <= m
    ensures OldBlocks(n, Erase(m, q)) == OldBlocks(n, q)
    decreases |q|
  {
    if q != [] {
      var front, x := q[..|q| - 1], q[|q| - 1];
      OldErased(n, m, front);
      if x == m {
        assert Erase(m, front) + [] == Erase(m, front);
        assert OldBlocks(n, front) + [] == OldBlocks(n, front);
      } else {
        assert (Erase(m, front) + [x])[..|Erase(m, front)|] == Erase(m, front);
      }
    }
  }

  lemma SameBelowTrans(b: Value, b': Value, s: Store<Value>, u: Store<Value>, w: Store<Value>)
    requires b <= b' && SameBelow(b, s, u) && SameBelow(b', u, w)
    ensures SameBelow(b, s, w)
  {
    forall v: Value | v < b ensures Read(s, v) == Read(w, v) {
      assert Read(s, v) == Read(u, v);
    }
  }

  lemma ExpandAllSnoc(cs: seq<Change>, x: Change, p: seq<Block>)
    requires |p| > 0
    ensures ExpandAll(cs + [x], p) == Expand(x.n, x.ps, x.h, ExpandAll(cs, p))
  {
    assert (cs + [x])[..|cs + [x]| - 1] == cs;
  }

  lemma RunKeptNext(c: Program, d: Program, cs: seq<Change>, x: Change, bound: Value, p: seq<Block>)
    requires IsPath(c.g, p) && RunKept(c, d, cs, bound, p) && |c.g| <= |d.g| && x.n == |d.g| && x.h < |d.g|
    requires Rewritten(d, x.after, x.ps, x.h, x.t, x.bound) && bound <= x.bound
    ensures RunKept(c, x.after, cs + [x], bound, p)
  {
    var q := ExpandAll(cs, p);
    var r := Expand(x.n, x.ps, x.h, q);
    ExpandAllSnoc(cs, x, p);
    ExpandedInProgram(d, x.after, x.ps, x.h, x.t, x.bound, q);
    EraseExpand(x.n, x.ps, x.h, q);
    OldErased(|c.g|, x.n, r);
    forall f: Semantics ensures SameRun(c, x.after, bound, f, p, r) {
      SameRunNext(c, d, x.after, x.ps, x.h, x.t, bound, x.bound, f, p, q);
    }
  }

  lemma SameRunNext(c: Program, d: Program, e: Program, ps: set<Block>, h: Block, t: Block, bound: Value,
                    bound': Value, f: Semantics, p: seq<Block>, q: seq<Block>)
    requires InProgram(c, p) && InProgram(d, q) && SameRun(c, d, bound, f, p, q)
    requires Rewritten(d, e, ps, h, t, bound') && bound <= bound'
    ensures InProgram(e, Expand(|d.g|, ps, h, q)) && SameRun(c, e, bound, f, p, Expand(|d.g|, ps, h, q))
  {
    hide Rewritten, Enter, End, SameBelow, Expand;
    RewritePreservesRuns(d, e, ps, h, t, bound', f, q);
    var r := Expand(|d.g|, ps, h, q);
    SameBelowTrans(bound, bound', Enter(c, Self(), f, p), Enter(d, Self(), f, q), Enter(e, Self(), f, r));
    SameBelowTrans(bound, bound', End(c, Self(), f, p), End(d, Self(), f, q), End(e, Self(), f, r));
  }

  lemma RunFoundNext(c: Program, d: Program, cs: seq<Change>, x: Change, q: seq<Block>)
    requires Redirected(d.g, x.after.g, x.ps, x.h) && |c.g| <= |d.g| == x.n
    requires IsPath(x.after.g, q) && q[0] < |c.g| && q[|q| - 1] < |c.g|
    requires forall r :: IsPath(d.g, r) && r[0] < |c.g| && r[|r| - 1] < |c.g| ==> RunFound(c, cs, r)
    ensures RunFound(c, cs + [x], q)
  {
    ExpandErase(d.g, x.after.g, x.ps, x.h, q);
    var r := Erase(x.n, q);
    OldErased(|c.g|, x.n, q);
    assert RunFound(c, cs, r);
    ExpandAllSnoc(cs, x, OldBlocks(|c.g|, q));
  }

  lemma PreservedNext(c: Program, d: Program, cs: seq<Change>, x: Change, bound: Value)
    requires Preserved(c, d, cs, bound) && x.n == |d.g| && bound <= x.bound
    requires Rewritten(d, x.after, x.ps, x.h, x.t, x.bound)
    ensures Preserved(c, x.after, cs + [x], bound)
  {
    hide Rewritten, RunsKept, RunsFound, DominanceKept, Redirected;
    RewrittenShape(d, x.after, x.ps, x.h, x.t, x.bound);
    RunsKeptNext(c, d, cs, x, bound);
    RunsFoundNext(c, d, cs, x);
    DominanceKeptNext(c.g, d.g, x.after.g, x.ps, x.h);
  }

  lemma DominanceKeptNext(g: Graph, g': Graph, r: Graph, ps: set<Block>, h: Block)
    requires DominanceKept(g, g') && Redirected(g', r, ps, h) && |g| <= |g'|
    ensures DominanceKept(g, r)
  {
    hide Redirected, SameDominance;
    forall a, b | 0 <= a < |g| && 0 <= b < |g| ensures SameDominance(g, r, a, b) {
      DominanceNext(g, g', r, ps, h, a, b);
    }
  }

  lemma RunsKeptNext(c: Program, d: Program, cs: seq<Change>, x: Change, bound: Value)
    requires RunsKept(c, d, cs, bound)
    requires |c.g| <= |d.g| == x.n && x.h < |d.g| && bound <= x.bound
    requires Rewritten(d, x.after, x.ps, x.h, x.t, x.bound)
    ensures RunsKept(c, x.after, cs + [x], bound)
  {
    hide Rewritten, RunKept;
    forall p | IsPath(c.g, p) ensures RunKept(c, x.after, cs + [x], bound, p) {
      RunKeptNext(c, d, cs, x, bound, p);
    }
  }

  lemma RunsFoundNext(c: Program, d: Program, cs: seq<Change>, x: Change)
    requires RunsFound(c, d, cs) && Redirected(d.g, x.after.g, x.ps, x.h) && |c.g| <= |d.g| == x.n
    ensures RunsFound(c, x.after, cs + [x])
  {
    hide Redirected, RunFound;
    forall q | IsPath(x.after.g, q) && q[0] < |c.g| && q[|q| - 1] < |c.g| ensures RunFound(c, cs + [x], q) {
      RunFoundNext(c, d, cs, x, q);
    }
  }

  lemma {:induction false} ChainShape(c: Program, cs: seq<Change>, base: Value)
    requires Chain(c, cs, base) && |Latest(c, cs).g| == |Latest(c, cs).body|
    ensures |c.g| == |c.body|
    decreases |cs|
  {
    if cs != [] {
      var front, x := cs[..|cs| - 1], cs[|cs| - 1];
      RewrittenShape(Latest(c, front), x.after, x.ps, x.h, x.t, x.bound);
      ChainShape(c, front, base);
    }
  }

  lemma LastChange(c: Program, cs: seq<Change>, base: Value)
    requires Chain(c, cs, base) && cs != []
    ensures var d, x := Latest(c, cs[..|cs| - 1]), cs[|cs| - 1];
      && |d.g| == |d.body| && x.n == |d.g| && base <= x.bound && Chain(c, cs[..|cs| - 1], base)
      && Rewritten(d, x.after, x.ps, x.h, x.t, x.bound)
  {
    var front, x := cs[..|cs| - 1], cs[|cs| - 1];
    RewrittenShape(Latest(c, front), x.after, x.ps, x.h, x.t, x.bound);
  }

  /** A run of rewritings preserves runs and dominance. */
  lemma {:induction false} ChainPreserves(c: Program, cs: seq<Change>, base: Value)
    requires Chain(c, cs, base) && |Latest(c, cs).g| == |Latest(c, cs).body|
    ensures Preserved(c, Latest(c, cs), cs, base)
    decreases |cs|
  {
    hide Preserved, Rewritten, Chain;
    ChainShape(c, cs, base);
    if cs == [] {
      NothingChanged(c, base);
    } else {
      var front, x := cs[..|cs| - 1], cs[|cs| - 1];
      assert cs == front + [x];
      LastChange(c, cs, base);
      ChainPreserves(c, front, base);
      PreservedNext(c, Latest(c, front), front, x, base);
    }
  }

  lemma DominanceNext(g: Graph, g': Graph, r: Graph, ps: set<Block>, h: Block, a: Block, b: Block)
    requires Redirected(g', r, ps, h) && a < |g'| && b < |g'| && SameDominance(g, g', a, b)
    ensures SameDominance(g, r, a, b)
  {
    DominanceUnchanged(g', r, ps, h, a, b);
  }

  lemma RewrittenShape(c: Program, d: Program, ps: set<Block>, h: Block, t: Block, bound: Value)
    requires Rewritten(c, d, ps, h, t, bound)
    ensures Redirected(c.g, d.g, ps, h) && |c.body| == |c.g| && |d.body| == |d.g| == |c.g| + 1 && h < |c.g|
  {}

  // ---- Complete phis ---------------------------------------------------------------------------------

  /** A phi of block `b` has exactly one input for every predecessor. */
  ghost predicate OneInputEach(g: Graph, b: Block, ins: seq<PhiInput>) {
    DistinctSources(ins) && forall u: Block :: HasSource(ins, u) <==> Edge(g, u, b)
  }

  ghost predicate BlockPhis(g: Graph, b: Block, phis: seq<Phi>) {
    forall q :: 0 <= q < |phis| ==> OneInputEach(g, b, phis[q].inputs)
  }

  /** The program before a rewriting; `bound` is the next instruction id. */
  ghost predicate Fit(c: Program, bound: Value) {
    && Valid(c.g) && |c.body| == |c.g| && Below(c.body, bound)
    && (forall v: Value :: v in c.moved ==> v < bound)
    && forall b :: 0 <= b < |c.body| ==> BlockPhis(c.g, b, c.body[b].phis)
  }

  /** The program after the rewriting. */
  function Rewriting(c: Program, r: Graph, h: Block, t: Block, bound: Value): Program
    requires h < |c.body| && HaveEntries(c.body[h].phis, t)
  {
    var m := Move(c.body[h].phis, |c.body[h].phis|, t, |c.g|, bound);
    Program(r, c.body[h := BasicBlock(m.kept, c.body[h].insts)] + [BasicBlock(m.added, [])],
            c.noUse, c.moved + NewIds(bound, |m.added|), c.effects)
  }

  /** The edges to `h` are those from `ps`, which are redirected, and the one from `t`. */
  ghost predicate EntriesTo(g: Graph, ps: set<Block>, h: Block, t: Block) {
    && t < |g| && h < |g| && t !in ps && ps != {}
    && forall u: Block :: Edge(g, u, h) <==> u in ps || u == t
  }

  lemma EntryExists(g: Graph, ps: set<Block>, h: Block, t: Block, phi: Phi)
    requires EntriesTo(g, ps, h, t) && OneInputEach(g, h, phi.inputs)
    ensures Entries(phi, t) != []
  {
    var u :| u in ps;
    assert Edge(g, u, h) && HasSource(phi.inputs, u);
    var k :| 0 <= k < |phi.inputs| && phi.inputs[k].source == u;
    assert phi.inputs[k] in phi.inputs && phi.inputs[k] != BackInput(phi, t);
    assert phi.inputs[k] in Entries(phi, t);
  }

  lemma AllHaveEntries(c: Program, bound: Value, ps: set<Block>, h: Block, t: Block)
    requires Fit(c, bound) && EntriesTo(c.g, ps, h, t)
    ensures h < |c.body| && HaveEntries(c.body[h].phis, t) && HeaderPhis(c.body[h].phis, ps, t)
    ensures PhisComplete(c.g, c.body)
  {
    assert BlockPhis(c.g, h, c.body[h].phis);
    var phis := c.body[h].phis;
    forall q | 0 <= q < |phis|
      ensures Entries(phis[q], t) != [] && DistinctSources(phis[q].inputs)
      ensures forall u :: u in ps + {t} ==> HasSource(phis[q].inputs, u)
    {
      EntryExists(c.g, ps, h, t, phis[q]);
      assert OneInputEach(c.g, h, phis[q].inputs);
      forall u | u in ps + {t} ensures HasSource(phis[q].inputs, u) {
        assert Edge(c.g, u, h);
      }
    }
    hide Entries;
    EveryPhiComplete(c, bound);
  }

  lemma EveryPhiComplete(c: Program, bound: Value)
    requires Fit(c, bound)
    ensures PhisComplete(c.g, c.body)
  {
    var g, body := c.g, c.body;
    forall b: nat, s: nat, q | Edge(g, b, s) && s < |body| && 0 <= q < |body[s].phis|
      ensures HasSource(body[s].phis[q].inputs, b)
    {
      assert BlockPhis(g, s, body[s].phis) && OneInputEach(g, s, body[s].phis[q].inputs);
    }
  }

  lemma CanRewrite(c: Program, r: Graph, ps: set<Block>, h: Block, t: Block, bound: Value)
    requires Fit(c, bound) && Redirected(c.g, r, ps, h) && EntriesTo(c.g, ps, h, t)
    ensures h < |c.body| && HaveEntries(c.body[h].phis, t)
    ensures Rewritten(c, Rewriting(c, r, h, t, bound), ps, h, t, bound)
  {
    AllHaveEntries(c, bound, ps, h, t);
    hide Fit, Redirected, EntriesTo, HeaderPhis, HaveEntries, PhisComplete, Below, Move;
    RewriteParts(c, r, ps, h, t, bound);
  }

  lemma RewriteParts(c: Program, r: Graph, ps: set<Block>, h: Block, t: Block, bound: Value)
    requires Fit(c, bound) && EntriesTo(c.g, ps, h, t)
    ensures |c.body| == |c.g| && t < |c.g| && t !in ps && Below(c.body, bound)
    ensures (forall u: nat :: Edge(c.g, u, h) <==> u in ps || u == t) && forall v: Value :: v in c.moved ==> v < bound
  {}

  /** The entries of a phi are its inputs from all predecessors but the latch. */
  lemma EntriesEach(g: Graph, ps: set<Block>, h: Block, t: Block, phi: Phi, u: Block)
    requires EntriesTo(g, ps, h, t) && OneInputEach(g, h, phi.inputs)
    ensures HasSource(Entries(phi, t), u) <==> u in ps
  {
    var ins, es := phi.inputs, Entries(phi, t);
    assert HasSource(ins, t);
    var j :| 0 <= j < |ins| && ins[j].source == t;
    SourceUnique(ins, t, j);
    assert ins[j] == BackInput(phi, t);
    if HasSource(es, u) {
      var k :| 0 <= k < |es| && es[k].source == u;
      assert es[k] in es && es[k] in ins;
      var i :| 0 <= i < |ins| && ins[i] == es[k];
      assert HasSource(ins, u) && i != j;
    }
    if u in ps {
      assert Edge(g, u, h) && HasSource(ins, u);
      var i :| 0 <= i < |ins| && ins[i].source == u;
      assert ins[i] in ins && ins[i] in es;
      var k :| 0 <= k < |es| && es[k] == ins[i];
    }
  }

  lemma RestDistinct(ins: seq<PhiInput>, y: PhiInput)
    requires DistinctSources(ins) && ins != []
    ensures DistinctSources(ins[1..]) && (y in ins[1..] ==> y.source != ins[0].source)
  {
    forall i | 0 <= i < |ins| - 1 ensures ins[1..][i] == ins[i + 1] {}
  }

  lemma DistinctCons(x: PhiInput, es: seq<PhiInput>)
    requires DistinctSources(es) && forall y :: y in es ==> y.source != x.source
    ensures DistinctSources([x] + es)
  {
    var r := [x] + es;
    forall i, j | 0 <= i < j < |r| ensures r[i].source != r[j].source {
      assert r[j] in es;
    }
  }

  lemma {:induction false} WithoutDistinct(ins: seq<PhiInput>, x: PhiInput)
    requires DistinctSources(ins)
    ensures DistinctSources(WithoutInput(ins, x))
    decreases |ins|
  {
    hide DistinctSources;
    if ins == [] {
      NoneDistinct();
    } else {
      var es := WithoutInput(ins[1..], x);
      RestDistinct(ins, x);
      WithoutDistinct(ins[1..], x);
      forall y | y in es ensures y.source != ins[0].source {
        RestDistinct(ins, y);
      }
      DistinctCons(ins[0], es);
      assert [] + es == es;
    }
  }

  lemma NoneDistinct()
    ensures DistinctSources([])
  {}

  lemma EntriesOne(g: Graph, r: Graph, ps: set<Block>, h: Block, t: Block, phi: Phi)
    requires Redirected(g, r, ps, h) && EntriesTo(g, ps, h, t) && OneInputEach(g, h, phi.inputs)
    ensures OneInputEach(r, |g|, Entries(phi, t))
  {
    WithoutDistinct(phi.inputs, BackInput(phi, t));
    forall u: Block ensures HasSource(Entries(phi, t), u) <==> Edge(r, u, |g|) {
      EntriesEach(g, ps, h, t, phi, u);
      NewEdges(g, r, ps, h, u, h);
      assert u in ps ==> Edge(g, u, h);
    }
  }

  lemma KeptOne(g: Graph, r: Graph, ps: set<Block>, h: Block, t: Block, m: Moved, q: nat, phi: Phi, bound: Value)
    requires Redirected(g, r, ps, h) && EntriesTo(g, ps, h, t) && MovedPhi(phi, m, q, t, |g|, bound)
    ensures OneInputEach(r, h, m.kept[q].inputs)
  {
    var ins := m.kept[q].inputs;
    assert |ins| == 2 && ins[0].source == t && ins[1].source == |g|;
    forall u: Block ensures HasSource(ins, u) <==> Edge(r, u, h) {
      NewEdges(g, r, ps, h, u, h);
      NewEdges(g, r, ps, h, t, h);
      assert u < |g| ==> (Edge(g, u, h) <==> u in ps || u == t);
      assert ins[0].source == t && ins[1].source == |g|;
    }
  }

  lemma OtherPhis(g: Graph, r: Graph, ps: set<Block>, h: Block, b: Block, phis: seq<Phi>)
    requires Redirected(g, r, ps, h) && b < |g| && b != h && BlockPhis(g, b, phis)
    ensures BlockPhis(r, b, phis)
  {
    forall q | 0 <= q < |phis| ensures OneInputEach(r, b, phis[q].inputs) {
      assert OneInputEach(g, b, phis[q].inputs);
      forall u: Block ensures Edge(g, u, b) <==> Edge(r, u, b) {
        NewEdges(g, r, ps, h, u, b);
      }
    }
  }

  /** The lists of phis after the rewriting have one input for every predecessor. */
  lemma PhisKept(c: Program, r: Graph, ps: set<Block>, h: Block, t: Block, bound: Value, m: Moved)
    requires Fit(c, bound) && Redirected(c.g, r, ps, h) && EntriesTo(c.g, ps, h, t) && h < |c.body|
    requires AllMoved(c.body[h].phis, |c.body[h].phis|, m, t, |c.g|, bound)
    ensures BlockPhis(r, h, m.kept) && BlockPhis(r, |c.g|, m.added)
  {
    var phis := c.body[h].phis;
    assert BlockPhis(c.g, h, phis);
    hide Fit, EntriesTo, Redirected, OneInputEach, Entries;
    forall q | 0 <= q < |m.kept| ensures OneInputEach(r, h, m.kept[q].inputs) {
      KeptOne(c.g, r, ps, h, t, m, q, phis[q], bound);
    }
    forall j | 0 <= j < |m.added| ensures OneInputEach(r, |c.g|, m.added[j].inputs) {
      assert Merges(phis, |phis|, m.added[j], t);
      var q :| 0 <= q < |phis| && m.added[j].inputs == Entries(phis[q], t);
      assert OneInputEach(c.g, h, phis[q].inputs);
      EntriesOne(c.g, r, ps, h, t, phis[q]);
    }
  }

  lemma EntriesBelow(phi: Phi, t: Block, bound: Value)
    requires PhiBelow(phi, bound)
    ensures forall k :: 0 <= k < |Entries(phi, t)| ==> Entries(phi, t)[k].value < bound
  {
    forall k | 0 <= k < |Entries(phi, t)| ensures Entries(phi, t)[k].value < bound {
      assert Entries(phi, t)[k] in phi.inputs;
    }
  }

  lemma BackBelow(g: Graph, ps: set<Block>, h: Block, t: Block, phi: Phi, bound: Value)
    requires PhiBelow(phi, bound) && EntriesTo(g, ps, h, t) && OneInputEach(g, h, phi.inputs)
    ensures BackInput(phi, t).value < bound
  {
    assert HasSource(phi.inputs, t);
    var k :| 0 <= k < |phi.inputs| && phi.inputs[k] == PhiInput(SourceOf(phi.inputs, t), t);
  }

  lemma KeptBelow(g: Graph, ps: set<Block>, h: Block, t: Block, m: Moved, q: nat, phi: Phi, bound: Value, n: Block)
    requires MovedPhi(phi, m, q, t, n, bound) && PhiBelow(phi, bound)
    requires EntriesTo(g, ps, h, t) && OneInputEach(g, h, phi.inputs)
    ensures PhiBelow(m.kept[q], bound + |m.added|)
  {
    EntriesBelow(phi, t, bound);
    BackBelow(g, ps, h, t, phi, bound);
    hide Entries, EntriesTo, OneInputEach, BackInput;
  }

  lemma IdsKept(c: Program, ps: set<Block>, h: Block, t: Block, bound: Value, m: Moved)
    requires Fit(c, bound) && EntriesTo(c.g, ps, h, t) && h < |c.body|
    requires AllMoved(c.body[h].phis, |c.body[h].phis|, m, t, |c.g|, bound)
    ensures forall q :: 0 <= q < |m.kept| ==> PhiBelow(m.kept[q], bound + |m.added|)
    ensures forall j :: 0 <= j < |m.added| ==> PhiBelow(m.added[j], bound + |m.added|)
  {
    var phis := c.body[h].phis;
    assert BlockPhis(c.g, h, phis) && Below(c.body, bound);
    assert forall q :: 0 <= q < |phis| ==> PhiBelow(phis[q], bound);
    hide Fit, EntriesTo, OneInputEach, Entries, PhiBelow, Below;
    forall q | 0 <= q < |m.kept| ensures PhiBelow(m.kept[q], bound + |m.added|) {
      assert OneInputEach(c.g, h, phis[q].inputs);
      KeptBelow(c.g, ps, h, t, m, q, phis[q], bound, |c.g|);
    }
    forall j | 0 <= j < |m.added| ensures PhiBelow(m.added[j], bound + |m.added|) {
      assert Merges(phis, |phis|, m.added[j], t);
      var q :| 0 <= q < |phis| && m.added[j].inputs == Entries(phis[q], t);
      EntriesBelow(phis[q], t, bound);
      NewPhiBelow(m.added[j], bound, j, |m.added|);
    }
  }

  lemma NewPhiBelow(x: Phi, bound: Value, j: nat, k: nat)
    requires x.id == bound + j && j < k && forall i :: 0 <= i < |x.inputs| ==> x.inputs[i].value < bound
    ensures PhiBelow(x, bound + k)
  {}

  lemma BelowMore(body: Code, b: Block, bound: Value, bound': Value)
    requires Below(body, bound) && bound <= bound' && b < |body|
    ensures InstsBelow(body[b].insts, bound')
    ensures forall q :: 0 <= q < |body[b].phis| ==> PhiBelow(body[b].phis[q], bound')
  {
    assert InstsBelow(body[b].insts, bound);
    forall q | 0 <= q < |body[b].phis| ensures PhiBelow(body[b].phis[q], bound') {
      assert PhiBelow(body[b].phis[q], bound);
    }
  }

  /** A rewriting keeps every phi complete, so the next one can follow. */
  lemma FitKept(c: Program, r: Graph, ps: set<Block>, h: Block, t: Block, bound: Value, m: Moved)
    requires Fit(c, bound) && Redirected(c.g, r, ps, h) && EntriesTo(c.g, ps, h, t)
    requires h < |c.body| && HaveEntries(c.body[h].phis, t)
    requires m == Move(c.body[h].phis, |c.body[h].phis|, t, |c.g|, bound)
    ensures Fit(Rewriting(c, r, h, t, bound), bound + |m.added|)
  {
    var d, n := Rewriting(c, r, h, t, bound), |c.g|;
    AllHaveEntries(c, bound, ps, h, t);
    assert t in ps + {t};
    MoveFacts(c.body[h].phis, |c.body[h].phis|, t, n, bound);
    PhisKept(c, r, ps, h, t, bound, m);
    IdsKept(c, ps, h, t, bound, m);
    NewValid(c.g, r, ps, h);
    BodyKept(c, d, r, ps, h, bound, m);
  }

  lemma BodyKept(c: Program, d: Program, r: Graph, ps: set<Block>, h: Block, bound: Value, m: Moved)
    requires Fit(c, bound) && Redirected(c.g, r, ps, h) && h < |c.body| && Valid(r)
    requires d.g == r && d.body == c.body[h := BasicBlock(m.kept, c.body[h].insts)] + [BasicBlock(m.added, [])]
    requires d.moved == c.moved + NewIds(bound, |m.added|)
    requires BlockPhis(r, h, m.kept) && BlockPhis(r, |c.g|, m.added)
    requires forall q :: 0 <= q < |m.kept| ==> PhiBelow(m.kept[q], bound + |m.added|)
    requires forall j :: 0 <= j < |m.added| ==> PhiBelow(m.added[j], bound + |m.added|)
    ensures Fit(d, bound + |m.added|)
  {
    var n := |c.g|;
    forall b | 0 <= b < |d.body| ensures BlockPhis(r, b, d.body[b].phis) {
      if b < n && b != h {
        OtherPhis(c.g, r, ps, h, b, c.body[b].phis);
      }
    }
    hide BlockPhis, Redirected, PhiBelow, InstsBelow;
    forall b | 0 <= b < |d.body|
      ensures InstsBelow(d.body[b].insts, bound + |m.added|)
      ensures forall q :: 0 <= q < |d.body[b].phis| ==> PhiBelow(d.body[b].phis[q], bound + |m.added|)
    {
      if b < n {
        BelowMore(c.body, b, bound, bound + |m.added|);
      } else {
        NoInsts(bound + |m.added|);
      }
    }
  }

  lemma NoInsts(bound: Value)
    ensures InstsBelow([], bound)
  {}
}
