/** The whole pass (pass/loop_analysis.cpp:10-28). */
module LoopAnalysis {
  import opened Cfg
  import opened Coverage
  import opened Traversal
  import opened NaturalLoops
  import opened Ssa
  import opened Execution
  import opened FlowGraph
  import opened Redirection
  import opened LoopRewrite
  import opened Preservation
  import opened HeaderShape
  import opened LoopNormalForm
  import opened SsaRewrite
  import opened SplitOrder
  import BE = BackEdges
  import HR = HeaderRewriter
  import LP = LoopPopulation
  import LT = LoopTree
  import DT = DominatorTree

  // ---- No block is its own successor -----------------------------------------------------------------

  ghost predicate NoSelfEdges(g: Graph) {
    forall u: Block :: !Edge(g, u, u)
  }

  lemma NoSelfEdgesNext(g: Graph, r: Graph, ps: set<Block>, h: Block)
    requires Redirected(g, r, ps, h) && NoSelfEdges(g)
    ensures NoSelfEdges(r)
  {
    forall u: Block ensures !Edge(r, u, u) {
      NewEdges(g, r, ps, h, u, u);
    }
  }

  lemma {:induction false} ChainHasNoSelfEdges(c: Program, cs: seq<Change>, base: Value)
    requires Chain(c, cs, base) && NoSelfEdges(c.g)
    ensures NoSelfEdges(Latest(c, cs).g)
    decreases |cs|
  {
    if cs != [] {
      LastChange(c, cs, base);
      var front, x := cs[..|cs| - 1], cs[|cs| - 1];
      hide Rewritten, Chain, NoSelfEdges;
      ChainHasNoSelfEdges(c, front, base);
      RewrittenShape(Latest(c, front), x.after, x.ps, x.h, x.t, x.bound);
      NoSelfEdgesNext(Latest(c, front).g, x.after.g, x.ps, x.h);
    }
  }

  lemma NoLoopOfOne(g: Graph, ls: seq<Info>)
    requires HR.Normalized(g, ls) && NoSelfEdges(g)
    ensures NoSelfLoops(ls)
  {
    forall k | 0 < k < |ls| && |ls[k].backEdges| > 0 ensures ls[k].header != ls[k].backEdges[0] {
      assert LoopOk(g, ls[k]);
    }
  }

  // ---- The pass --------------------------------------------------------------------------------------

  /** The graph and its loop tree are in normal form. */
  ghost predicate InNormalForm(g: Graph, ls: seq<Info>, s: LP.Tree) {
    && Valid(g) && LP.Postorder(g, Post(g, START, {})) && LP.Built(g, HeadersOf(ls), s)
    && (forall k :: 0 < k < |ls| ==> PreHeadersOf(ls)[k] < |g|)
    && exists rank :: LT.NormalForm(g, LP.AsTree(g, HeadersOf(ls), Post(g, START, {}), s, PreHeadersOf(ls)), rank)
  }

  /** What the pass leaves behind: loops with normal headers and exact flags, and a loop tree that is right
      if and only if no reducible loop is a single block.  If all loops are reducible, the result is in normal
      form under the same condition. */
  ghost predicate Analysed(g: Graph, ls: seq<Info>, s: LP.Tree) {
    && HR.Normalized(g, ls) && (LP.RightTree(g, HeadersOf(ls), s) <==> NoSelfLoops(ls))
    && (LP.AllReducible(HeadersOf(ls)) ==> (InNormalForm(g, ls, s) <==> NoSelfLoops(ls)))
  }

  lemma ListsReversed(e: Flow)
    requires Symmetric(e)
    ensures Valid(e.succs) && Reversed(e.succs, e.preds)
  {
    forall u: nat, v: nat ensures Edge(e.succs, u, v) <==> Edge(e.preds, v, u) {
      assert u < |e.succs| ==> InRange(e.succs, e.succs[u]);
      assert v < |e.preds| ==> InRange(e.succs, e.preds[v]);
    }
    assert Valid(e.preds) by {
      forall b | 0 <= b < |e.preds| ensures InRange(e.preds, e.preds[b]) {
        assert InRange(e.succs, e.preds[b]);
      }
    }
  }

  lemma RewrittenIsSourced(e: Flow, c: Program, next: Value, c0: Program, cs: seq<Change>, base: Value, ls: seq<Info>)
    requires HR.Good(e, c, next, c0, cs, base) && HR.Normalized(e.succs, ls)
    ensures LP.Shape(e.succs, e.preds, HeadersOf(ls)) && LP.Sourced(e.succs, HeadersOf(ls))
    ensures LP.NoSelfLoop(HeadersOf(ls)) <==> NoSelfLoops(ls)
    ensures NoSelfEdges(c0.g) ==> NoSelfLoops(ls)
    ensures Valid(e.succs) && HR.AllReached(e.succs) && Symmetric(e)
  {
    if NoSelfEdges(c0.g) {
      ChainHasNoSelfEdges(c0, cs, base);
      NoLoopOfOne(e.succs, ls);
    }
    ListsReversed(e);
    hide Chain, Fit, NoSelfEdges, Reversed, Valid;
    hide Symmetric, HR.Normalized, NoSelfLoops, Edge;
    SourcedHeaders(e.succs, ls);
  }

  /** The program is still in strict SSA form, and its phis are complete. */
  lemma RewrittenIsSsa(e: Flow, c: Program, next: Value, c0: Program, cs: seq<Change>, base: Value)
    requires HR.Good(e, c, next, c0, cs, base)
    ensures PhisComplete(c.g, c.body) && (SsaProgram(c0, base) ==> SsaProgram(c, base))
  {
    EveryPhiComplete(c, next);
    hide SsaProgram, Chain, Fit, PhisComplete;
    if SsaProgram(c0, base) {
      ChainKeepsSsa(c0, cs, base);
    }
  }

  lemma AnalysisDone(e: Flow, ls: seq<Info>, s: LP.Tree)
    requires Symmetric(e) && Valid(e.succs) && HR.AllReached(e.succs) && HR.Normalized(e.succs, ls)
    requires LP.RightTree(e.succs, HeadersOf(ls), s) <==> NoSelfLoops(ls)
    requires NoSelfLoops(ls) ==> LP.Built(e.succs, HeadersOf(ls), s)
    ensures Analysed(e.succs, ls, s)
  {
    var g, po := e.succs, Post(e.succs, START, {});
    assert InNormalForm(g, ls, s) ==> LP.RightTree(g, HeadersOf(ls), s);
    if NoSelfLoops(ls) && LP.AllReducible(HeadersOf(ls)) {
      LP.PostorderOf(g, HeadersOf(ls));
      DistinctSuccs(e);
      hide Symmetric, HR.Normalized, NoSelfLoops, LP.Built, LP.Postorder, LP.AllReducible, LP.AsTree, HR.AllReached,
           LT.NormalForm, LP.RightTree;
      AnalysisGivesNormalForm(g, ls, po, s);
      assert InNormalForm(g, ls, s);
    }
  }

  lemma DistinctSuccs(e: Flow)
    requires Symmetric(e)
    ensures Valid(e.succs) && forall b :: 0 <= b < |e.succs| ==> NoRepeats(e.succs[b])
  {}

  /** The loops as they are when back edges have been collected. */
  method LoopsWithFlags(tree: DT.DomTree, s: BE.Found) returns (ls: seq<Info>)
    requires Valid(tree.g) && DT.IsDominatorTree(tree.g, tree.immDominator) && HR.AllReached(tree.g)
    requires Collects(tree.g, s)
    requires (forall u :: 0 <= u < |tree.g| ==> NoRepeats(tree.g[u])) && forall u: Block :: !Edge(tree.g, u, START)
    ensures ls == Collected(tree.g, s)
  {
    ls := [];
    hide DT.IsDominatorTree, HR.AllReached, Collects, LoopOk, Edge, NoRepeats, TrulyReducible;
    for k := 0 to |s.loops|
      invariant ls == Collected(tree.g, s)[..k]
    {
      FoundRange(tree.g, s, k);
      var l := Info(s.loops[k].header, s.loops[k].backEdges, false, NULL);
      if k > 0 {
        var r := HR.CalculateReducibility(tree, l);
        l := l.(reducible := r);
      } else {
        l := l.(reducible := true);
      }
      CollectedAt(tree.g, s, k);
      ls := ls + [l];
    }
  }

  lemma NoneCollected(g: Graph, s: BE.Found)
    ensures HR.NoPreHeaders(Collected(g, s))
  {}

  lemma CollectedAt(g: Graph, s: BE.Found, k: nat)
    requires Valid(g) && Collects(g, s) && k < |s.loops|
    ensures var l := Info(s.loops[k].header, s.loops[k].backEdges, false, NULL);
      && Collected(g, s)[k] == l.(reducible := TrulyReducible(g, l))
      && (k == 0 ==> TrulyReducible(g, l))
    ensures Collected(g, s)[..k + 1] == Collected(g, s)[..k] + [Collected(g, s)[k]]
  {}

  lemma FoundRange(g: Graph, s: BE.Found, k: nat)
    requires Valid(g) && Collects(g, s) && k < |s.loops|
    requires (forall u :: 0 <= u < |g| ==> NoRepeats(g[u])) && forall u: Block :: !Edge(g, u, START)
    ensures k > 0 ==> s.loops[k].backEdges != [] && s.loops[k].header < |g|
    ensures forall i :: 0 <= i < |s.loops[k].backEdges| ==> s.loops[k].backEdges[i] < |g|
  {
    if k > 0 {
      CollectedLoop(g, s, k);
      assert LoopOk(g, Collected(g, s)[k]);
    }
  }

  /** The first phase: the back edges, with the dominator tree for the flags. */
  method FoundLoops(g: Graph) returns (infos: seq<Info>, idx: map<Block, nat>, found: BE.Found)
    requires Valid(g) && HR.AllReached(g)
    requires (forall u :: 0 <= u < |g| ==> NoRepeats(g[u])) && forall u: Block :: !Edge(g, u, START)
    ensures Collects(g, found) && infos == Collected(g, found) && idx == BE.Number(map[], Pre(g, START, {}))
  {
    hide HR.AllReached, Edge, NoRepeats, Valid, BE.Groups, BE.Recorded, BE.Number, DT.IsDominatorTree;
    var dom := new DT.DomTree(g);
    dom.Run();
    var collector := new BE.BackEdgeCollector(g);
    collector.Run();
    found := BE.Found(collector.loops, collector.loopOf);
    infos := LoopsWithFlags(dom, found);
    idx := collector.idToDfsIdx;
  }

  /** Splitting and pre-headers. */
  method RewrittenLoops(graph: CfgGraph, body: Code, next: Value, infos: seq<Info>, idx: map<Block, nat>,
                        ghost c: Program)
    returns (body': Code, loops: seq<Info>, ghost d: Program, ghost changes: seq<Change>)
    requires Symmetric(graph.Abs()) && c.g == graph.succs && c.body == body && Fit(c, next) && HR.AllReached(c.g)
    requires LoopsOk(c.g, infos) && HR.Exact(c.g, infos) && Acyclic(c.g, infos, 0, [])
    modifies graph
    ensures d.g == graph.succs && d.body == body' && Preserved(c, d, changes, next) && HR.Normalized(d.g, loops)
    ensures HR.NestsUpTo(d.g, infos, loops, idx, |infos|)
    ensures HR.NoPreHeaders(infos) ==> HR.Accounted(loops, |c.g|, |d.g|)
    ensures exists last :: HR.Good(graph.Abs(), d, last, c, changes, next)
  {
    hide Symmetric, Fit, HR.AllReached, LoopsOk, HR.Exact, Acyclic, Preserved, HR.Normalized, HR.NestsUpTo, HR.Good,
         HR.NoPreHeaders, HR.Accounted;
    var rewriter := new HR.HeaderRewriter(graph, body, next, infos, idx, c);
    rewriter.Run();
    body', loops, d, changes := rewriter.body, rewriter.loops, rewriter.program, rewriter.changes;
    assert HR.Good(graph.Abs(), d, rewriter.next, c, changes, next);
  }

  /** The last phases: populating the loops and building the tree. */
  method PopulatedLoops(graph: CfgGraph, loops: seq<Info>) returns (tree: LP.Tree)
    requires Symmetric(graph.Abs()) && Valid(graph.succs) && HR.AllReached(graph.succs)
    requires HR.Normalized(graph.succs, loops) && LP.Sourced(graph.succs, HeadersOf(loops))
    requires LP.Shape(graph.succs, graph.preds, HeadersOf(loops))
    requires LP.NoSelfLoop(HeadersOf(loops)) <==> NoSelfLoops(loops)
    ensures Analysed(graph.succs, loops, tree)
  {
    hide Symmetric, HR.AllReached, Valid, LP.Built, HR.Normalized, Analysed, LP.Sourced, LP.Shape, NoSelfLoops,
         LP.RightTree, LP.NoSelfLoop;
    var populator := new LP.LoopPopulator(graph.succs, graph.preds, HeadersOf(loops));
    populator.Run();
    tree := LP.Tree(populator.loopOf, populator.outer);
    AnalysisDone(graph.Abs(), loops, tree);
  }

  /** Collects back edges, splits them, adds pre-headers, populates the loops and builds the loop tree.
      `c` is the program and `d` what it becomes; `next` is the next instruction id.  Runs and
      strict SSA form are preserved.  The loop tree is right unless a reducible loop is a single block,
      which a program without such blocks never gets; if moreover all loops are reducible, the result is in
      the normal form that liveness analysis assumes.  Loops with several back edges are split in the order in
      which depth-first search visits these in the graph before the pass, and no other blocks are added than
      their new headers and one pre-header for each reducible loop. */
  method Run(graph: CfgGraph, body: Code, next: Value, ghost c: Program)
    returns (body': Code, loops: seq<Info>, tree: LP.Tree, ghost d: Program, ghost changes: seq<Change>)
    requires Symmetric(graph.Abs()) && c.g == graph.succs && c.body == body && Fit(c, next) && HR.AllReached(c.g)
    requires forall u: Block :: !Edge(c.g, u, START)
    modifies graph
    ensures d.g == graph.succs && d.body == body' && Symmetric(graph.Abs())
    ensures Preserved(c, d, changes, next) && Analysed(d.g, loops, tree)
    ensures NoSelfEdges(c.g) ==> NoSelfLoops(loops)
    ensures Valid(c.g) && SplitInOrder(c.g, d.g, loops) && HR.Accounted(loops, |c.g|, |d.g|)
    ensures PhisComplete(d.g, d.body) && (SsaProgram(c, next) ==> SsaProgram(d, next))
  {
    DistinctSuccs(graph.Abs());
    hide Symmetric, Fit, NoSelfEdges, Edge, HR.AllReached, NoRepeats, Valid, Collects, Collected, BE.Number, HR.Exact,
         LoopsOk, Acyclic, Preserved, LP.Built, HR.Normalized, HR.Good, Analysed, LP.Sourced, LP.Shape, NoSelfLoops,
         LP.RightTree, LP.NoSelfLoop, SsaProgram, PhisComplete, SplitInOrder, HR.NestsUpTo,
         HR.NoPreHeaders, HR.Accounted;
    var infos, idx, found := FoundLoops(graph.succs);
    CollectedIsReady(graph.succs, found);
    NoneCollected(graph.succs, found);
    body', loops, d, changes := RewrittenLoops(graph, body, next, infos, idx, c);
    ghost var last :| HR.Good(graph.Abs(), d, last, c, changes, next);
    NestsAreInOrder(c.g, found, d.g, loops);
    RewrittenIsSsa(graph.Abs(), d, last, c, changes, next);
    RewrittenIsSourced(graph.Abs(), d, last, c, changes, next, loops);
    tree := PopulatedLoops(graph, loops);
  }
}
