/** What redirecting edges does to the lists of the graph and to the loops (pass/loop_analysis.cpp:107-186,
    ir/graph.cpp:77-126). */
module HeaderShape {
  import opened Cfg
  import opened Coverage
  import opened FlowGraph
  import opened Redirection
  import opened Preservation
  import LT = LoopTree

  // ---- Lists ---------------------------------------------------------------------------------------

  /** The lists after a new block has taken over the edges from `ps` to `h`. */
  ghost predicate InFront(e: Flow, r: Flow, ps: set<Block>, h: Block) {
    var n := |e.succs|;
    && Symmetric(e) && Redirected(e.succs, r.succs, ps, h) && |r.preds| == n + 1 && r.last == e.last + [Plain]
    && (forall b :: 0 <= b < n && b != h ==> r.preds[b] == e.preds[b])
    && NoRepeats(r.preds[h]) && NoRepeats(r.preds[n])
    && (forall x :: x in r.preds[n] <==> x in ps)
    && (forall x :: x in r.preds[h] <==> x == n || (x in e.preds[h] && x !in ps))
  }

  lemma InFrontMirror(e: Flow, r: Flow, ps: set<Block>, h: Block, a: Block, b: Block)
    requires InFront(e, r, ps, h) && a < |r.succs| && b < |r.preds|
    ensures b in r.succs[a] <==> a in r.preds[b]
  {
    var n := |e.succs|;
    NewEdges(e.succs, r.succs, ps, h, a, b);
    NewEdges(e.succs, r.succs, ps, h, a, h);
    assert b < n ==> InRange(e.succs, e.preds[b]);
    if a < n && b < n {
      assert b in e.succs[a] <==> a in e.preds[b];
    }
    assert a in ps ==> Edge(e.succs, a, h);
  }

  lemma InFrontSuccs(e: Flow, r: Flow, ps: set<Block>, h: Block, b: Block)
    requires InFront(e, r, ps, h) && b < |r.succs|
    ensures NoRepeats(r.succs[b]) && |r.succs[b]| == NumSuccessors(r.last[b])
  {
    var n := |e.succs|;
    if b < n {
      assert InRange(e.succs, e.succs[b]) && NoRepeats(e.succs[b]);
      ReplaceMembers(e.succs[b], h, n);
    }
  }

  lemma InFrontPreds(e: Flow, r: Flow, ps: set<Block>, h: Block, b: Block)
    requires InFront(e, r, ps, h) && b < |r.preds|
    ensures NoRepeats(r.preds[b]) && InRange(r.succs, r.preds[b])
  {
    var n := |e.succs|;
    assert InRange(e.succs, e.preds[h]);
    assert b < n ==> InRange(e.succs, e.preds[b]) && NoRepeats(e.preds[b]);
    forall i | 0 <= i < |r.preds[b]| ensures r.preds[b][i] <= n {
      var x := r.preds[b][i];
      assert x in r.preds[b];
      assert x in ps ==> Edge(e.succs, x, h);
    }
  }

  lemma InFrontSymmetric(e: Flow, r: Flow, ps: set<Block>, h: Block)
    requires InFront(e, r, ps, h)
    ensures Symmetric(r)
  {
    NewValid(e.succs, r.succs, ps, h);
    forall b | 0 <= b < |r.succs|
      ensures NoRepeats(r.succs[b]) && |r.succs[b]| == NumSuccessors(r.last[b])
      ensures NoRepeats(r.preds[b]) && InRange(r.succs, r.preds[b])
    {
      InFrontSuccs(e, r, ps, h, b);
      InFrontPreds(e, r, ps, h, b);
    }
    forall a, b | 0 <= a < |r.succs| && 0 <= b < |r.preds| ensures b in r.succs[a] <==> a in r.preds[b] {
      InFrontMirror(e, r, ps, h, a, b);
    }
  }

  lemma WithBlockRange(e: Flow, us: seq<Block>)
    requires InRange(e.succs, us)
    ensures InRange(WithBlock(e, Plain).succs, us)
  {}

  /** The edges from `us` are redirected to a new block that leads to `h`. */
  function PreHeaderFlow(e: Flow, us: seq<Block>, h: Block): (r: Flow)
    requires |e.succs| == |e.preds| && InRange(e.succs, us) && h < |e.succs|
    ensures |r.succs| == |r.preds| == |e.succs| + 1
  {
    WithBlockRange(e, us);
    Linked(RedirectAll(WithBlock(e, Plain), us, h, |e.succs|), |e.succs|, h)
  }

  lemma PredsAreEdges(e: Flow, h: Block, u: Block)
    requires Symmetric(e) && h < |e.succs|
    ensures u in e.preds[h] <==> Edge(e.succs, u, h)
    ensures u in e.preds[h] ==> u < |e.succs|
  {
    assert InRange(e.succs, e.preds[h]);
  }

  lemma PreHeaderLists(e: Flow, us: seq<Block>, h: Block, ps: set<Block>)
    requires Symmetric(e) && h < |e.succs| && h != START && InRange(e.succs, us) && NoRepeats(us)
    requires (forall x :: x in us ==> x in e.preds[h]) && forall x :: x in us <==> x in ps
    ensures InFront(e, PreHeaderFlow(e, us, h), ps, h)
  {
    var n := |e.succs|;
    var e1 := WithBlock(e, Plain);
    WithBlockRange(e, us);
    RedirectAllLists(e1, us, h, n);
    var r := PreHeaderFlow(e, us, h);
    assert InRange(e.succs, e.preds[h]) && NoRepeats(e.preds[h]);
    assert e1.preds[h] == e.preds[h] && [] + us == us;
    AppendDistinct(RedirectAll(e1, us, h, n).preds[h], n);
    hide RedirectAll, Replace, NoRepeats;
    forall u | u in ps ensures Edge(e.succs, u, h) {
      PredsAreEdges(e, h, u);
    }
  }

  lemma AppendDistinct(s: seq<Block>, x: Block)
    requires NoRepeats(s) && x !in s
    ensures NoRepeats(s + [x])
  {}

  /** `InsertBasicBlockBefore` and then one edge back to `h`. */
  function SplitFlow(e: Flow, h: Block, t: Block): (r: Flow)
    requires |e.succs| == |e.preds| && h < |e.preds| && InRange(e.succs, e.preds[h]) && t < |e.succs|
    ensures |r.succs| == |r.preds| == |e.succs| + 1
  {
    Redirect(PreHeaderFlow(e, e.preds[h], h), t, |e.succs|, h)
  }

  lemma ReplaceBack(s: seq<Block>, h: Block, n: Block)
    requires NoRepeats(s) && n !in s
    ensures Replace(Replace(s, h, n), n, h) == s
  {
    ReplaceAt(s, h, n);
    ReplaceMembers(s, h, n);
    ReplaceAt(Replace(s, h, n), n, h);
    var r := Replace(Replace(s, h, n), n, h);
    forall i | 0 <= i < |s| ensures r[i] == s[i] {
      assert s[i] in s;
    }
  }

  lemma SplitLists(e: Flow, h: Block, t: Block, ps: set<Block>)
    requires Symmetric(e) && h < |e.succs| && h != START && t in e.preds[h] && InRange(e.succs, e.preds[h])
    requires t < |e.succs|
    requires forall x :: x in ps <==> x in e.preds[h] && x != t
    ensures InFront(e, SplitFlow(e, h, t), ps, h)
  {
    var n := |e.succs|;
    var all := Elems(e.preds[h]);
    var m, r := PreHeaderFlow(e, e.preds[h], h), SplitFlow(e, h, t);
    PreHeaderLists(e, e.preds[h], h, all);
    hide PreHeaderFlow;
    SplitPreds(e, m, h, t, all, ps);
    SplitSuccs(e, m, h, t, all, ps);
  }

  lemma SplitPreds(e: Flow, m: Flow, h: Block, t: Block, all: set<Block>, ps: set<Block>)
    requires InFront(e, m, all, h) && t in all && t < |e.succs| && h < |e.succs|
    requires forall x :: x in all <==> x in e.preds[h]
    requires forall x :: x in ps <==> x in all && x != t
    ensures |m.succs| == |m.preds| == |e.succs| + 1
    ensures var n := |e.succs|;
      var r := Redirect(m, t, n, h);
      && r.last == m.last && (forall b :: 0 <= b < n && b != h ==> r.preds[b] == e.preds[b])
      && NoRepeats(r.preds[h]) && NoRepeats(r.preds[n])
      && (forall x :: x in r.preds[n] <==> x in ps)
      && (forall x :: x in r.preds[h] <==> x == n || (x in e.preds[h] && x !in ps))
  {
    var n := |e.succs|;
    RemoveDistinct(m.preds[n], t);
    AppendDistinct(m.preds[h], t);
  }

  lemma SplitSuccs(e: Flow, m: Flow, h: Block, t: Block, all: set<Block>, ps: set<Block>)
    requires InFront(e, m, all, h) && t in all && t < |e.succs|
    requires forall x :: x in ps <==> x in all && x != t
    ensures |m.succs| == |m.preds| == |e.succs| + 1 && h < |m.preds|
    ensures Redirected(e.succs, Redirect(m, t, |e.succs|, h).succs, ps, h)
  {
    var n := |e.succs|;
    assert InRange(e.succs, e.succs[t]);
    ReplaceBack(e.succs[t], h, n);
  }

  // ---- Loops ---------------------------------------------------------------------------------------

  datatype Info = Info(header: Block, backEdges: seq<Block>, reducible: bool, preHeader: int)

  /** The header dominates every block that leads back to it. */
  ghost predicate TrulyReducible(g: Graph, l: Info) {
    forall i :: 0 <= i < |l.backEdges| ==> Dominates(g, l.header, l.backEdges[i])
  }

  /** The flag is never wrongly set; it is wrongly clear at most on loops that come from a split. */
  ghost predicate LoopOk(g: Graph, l: Info) {
    && 0 < l.header < |g| && l.backEdges != [] && NoRepeats(l.backEdges)
    && (forall i :: 0 <= i < |l.backEdges| ==> l.backEdges[i] < |g| && Edge(g, l.backEdges[i], l.header))
    && (l.reducible ==> TrulyReducible(g, l))
    && (TrulyReducible(g, l) ==> l.reducible || |l.backEdges| == 1)
  }

  /** Loop 0 is the root. */
  ghost predicate LoopsOk(g: Graph, ls: seq<Info>) {
    && |ls| > 0 && ls[0].backEdges == []
    && (forall k :: 0 < k < |ls| ==> LoopOk(g, ls[k]))
    && forall j, k :: 0 < j < k < |ls| ==> ls[j].header != ls[k].header
  }

  /** One latch and one pre-header, which leads nowhere else. */
  ghost predicate NormalHeader(g: Graph, l: Info) {
    && |l.backEdges| == 1 && 0 <= l.preHeader < |g| && l.preHeader != l.backEdges[0]
    && g[l.preHeader] == [l.header] && TrulyReducible(g, l)
    && forall u: Block :: Edge(g, u, l.header) <==> u == l.backEdges[0] || u == l.preHeader
  }

  /** Loops with another header are not affected. */
  lemma OtherLoop(g: Graph, r: Graph, ps: set<Block>, h: Block, l: Info)
    requires Redirected(g, r, ps, h) && LoopOk(g, l) && l.header != h
    ensures LoopOk(r, l) && (TrulyReducible(r, l) <==> TrulyReducible(g, l))
    ensures NormalHeader(g, l) ==> NormalHeader(r, l)
  {
    forall i | 0 <= i < |l.backEdges|
      ensures l.backEdges[i] < |r| && Edge(r, l.backEdges[i], l.header)
      ensures Dominates(g, l.header, l.backEdges[i]) <==> Dominates(r, l.header, l.backEdges[i])
    {
      NewEdges(g, r, ps, h, l.backEdges[i], l.header);
      DominanceUnchanged(g, r, ps, h, l.header, l.backEdges[i]);
    }
    hide Dominates;
    if NormalHeader(g, l) {
      forall u: Block ensures Edge(g, u, l.header) <==> Edge(r, u, l.header) {
        NewEdges(g, r, ps, h, u, l.header);
      }
      OtherPreHeader(g, r, ps, h, l);
    }
  }

  lemma OtherPreHeader(g: Graph, r: Graph, ps: set<Block>, h: Block, l: Info)
    requires Redirected(g, r, ps, h) && l.header != h && 0 <= l.preHeader < |g| && g[l.preHeader] == [l.header]
    ensures r[l.preHeader] == [l.header]
  {
    if l.preHeader in ps {
      assert Edge(g, l.preHeader, h);
    }
  }

  /** A header that can be reached has an entry that it does not dominate. */
  lemma EntryBeyond(g: Graph, h: Block) returns (u: Block)
    requires Reachable(g, h) && h != START
    ensures u < |g| && Edge(g, u, h) && !Dominates(g, h, u)
  {
    var p :| PathFromTo(g, p, START, h);
    assert p[|p| - 1] in p;
    var k := LT.FirstArrival(p, h);
    u := p[k - 1];
    assert EdgeAt(g, p, k - 1);
    PathSlice(g, p, 0, k);
    assert p[0..k] == p[..k];
  }

  /** With all entries behind it, the new block dominates what the header dominated. */
  lemma NewDominates(g: Graph, r: Graph, ps: set<Block>, h: Block, t: Block, x: Block)
    requires Redirected(g, r, ps, h) && EntriesTo(g, ps, h, t) && Dominates(g, h, t)
    requires x < |g| && Dominates(g, h, x)
    ensures Dominates(r, |g|, x)
  {
    DominanceUnchanged(g, r, ps, h, h, x);
    DominanceUnchanged(g, r, ps, h, h, t);
    NotStart(g, r, ps, h);
    hide Redirected, EntriesTo, Reachable, PathFromTo;
    forall q | PathFromTo(r, q, START, x) ensures |g| in q {
      MeetsNew(g, r, ps, h, t, x, q);
    }
  }

  lemma NotStart(g: Graph, r: Graph, ps: set<Block>, h: Block)
    requires Redirected(g, r, ps, h)
    ensures h != START && |r| == |g| + 1
  {}

  lemma MeetsNew(g: Graph, r: Graph, ps: set<Block>, h: Block, t: Block, x: Block, q: seq<Block>)
    requires Redirected(g, r, ps, h) && EntriesTo(g, ps, h, t) && h != START
    requires Dominates(r, h, t) && Dominates(r, h, x) && PathFromTo(r, q, START, x)
    ensures |g| in q
  {
    hide Redirected, EntriesTo, PathFromTo, Dominates;
    var u := ArrivesFrom(r, q, h, x);
    NewEdges(g, r, ps, h, u, h);
    OnlyNew(g, ps, h, t, u);
    EdgeRange(g, r, ps, h, u);
  }

  lemma EdgeRange(g: Graph, r: Graph, ps: set<Block>, h: Block, u: Block)
    requires Redirected(g, r, ps, h) && Edge(r, u, h)
    ensures u <= |g| && h < |g|
  {}

  /** A path to something that `h` dominates comes to `h` from a block that `h` does not dominate. */
  lemma ArrivesFrom(r: Graph, q: seq<Block>, h: Block, x: Block) returns (u: Block)
    requires h != START && Dominates(r, h, x) && PathFromTo(r, q, START, x)
    ensures u in q && Edge(r, u, h) && !Dominates(r, h, u)
  {
    var k := LT.FirstArrival(q, h);
    u := q[k - 1];
    assert EdgeAt(r, q, k - 1);
    PathSlice(r, q, 0, k);
    assert q[0..k] == q[..k];
  }

  lemma OnlyNew(g: Graph, ps: set<Block>, h: Block, t: Block, u: Block)
    requires EntriesTo(g, ps, h, t)
    ensures u < |g| && Edge(g, u, h) && u !in ps ==> u == t
  {}

  lemma NewReachable(g: Graph, r: Graph, ps: set<Block>, h: Block)
    requires Redirected(g, r, ps, h) && ps != {} && forall b :: 0 <= b < |g| ==> Reachable(g, b)
    ensures forall b :: 0 <= b < |r| ==> Reachable(r, b)
  {
    forall b | 0 <= b < |g| ensures Reachable(r, b) {
      DominanceUnchanged(g, r, ps, h, START, b);
    }
    var u :| u in ps;
    assert Edge(g, u, h);
    NewEdges(g, r, ps, h, u, h);
    hide Redirected;
    StepReached(r, u, |g|);
  }

  lemma StepReached(r: Graph, u: Block, v: Block)
    requires Reachable(r, u) && Edge(r, u, v) && v < |r|
    ensures Reachable(r, v)
  {
    var p :| PathFromTo(r, p, START, u);
    PathExtend(r, p, v);
  }

  // ---- Acyclic but for back edges --------------------------------------------------------------------

  ghost predicate IsBack(ls: seq<Info>, u: Block, v: Block) {
    exists k :: 0 < k < |ls| && ls[k].header == v && u in ls[k].backEdges
  }

  /** Every edge goes up, is a back edge, or is one of the edges from `rest` to `h`. */
  ghost predicate Ranked(g: Graph, ls: seq<Info>, h: Block, rest: seq<Block>, rank: seq<nat>) {
    && |rank| == |g|
    && forall u: Block, v: Block :: Edge(g, u, v) ==>
         v < |g| && (rank[u] < rank[v] || IsBack(ls, u, v) || (v == h && u in rest))
  }

  ghost predicate Acyclic(g: Graph, ls: seq<Info>, h: Block, rest: seq<Block>) {
    exists rank :: Ranked(g, ls, h, rest, rank)
  }

  /** The new block comes right before `h`. */
  function Lift(rank: seq<nat>, h: Block): (r: seq<nat>)
    requires h < |rank|
    ensures |r| == |rank| + 1 && r[|rank|] == 2 * rank[h]
    ensures forall b :: 0 <= b < |rank| ==> r[b] == 2 * rank[b] + 1
  {
    seq(|rank|, b requires 0 <= b < |rank| => 2 * rank[b] + 1) + [2 * rank[h]]
  }

  lemma EdgeRanked(g: Graph, r: Graph, ps: set<Block>, h: Block, t: Block, ls: seq<Info>, rest: seq<Block>,
                   rank: seq<nat>,
                   u: Block, v: Block)
    requires Redirected(g, r, ps, h) && EntriesTo(g, ps, h, t) && Ranked(g, ls, h, [t] + rest, rank)
    requires IsBack(ls, t, h) && forall k :: 0 < k < |ls| && ls[k].header == h ==> ls[k].backEdges == [t]
    requires Edge(r, u, v)
    ensures u < |r| && v < |r|
    ensures Lift(rank, h)[u] < Lift(rank, h)[v] || IsBack(ls, u, v) || (v == |g| && u in rest)
  {
    NewValid(g, r, ps, h);
    assert InRange(r, r[u]);
    NewEdges(g, r, ps, h, u, v);
    NewEdges(g, r, ps, h, u, h);
    if v == |g| {
      assert Edge(g, u, h) && u != t;
      assert !IsBack(ls, u, h);
    }
  }

  lemma AcyclicNext(g: Graph, r: Graph, ps: set<Block>, h: Block, t: Block, ls: seq<Info>, rest: seq<Block>)
    requires Redirected(g, r, ps, h) && EntriesTo(g, ps, h, t) && Acyclic(g, ls, h, [t] + rest)
    requires IsBack(ls, t, h) && forall k :: 0 < k < |ls| && ls[k].header == h ==> ls[k].backEdges == [t]
    ensures Acyclic(r, ls, |g|, rest)
  {
    var rank :| Ranked(g, ls, h, [t] + rest, rank);
    assert |r| == |g| + 1;
    hide Redirected, EntriesTo, IsBack, Edge;
    forall u: Block, v: Block | Edge(r, u, v)
      ensures v < |r| && (Lift(rank, h)[u] < Lift(rank, h)[v] || IsBack(ls, u, v) || (v == |g| && u in rest))
    {
      EdgeRanked(g, r, ps, h, t, ls, rest, rank, u, v);
    }
    assert Ranked(r, ls, |g|, rest, Lift(rank, h));
  }

  /** The remaining edges may be counted as back edges, and the other way round. */
  lemma AcyclicWith(g: Graph, ls: seq<Info>, h: Block, rest: seq<Block>, ls': seq<Info>, h': Block, rest': seq<Block>)
    requires Acyclic(g, ls, h, rest)
    requires forall u: Block, v: Block :: IsBack(ls, u, v) || (v == h && u in rest) ==>
               IsBack(ls', u, v) || (v == h' && u in rest')
    ensures Acyclic(g, ls', h', rest')
  {
    var rank :| Ranked(g, ls, h, rest, rank);
    hide IsBack;
    assert Ranked(g, ls', h', rest', rank);
  }
}
