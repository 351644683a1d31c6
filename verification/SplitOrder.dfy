/** In which order the back edges of a loop are split, in terms of the graph before the pass
    (pass/loop_analysis.cpp:120-149). */
module SplitOrder {
  import opened Cfg
  import opened Coverage
  import opened Traversal
  import opened HeaderShape
  import opened LoopNormalForm
  import BE = BackEdges
  import HR = HeaderRewriter

  /** Block `a` is visited before block `b` by the depth-first search. */
  ghost predicate Earlier(g: Graph, a: Block, b: Block)
    requires Valid(g)
  {
    var order := Pre(g, START, {});
    exists i, j :: 0 <= i < j < |order| && order[i] == a && order[j] == b
  }

  /** The sources of the back edges to `h`, in the order in which the search visits them. */
  ghost predicate LatchesInOrder(g: Graph, h: Block, bs: seq<Block>)
    requires Valid(g)
  {
    && (forall u: Block :: u in bs <==> (u, h) in BE.Recorded(g))
    && forall i, j :: 0 <= i < j < |bs| ==> Earlier(g, bs[i], bs[j])
  }

  ghost predicate IsHeader(g: Graph, h: Block)
    requires Valid(g)
  {
    exists u: Block :: (u, h) in BE.Recorded(g)
  }

  ghost predicate ReducibleHeader(g: Graph, h: Block)
    requires Valid(g)
  {
    forall u: Block :: (u, h) in BE.Recorded(g) ==> Dominates(g, h, u)
  }

  /** What becomes of the loop of header `h` of graph `g`: if the header dominates its back edges, the loop keeps
      the one that is visited first, and the loops around it have the others, in order and outward.  Otherwise
      the loop keeps them all. */
  ghost predicate SplitAs(g: Graph, r: Graph, ls: seq<Info>, h: Block)
    requires Valid(g)
  {
    if ReducibleHeader(g, h) then exists ks, bs :: LatchesInOrder(g, h, bs) && HR.Nested(r, ls, ks, h, bs)
    else exists k :: 0 < k < |ls| && ls[k].header == h
           && forall u: Block :: u in ls[k].backEdges <==> (u, h) in BE.Recorded(g)
  }

  ghost predicate SplitInOrder(g: Graph, r: Graph, ls: seq<Info>)
    requires Valid(g)
  {
    forall h :: 0 <= h < |g| && IsHeader(g, h) ==> SplitAs(g, r, ls, h)
  }

  lemma NumberOf(g: Graph, u: Block)
    requires Valid(g) && u in Pre(g, START, {})
    ensures var order, idx := Pre(g, START, {}), BE.Number(map[], Pre(g, START, {}));
      u in idx && idx[u] < |order| && order[idx[u]] == u
  {
    var order := Pre(g, START, {});
    PreorderComplete(g);
    var i :| 0 <= i < |order| && order[i] == u;
    BE.NumberIsIndex(map[], order, i);
  }

  lemma LatchVisited(g: Graph, u: Block, h: Block)
    requires Valid(g) && (u, h) in BE.Recorded(g)
    ensures u in Pre(g, START, {})
  {
    RecordedEdge(g, u, h);
    BE.RecordedIff(g, u, h);
    PreorderComplete(g);
  }

  /** The numbers by which the pass sorts are places in the depth-first order. */
  lemma SortedIsOrdered(g: Graph, h: Block, s: seq<Block>)
    requires Valid(g) && NoRepeats(s) && forall u: Block :: u in s <==> (u, h) in BE.Recorded(g)
    ensures LatchesInOrder(g, h, HR.SortBy(s, BE.Number(map[], Pre(g, START, {}))))
  {
    var idx := BE.Number(map[], Pre(g, START, {}));
    var r := HR.SortBy(s, idx);
    HR.SortBySorts(s, idx);
    forall u: Block ensures u in r <==> u in s {
      assert u in multiset(r) <==> u in multiset(s);
    }
    hide BE.Recorded, BE.Number, HR.SortBy;
    forall i, j | 0 <= i < j < |r| ensures Earlier(g, r[i], r[j]) {
      DistinctSorted(s, r, i, j);
      LatchVisited(g, r[i], h);
      LatchVisited(g, r[j], h);
      NumberOf(g, r[i]);
      NumberOf(g, r[j]);
      assert HR.Index(r[i], idx) <= HR.Index(r[j], idx);
    }
  }

  lemma DistinctSorted(s: seq<Block>, r: seq<Block>, i: nat, j: nat)
    requires NoRepeats(s) && multiset(r) == multiset(s) && i < j < |r|
    ensures r[i] != r[j]
  {
    HR.CountOnce(s, r[i]);
    if r[i] == r[j] {
      HR.RepeatedTwice(r, i, j);
    }
  }

  /** The loop that collecting gives to a header. */
  lemma HeaderLoop(g: Graph, s: BE.Found, h: Block) returns (k: nat)
    requires Valid(g) && Collects(g, s) && h < |g| && IsHeader(g, h)
    ensures 0 < k < |s.loops| && Collected(g, s)[k].header == h
    ensures forall u: Block :: u in Collected(g, s)[k].backEdges <==> (u, h) in BE.Recorded(g)
    ensures Collected(g, s)[k].reducible <==> ReducibleHeader(g, h)
  {
    var w: Block :| (w, h) in BE.Recorded(g);
    RecordedIsBack(g, s, w, h);
    k :| 0 < k < |s.loops| && Collected(g, s)[k].header == h && w in Collected(g, s)[k].backEdges;
    var es := s.loops[k].backEdges;
    assert s.loopOf[h] == k && es == BE.EdgesTo(BE.Recorded(g), h);
    forall u: Block ensures u in es <==> (u, h) in BE.Recorded(g) {
      BE.EdgesToMembers(BE.Recorded(g), u, h);
    }
    hide BE.Recorded, Dominates, BE.EdgesTo;
    ReducibleIff(g, Collected(g, s)[k]);
  }

  lemma ReducibleIff(g: Graph, l: Info)
    requires Valid(g) && forall u: Block :: u in l.backEdges <==> (u, l.header) in BE.Recorded(g)
    ensures TrulyReducible(g, l) <==> ReducibleHeader(g, l.header)
  {
    hide BE.Recorded, Dominates;
    if TrulyReducible(g, l) {
      forall u: Block | (u, l.header) in BE.Recorded(g) ensures Dominates(g, l.header, u) {
        assert u in l.backEdges;
        var i :| 0 <= i < |l.backEdges| && l.backEdges[i] == u;
      }
    }
  }

  /** Splitting by number is splitting in the order of the search. */
  lemma NestsAreInOrder(g: Graph, s: BE.Found, r: Graph, ls: seq<Info>)
    requires Valid(g) && Collects(g, s)
    requires (forall u :: 0 <= u < |g| ==> NoRepeats(g[u])) && forall u: Block :: !Edge(g, u, START)
    requires HR.NestsUpTo(r, Collected(g, s), ls, BE.Number(map[], Pre(g, START, {})), |s.loops|)
    ensures SplitInOrder(g, r, ls)
  {
    var idx := BE.Number(map[], Pre(g, START, {}));
    hide BE.Recorded, BE.Number, Collects, HR.SortBy, HR.Nested, Dominates, LatchesInOrder, NoRepeats, Collected,
         ReducibleHeader, IsHeader, Edge;
    forall h | 0 <= h < |g| && IsHeader(g, h) ensures SplitAs(g, r, ls, h) {
      var k := HeaderLoop(g, s, h);
      CollectedLoop(g, s, k);
      var l := Collected(g, s)[k];
      assert LoopOk(g, l) && HR.Nests(r, Collected(g, s), ls, idx, k);
      if l.reducible {
        SortedIsOrdered(g, h, l.backEdges);
        var ks :| HR.Nested(r, ls, ks, h, HR.SortBy(l.backEdges, idx));
      } else {
        assert ls[k].header == h;
      }
    }
  }
}
