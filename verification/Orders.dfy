/** The block orders other passes iterate over: `PO` (pass/po.cpp) and what the source calls `RPO`
    (pass/rpo.cpp), which is a depth-first preorder. */
module Orders {
  import opened Cfg
  import opened Traversal

  /** `a` occurs in `r` no later than `b`. */
  ghost predicate Ordered(r: seq<Block>, a: Block, b: Block) {
    exists i, j :: 0 <= i <= j < |r| && r[i] == a && r[j] == b
  }

  lemma OrderedInConcat(p: seq<Block>, q: seq<Block>, a: Block, b: Block)
    requires Ordered(p, a, b) || Ordered(q, a, b)
    ensures Ordered(p + q, a, b)
  {
    var r := p + q;
    if Ordered(p, a, b) {
      var i, j :| 0 <= i <= j < |p| && p[i] == a && p[j] == b;
      assert r[i] == a && r[j] == b;
    } else {
      var i, j :| 0 <= i <= j < |q| && q[i] == a && q[j] == b;
      assert r[|p| + i] == a && r[|p| + j] == b;
    }
  }

  // ---- Preorder ------------------------------------------------------------------------------

  /** What dominates a visited block lies on the path to the root of the visit or was visited
      earlier. */
  lemma {:induction false} PreDominator(g: Graph, b: Block, vis: set<Block>, p: seq<Block>, h: Block, x: Block)
    requires Valid(g) && b < |g| && PathFromTo(g, p, START, b) && x in Pre(g, b, vis) && Dominates(g, h, x)
    ensures h in p || Ordered(Pre(g, b, vis), h, x)
    decreases All(g) - vis, 0
  {
    if x != b {
      PreListDominator(g, b, g[b], vis + {b}, p, h, x);
      if h !in p {
        OrderedInConcat([b], PreList(g, g[b], vis + {b}), h, x);
      }
    }
  }

  lemma {:induction false} PreListDominator(g: Graph, b: Block, ss: seq<Block>, vis: set<Block>, p: seq<Block>,
                                            h: Block, x: Block)
    requires Valid(g) && b < |g| && InRange(g, ss) && forall s :: s in ss ==> Edge(g, b, s)
    requires PathFromTo(g, p, START, b) && x in PreList(g, ss, vis) && Dominates(g, h, x)
    ensures h in p || Ordered(PreList(g, ss, vis), h, x)
    decreases All(g) - vis, |ss|
  {
    var r := Pre(g, ss[0], vis);
    var rest := PreList(g, ss[1..], vis + Elems(r));
    if x in r {
      PathExtend(g, p, ss[0]);
      PreDominator(g, ss[0], vis, p + [ss[0]], h, x);
      if h !in p {
        VisitFirst(g, ss[0], vis, h, x);
        OrderedInConcat(r, rest, h, x);
      }
    } else {
      assert forall s :: s in ss[1..] ==> s in ss;
      PreListDominator(g, b, ss[1..], vis + Elems(r), p, h, x);
      if h !in p {
        OrderedInConcat(r, rest, h, x);
      }
    }
  }

  lemma VisitFirst(g: Graph, b: Block, vis: set<Block>, h: Block, x: Block)
    requires Valid(g) && b < |g| && x in Pre(g, b, vis) && (h == b || Ordered(Pre(g, b, vis), h, x))
    ensures Ordered(Pre(g, b, vis), h, x)
  {
    if h == b {
      var r := Pre(g, b, vis);
      var j :| 0 <= j < |r| && r[j] == x;
      assert r[0] == b && 0 <= j;
    }
  }

  /** Check elimination and linear order rely on this: every block comes after its dominators. */
  lemma DominatorsComeFirst(g: Graph, h: Block, x: Block)
    requires Valid(g) && Reachable(g, x) && Dominates(g, h, x)
    ensures Ordered(Pre(g, START, {}), h, x)
  {
    PreorderComplete(g);
    SinglePath(g, START);
    PreDominator(g, START, {}, [START], h, x);
    if h in [START] {
      VisitFirst(g, START, {}, h, x);
    }
  }

  /** The order is not a topological order: block 2 of a diamond is visited after block 3, although
      the graph has no cycle and 3 follows 2. */
  const DIAMOND: Graph := [[1, 2], [3], [3], []]

  lemma PreorderNotTopological()
    ensures Valid(DIAMOND) && Pre(DIAMOND, START, {}) == [0, 1, 3, 2] && Edge(DIAMOND, 2, 3)
  {
    var g := DIAMOND;
    assert Pre(g, 3, {0} + {1} + {3}) == [];
    assert PreList(g, [], {0} + {1} + {3}) == [];
    assert Pre(g, 3, {0} + {1}) == [3];
    assert PreList(g, [3], {0} + {1}) == [3] by {
      assert PreList(g, [], {0} + {1} + Elems([3])) == [];
      assert [3][1..] == [];
    }
    assert Pre(g, 1, {0}) == [1, 3];
    var vis := {0} + Elems([1, 3]);
    assert PreList(g, [3], vis + {2}) == [] by {
      assert Pre(g, 3, vis + {2}) == [];
      assert PreList(g, [], vis + {2} + Elems([])) == [];
      assert [3][1..] == [];
    }
    assert Pre(g, 2, vis) == [2];
    assert PreList(g, [2], vis) == [2] by {
      assert PreList(g, [], vis + Elems([2])) == [];
      assert [2][1..] == [];
    }
    assert [1, 2][1..] == [2];
    assert PreList(g, [1, 2], {0}) == [1, 3] + [2];
    assert Pre(g, 0, {}) == [0] + PreList(g, [1, 2], {} + {0});
    assert {} + {0} == {0};
  }

  // ---- Postorder -----------------------------------------------------------------------------

  lemma {:induction false} PostExplores(g: Graph, b: Block, vis: set<Block>)
    requires Valid(g) && b < |g|
    ensures Distinct(Post(g, b, vis)) && Elems(Post(g, b, vis)) == Elems(Pre(g, b, vis))
    decreases All(g) - vis, 0
  {
    if b !in vis {
      PostListExplores(g, g[b], vis + {b});
      PreListExplores(g, g[b], vis + {b});
      ElemsConcat(PostList(g, g[b], vis + {b}), [b]);
      ElemsConcat([b], PreList(g, g[b], vis + {b}));
      assert forall x :: x in PostList(g, g[b], vis + {b}) ==> x in Elems(PreList(g, g[b], vis + {b}));
    }
  }

  lemma {:induction false} PostListExplores(g: Graph, ss: seq<Block>, vis: set<Block>)
    requires Valid(g) && InRange(g, ss)
    ensures Distinct(PostList(g, ss, vis)) && Elems(PostList(g, ss, vis)) == Elems(PreList(g, ss, vis))
    decreases All(g) - vis, |ss|
  {
    if ss != [] {
      var p, p' := Pre(g, ss[0], vis), Post(g, ss[0], vis);
      PostExplores(g, ss[0], vis);
      var q, q' := PreList(g, ss[1..], vis + Elems(p)), PostList(g, ss[1..], vis + Elems(p'));
      PostListExplores(g, ss[1..], vis + Elems(p));
      PreListExplores(g, ss[1..], vis + Elems(p));
      ElemsConcat(p, q);
      ElemsConcat(p', q');
      DistinctConcat(p', q', Elems(p), Elems(q));
    }
  }

  lemma DistinctConcat(p: seq<Block>, q: seq<Block>, ps: set<Block>, qs: set<Block>)
    requires Distinct(p) && Distinct(q) && Elems(p) == ps && Elems(q) == qs && ps !! qs
    ensures Distinct(p + q)
  {
    forall i, j | 0 <= i < j < |p + q| ensures (p + q)[i] != (p + q)[j] {
      if i < |p| <= j {
        assert (p + q)[i] in Elems(p) && (p + q)[j] in Elems(q);
      }
    }
  }

  /** The postorder lists every reachable block exactly once. */
  lemma PostorderComplete(g: Graph)
    requires Valid(g)
    ensures Distinct(Post(g, START, {}))
    ensures forall x :: x in Post(g, START, {}) <==> Reachable(g, x)
  {
    PostExplores(g, START, {});
    PreorderComplete(g);
    assert forall x :: x in Post(g, START, {}) <==> x in Elems(Pre(g, START, {}));
  }

  lemma {:induction false} PostDominator(g: Graph, b: Block, vis: set<Block>, p: seq<Block>, h: Block, x: Block)
    requires Valid(g) && b < |g| && PathFromTo(g, p, START, b) && x in Post(g, b, vis) && Dominates(g, h, x)
    ensures h in p || Ordered(Post(g, b, vis), x, h)
    decreases All(g) - vis, 0
  {
    if x != b {
      PostListDominator(g, b, g[b], vis + {b}, p, h, x);
      if h !in p {
        OrderedInConcat(PostList(g, g[b], vis + {b}), [b], x, h);
      }
    }
  }

  lemma {:induction false} PostListDominator(g: Graph, b: Block, ss: seq<Block>, vis: set<Block>, p: seq<Block>,
                                             h: Block, x: Block)
    requires Valid(g) && b < |g| && InRange(g, ss) && forall s :: s in ss ==> Edge(g, b, s)
    requires PathFromTo(g, p, START, b) && x in PostList(g, ss, vis) && Dominates(g, h, x)
    ensures h in p || Ordered(PostList(g, ss, vis), x, h)
    decreases All(g) - vis, |ss|
  {
    var r := Post(g, ss[0], vis);
    var rest := PostList(g, ss[1..], vis + Elems(r));
    if x in r {
      PathExtend(g, p, ss[0]);
      PostDominator(g, ss[0], vis, p + [ss[0]], h, x);
      if h !in p {
        VisitLast(g, ss[0], vis, h, x);
        OrderedInConcat(r, rest, x, h);
      }
    } else {
      assert forall s :: s in ss[1..] ==> s in ss;
      PostListDominator(g, b, ss[1..], vis + Elems(r), p, h, x);
      if h !in p {
        OrderedInConcat(r, rest, x, h);
      }
    }
  }

  lemma VisitLast(g: Graph, b: Block, vis: set<Block>, h: Block, x: Block)
    requires Valid(g) && b < |g| && x in Post(g, b, vis) && (h == b || Ordered(Post(g, b, vis), x, h))
    ensures Ordered(Post(g, b, vis), x, h)
  {
    if h == b {
      var r := Post(g, b, vis);
      var j :| 0 <= j < |r| && r[j] == x;
      assert r[|r| - 1] == b && j <= |r| - 1;
    }
  }

  /** Loop population relies on this: every block comes before the blocks that dominate it, so inner
      headers come before outer ones. */
  lemma DominatorsComeLast(g: Graph, h: Block, x: Block)
    requires Valid(g) && Reachable(g, x) && Dominates(g, h, x)
    ensures Ordered(Post(g, START, {}), x, h)
  {
    PostorderComplete(g);
    SinglePath(g, START);
    PostDominator(g, START, {}, [START], h, x);
    if h in [START] {
      VisitLast(g, START, {}, h, x);
    }
  }

  lemma PostListStep(g: Graph, ss: seq<Block>, i: nat, vis: set<Block>, blocks: seq<Block>)
    requires Valid(g) && InRange(g, ss) && i < |ss|
    ensures var p := Post(g, ss[i], vis);
      blocks + PostList(g, ss[i..], vis) == (blocks + p) + PostList(g, ss[i + 1..], vis + Elems(p))
  {
    assert ss[i..][1..] == ss[i + 1..];
    var p := Post(g, ss[i], vis);
    ConcatAssoc(blocks, p, PostList(g, ss[i + 1..], vis + Elems(p)));
  }

  class PO {
    const g: Graph
    var blocks: seq<Block>
    var visited: set<Block>

    constructor (g: Graph)
      ensures this.g == g
    {
      this.g := g;
      blocks, visited := [], {};
    }

    method Run()
      requires Valid(g)
      modifies this
      ensures blocks == Post(g, START, {})
    {
      blocks, visited := [], {};
      Visit(START);
    }

    /** `Run_`: returns at once if the block is already marked. */
    method Visit(cur: Block)
      requires Valid(g) && cur < |g|
      modifies this
      ensures blocks == old(blocks) + Post(g, cur, old(visited))
      ensures visited == old(visited) + Elems(Post(g, cur, old(visited)))
      decreases All(g) - visited, 0
    {
      if cur in visited {
        return;
      }
      visited := visited + {cur};
      VisitAll(g[cur]);
      ElemsConcat(PostList(g, g[cur], old(visited) + {cur}), [cur]);
      ConcatAssoc(old(blocks), PostList(g, g[cur], old(visited) + {cur}), [cur]);
      blocks := blocks + [cur];
    }

    method VisitAll(succs: seq<Block>)
      requires Valid(g) && InRange(g, succs)
      modifies this
      ensures blocks == old(blocks) + PostList(g, succs, old(visited))
      ensures visited == old(visited) + Elems(PostList(g, succs, old(visited)))
      decreases All(g) - visited, 1 + |succs|
    {
      ghost var all := PostList(g, succs, visited);
      assert succs[0..] == succs;
      for i := 0 to |succs|
        invariant old(visited) <= visited
        invariant blocks + PostList(g, succs[i..], visited) == old(blocks) + all
        invariant visited + Elems(PostList(g, succs[i..], visited)) == old(visited) + Elems(all)
      {
        PostListStep(g, succs, i, visited, blocks);
        ElemsConcat(Post(g, succs[i], visited),
                    PostList(g, succs[i + 1..], visited + Elems(Post(g, succs[i], visited))));
        assert succs[i..][1..] == succs[i + 1..];
        Visit(succs[i]);
      }
    }
  }

  lemma PreListNext(g: Graph, ss: seq<Block>, i: nat, vis: set<Block>, blocks: seq<Block>)
    requires Valid(g) && InRange(g, ss) && i < |ss|
    ensures var p := Pre(g, ss[i], vis);
      blocks + PreList(g, ss[i..], vis) == (blocks + p) + PreList(g, ss[i + 1..], vis + Elems(p))
  {
    assert ss[i..][1..] == ss[i + 1..];
    var p := Pre(g, ss[i], vis);
    ConcatAssoc(blocks, p, PreList(g, ss[i + 1..], vis + Elems(p)));
  }

  class RPO {
    const g: Graph
    var blocks: seq<Block>
    var visited: set<Block>

    constructor (g: Graph)
      ensures this.g == g
    {
      this.g := g;
      blocks, visited := [], {};
    }

    method Run()
      requires Valid(g)
      modifies this
      ensures blocks == Pre(g, START, {})
    {
      blocks, visited := [], {};
      Visit(START);
    }

    /** `Run_`: the block is pushed before its successors are visited. */
    method Visit(cur: Block)
      requires Valid(g) && cur < |g|
      modifies this
      ensures blocks == old(blocks) + Pre(g, cur, old(visited))
      ensures visited == old(visited) + Elems(Pre(g, cur, old(visited)))
      decreases All(g) - visited, 0
    {
      if cur in visited {
        return;
      }
      visited := visited + {cur};
      blocks := blocks + [cur];
      VisitAll(g[cur]);
      ElemsConcat([cur], PreList(g, g[cur], old(visited) + {cur}));
      ConcatAssoc(old(blocks), [cur], PreList(g, g[cur], old(visited) + {cur}));
    }

    method VisitAll(succs: seq<Block>)
      requires Valid(g) && InRange(g, succs)
      modifies this
      ensures blocks == old(blocks) + PreList(g, succs, old(visited))
      ensures visited == old(visited) + Elems(PreList(g, succs, old(visited)))
      decreases All(g) - visited, 1 + |succs|
    {
      ghost var all := PreList(g, succs, visited);
      assert succs[0..] == succs;
      for i := 0 to |succs|
        invariant old(visited) <= visited
        invariant blocks + PreList(g, succs[i..], visited) == old(blocks) + all
        invariant visited + Elems(PreList(g, succs[i..], visited)) == old(visited) + Elems(all)
      {
        PreListNext(g, succs, i, visited, blocks);
        ElemsConcat(Pre(g, succs[i], visited), PreList(g, succs[i + 1..], visited + Elems(Pre(g, succs[i], visited))));
        assert succs[i..][1..] == succs[i + 1..];
        Visit(succs[i]);
      }
    }
  }
}
