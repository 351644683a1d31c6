/** Depth-first traversals (pass/dfs.cpp, pass/rpo.cpp, pass/po.cpp).  The recursive passes over
    marked blocks are proved against the functions `Pre` and `Post`, and those against
    reachability. */
module Traversal {
  import opened Cfg

  function All(g: Graph): set<Block> {
    set b {:trigger g[b]} | 0 <= b < |g|
  }

  /** The blocks visited from `b` in preorder when the blocks in `vis` are already marked. */
  function Pre(g: Graph, b: Block, vis: set<Block>): seq<Block>
    requires Valid(g) && b < |g|
    decreases All(g) - vis, 0
  {
    if b in vis then [] else [b] + PreList(g, g[b], vis + {b})
  }

  function PreList(g: Graph, ss: seq<Block>, vis: set<Block>): seq<Block>
    requires Valid(g) && InRange(g, ss)
    decreases All(g) - vis, |ss|
  {
    if ss == [] then []
    else
      var p := Pre(g, ss[0], vis);
      p + PreList(g, ss[1..], vis + Elems(p))
  }

  /** The same visit in postorder. */
  function Post(g: Graph, b: Block, vis: set<Block>): seq<Block>
    requires Valid(g) && b < |g|
    decreases All(g) - vis, 0
  {
    if b in vis then [] else PostList(g, g[b], vis + {b}) + [b]
  }

  function PostList(g: Graph, ss: seq<Block>, vis: set<Block>): seq<Block>
    requires Valid(g) && InRange(g, ss)
    decreases All(g) - vis, |ss|
  {
    if ss == [] then []
    else
      var p := Post(g, ss[0], vis);
      p + PostList(g, ss[1..], vis + Elems(p))
  }

  ghost predicate Distinct(s: seq<nat>) {
    forall i, j :: 0 <= i < j < |s| ==> s[i] != s[j]
  }

  /** `r` is a fresh, duplicate-free set of blocks, closed under successors up to `vis`. */
  ghost predicate Explored(g: Graph, r: seq<Block>, vis: set<Block>) {
    && Distinct(r)
    && (forall x :: x in r ==> x < |g| && x !in vis)
    && (forall x, s :: x in r && s in g[x] ==> s in vis || s in r)
  }

  lemma ExploredConcat(g: Graph, p: seq<Block>, q: seq<Block>, vis: set<Block>)
    requires Explored(g, p, vis) && Explored(g, q, vis + Elems(p))
    ensures Explored(g, p + q, vis)
  {
    var r := p + q;
    forall i, j | 0 <= i < j < |r| ensures r[i] != r[j] {
      if i < |p| <= j {
        assert r[i] in p && r[j] in q;
      }
    }
  }

  lemma {:induction false} PreExplores(g: Graph, b: Block, vis: set<Block>)
    requires Valid(g) && b < |g|
    ensures var r := Pre(g, b, vis);
      && Distinct(r) && (b in vis || b in r)
      && (forall x :: x in r ==> x < |g| && x !in vis)
      && (forall x, s :: x in r && s in g[x] ==> s in vis || s in r)
    decreases All(g) - vis, 0
  {
    if b !in vis {
      PreListExplores(g, g[b], vis + {b});
    }
  }

  lemma {:induction false} PreListExplores(g: Graph, ss: seq<Block>, vis: set<Block>)
    requires Valid(g) && InRange(g, ss)
    ensures Explored(g, PreList(g, ss, vis), vis)
    ensures forall s :: s in ss ==> s in vis || s in PreList(g, ss, vis)
    decreases All(g) - vis, |ss|
  {
    if ss != [] {
      var p := Pre(g, ss[0], vis);
      PreExplores(g, ss[0], vis);
      PreListExplores(g, ss[1..], vis + Elems(p));
      ExploredConcat(g, p, PreList(g, ss[1..], vis + Elems(p)), vis);
      assert forall s :: s in ss ==> s == ss[0] || s in ss[1..];
    }
  }

  ghost predicate ReachableFrom(g: Graph, u: Block, v: Block) {
    exists p :: PathFromTo(g, p, u, v)
  }

  lemma ReachableStep(g: Graph, u: Block, v: Block, w: Block)
    requires Valid(g) && u < |g| && v in g[u] && ReachableFrom(g, v, w)
    ensures ReachableFrom(g, u, w)
  {
    var p :| PathFromTo(g, p, v, w);
    EdgePath(g, u, v);
    PathConcat(g, [u, v], p);
    assert PathFromTo(g, [u, v] + p[1..], u, w);
  }

  lemma {:induction false} PreReachable(g: Graph, b: Block, vis: set<Block>, x: Block)
    requires Valid(g) && b < |g| && x in Pre(g, b, vis)
    ensures ReachableFrom(g, b, x)
    decreases All(g) - vis, 0
  {
    if x == b {
      SinglePath(g, b);
    } else {
      var s := PreListReachable(g, g[b], vis + {b}, x);
      ReachableStep(g, b, s, x);
    }
  }

  lemma {:induction false} PreListReachable(g: Graph, ss: seq<Block>, vis: set<Block>, x: Block)
    returns (s: Block)
    requires Valid(g) && InRange(g, ss) && x in PreList(g, ss, vis)
    ensures s in ss && s < |g| && ReachableFrom(g, s, x)
    decreases All(g) - vis, |ss|
  {
    var p := Pre(g, ss[0], vis);
    if x in p {
      PreReachable(g, ss[0], vis, x);
      s := ss[0];
    } else {
      s := PreListReachable(g, ss[1..], vis + Elems(p), x);
    }
  }

  /** A set that holds the start of a path and is closed under successors holds its end. */
  lemma {:induction false} ClosedHoldsPath(g: Graph, r: set<Block>, p: seq<Block>)
    requires IsPath(g, p) && p[0] in r
    requires forall x, s :: x in r && Edge(g, x, s) ==> s in r
    ensures forall x :: x in p ==> x in r
    decreases |p|
  {
    if |p| > 1 {
      var q := p[..|p| - 1];
      PathSlice(g, p, 0, |p| - 1);
      assert p[0..|p| - 1] == q;
      ClosedHoldsPath(g, r, q);
      assert EdgeAt(g, p, |p| - 2);
      assert p[|p| - 2] in q;
      assert p == q + [p[|p| - 1]];
    }
  }

  /** The depth-first order of the whole graph lists every reachable block exactly once. */
  lemma PreorderComplete(g: Graph)
    requires Valid(g)
    ensures Distinct(Pre(g, START, {}))
    ensures forall x :: x in Pre(g, START, {}) <==> Reachable(g, x)
  {
    var r := Pre(g, START, {});
    PreExplores(g, START, {});
    forall x ensures x in r <==> Reachable(g, x) {
      if x in r {
        PreReachable(g, START, {}, x);
      }
      if Reachable(g, x) {
        var p :| PathFromTo(g, p, START, x);
        ClosedHoldsPath(g, Elems(r), p);
      }
    }
  }

  lemma PreListStep(g: Graph, ss: seq<Block>, i: nat, vis: set<Block>, before: seq<Block>)
    requires Valid(g) && InRange(g, ss) && i < |ss| && vis == Elems(before)
    ensures var p := Pre(g, ss[i], vis);
      && before + PreList(g, ss[i..], vis) == (before + p) + PreList(g, ss[i + 1..], Elems(before + p))
      && (ss[i] in vis ==> before + p == before)
  {
    assert ss[i..][1..] == ss[i + 1..];
    var p := Pre(g, ss[i], vis);
    ElemsConcat(before, p);
    ConcatAssoc(before, p, PreList(g, ss[i + 1..], vis + Elems(p)));
  }

  class DFS {
    const g: Graph
    var blocks: seq<Block>
    var visited: set<Block>

    constructor (g: Graph)
      ensures this.g == g
    {
      this.g := g;
      blocks, visited := [], {};
    }

    method Run()
      requires Valid(g)
      modifies this
      ensures blocks == Pre(g, START, {})
    {
      blocks, visited := [], {};
      Visit(START);
    }

    /** `Run_`: the caller has checked that `cur` is not marked. */
    method Visit(cur: Block)
      requires Valid(g) && cur < |g| && cur !in visited && visited == Elems(blocks)
      modifies this
      ensures blocks == old(blocks) + Pre(g, cur, old(visited)) && visited == Elems(blocks)
      decreases All(g) - visited
    {
      ghost var done := blocks + Pre(g, cur, visited);
      ConcatAssoc(blocks, [cur], PreList(g, g[cur], visited + {cur}));
      visited := visited + {cur};
      blocks := blocks + [cur];
      var succs := g[cur];
      var i := 0;
      assert succs[0..] == succs;
      while i < |succs|
        invariant 0 <= i <= |succs|
        invariant old(visited) + {cur} <= visited == Elems(blocks)
        invariant blocks + PreList(g, succs[i..], visited) == done
      {
        PreListStep(g, succs, i, visited, blocks);
        if succs[i] !in visited {
          Visit(succs[i]);
        }
        i := i + 1;
      }
    }
  }
}
