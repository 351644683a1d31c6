/** Deciding dominance and loop membership in a given graph: a set of blocks that can only be left through
    one block. */
module ConcreteGraphs {
  import opened Cfg
  import opened Coverage
  import opened LoopTree

  /** The blocks of `s` lead only to blocks of `s` and to `d`. */
  predicate Fenced(g: Graph, s: set<Block>, d: Block) {
    forall u :: u in s ==> u < |g| && forall k :: 0 <= k < |g[u]| ==> g[u][k] in s || g[u][k] == d
  }

  /** A path that starts inside and ends outside meets the fence. */
  lemma {:induction false} LeavesThrough(g: Graph, s: set<Block>, d: Block, p: seq<Block>)
    requires Fenced(g, s, d) && IsPath(g, p) && p[0] in s && p[|p| - 1] !in s
    ensures d in p
    decreases |p|
  {
    var q := p[0..|p| - 1];
    PathSlice(g, p, 0, |p| - 1);
    assert EdgeAt(g, p, |p| - 2);
    if q[|q| - 1] in s {
      var k :| 0 <= k < |g[p[|p| - 2]]| && g[p[|p| - 2]][k] == p[|p| - 1];
    } else {
      LeavesThrough(g, s, d, q);
    }
  }

  lemma FenceDominates(g: Graph, s: set<Block>, d: Block, b: Block)
    requires Fenced(g, s, d) && START in s && b !in s
    ensures Dominates(g, d, b)
  {
    forall p | PathFromTo(g, p, START, b) ensures d in p {
      LeavesThrough(g, s, d, p);
    }
  }

  lemma FenceExcludes(g: Graph, s: set<Block>, h: Block, t: Block, x: Block)
    requires Fenced(g, s, h) && x in s && t !in s && x != h
    ensures !InNaturalLoop(g, h, t, x)
  {
    forall p | PathFromTo(g, p, x, t) ensures h in p {
      LeavesThrough(g, s, h, p);
    }
  }

  /** Consecutive blocks are joined by edges. */
  predicate Walk(g: Graph, p: seq<Block>) {
    |p| > 0 && (forall i :: 0 <= i < |p| ==> p[i] < |g|) && forall i :: 0 <= i < |p| - 1 ==> p[i + 1] in g[p[i]]
  }

  lemma WalkInLoop(g: Graph, h: Block, p: seq<Block>)
    requires Walk(g, p) && h !in p
    ensures InNaturalLoop(g, h, p[|p| - 1], p[0])
  {
    WalkIsPath(g, p);
  }

  lemma WalkIsPath(g: Graph, p: seq<Block>)
    requires Walk(g, p)
    ensures IsPath(g, p)
  {
    forall i | 0 <= i < |p| - 1 ensures EdgeAt(g, p, i) {}
  }

  lemma WalkReaches(g: Graph, p: seq<Block>)
    requires Walk(g, p) && p[0] == START
    ensures Reachable(g, p[|p| - 1])
  {
    WalkIsPath(g, p);
    assert PathFromTo(g, p, START, p[|p| - 1]);
  }
}
