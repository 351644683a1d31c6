/** The loop tree that loop analysis leaves behind (ir/loop.h, pass/loop_analysis.cpp), and the
    normal form of the graph that the liveness pass starts from. */
module LoopTree {
  import opened Cfg
  import opened Coverage

  /** Loop 0 is the root.  `loopOf[b]` is the loop a block points to.  The other fields are indexed
      by loop; `depth` is the length of the chain of outer loops. */
  datatype Loops = Loops(loopOf: seq<nat>, outer: seq<int>, depth: seq<nat>,
                         header: seq<nat>, latch: seq<nat>, preHeader: seq<nat>)

  ghost predicate WellFormed(g: Graph, t: Loops) {
    var n := |t.outer|;
    && n > 0 && |t.depth| == |t.header| == |t.latch| == |t.preHeader| == n
    && |t.loopOf| == |g| && (forall b :: 0 <= b < |g| ==> t.loopOf[b] < n)
    && t.outer[0] == NULL
    && (forall k :: 0 < k < n ==> 0 <= t.outer[k] < n && t.depth[k] == t.depth[t.outer[k]] + 1)
    && (forall k :: 0 < k < n ==> t.header[k] < |g| && t.latch[k] < |g| && t.preHeader[k] < |g|)
  }

  /** Loop `a` is `b` or is nested in `b`. */
  ghost predicate In(g: Graph, t: Loops, a: nat, b: nat)
    requires WellFormed(g, t) && a < |t.outer|
    decreases t.depth[a]
  {
    a == b || (a > 0 && In(g, t, t.outer[a], b))
  }

  predicate IsHeader(g: Graph, t: Loops, b: Block)
    requires b < |g| == |t.loopOf| && t.loopOf[b] < |t.header|
  {
    t.loopOf[b] > 0 && t.header[t.loopOf[b]] == b
  }

  lemma {:induction false} InTransitive(g: Graph, t: Loops, a: nat, b: nat, c: nat)
    requires WellFormed(g, t) && a < |t.outer| && b < |t.outer|
    requires In(g, t, a, b) && In(g, t, b, c)
    ensures In(g, t, a, c)
    decreases t.depth[a]
  {
    if a != b {
      InTransitive(g, t, t.outer[a], b, c);
    }
  }

  /** Two loops around the same loop are nested in each other. */
  lemma {:induction false} InComparable(g: Graph, t: Loops, a: nat, b: nat, c: nat)
    requires WellFormed(g, t) && a < |t.outer| && b < |t.outer| && c < |t.outer|
    requires In(g, t, a, b) && In(g, t, a, c)
    ensures In(g, t, b, c) || In(g, t, c, b)
    decreases t.depth[a]
  {
    if a != b && a != c {
      InComparable(g, t, t.outer[a], b, c);
    }
  }

  lemma {:induction false} InDepth(g: Graph, t: Loops, a: nat, b: nat)
    requires WellFormed(g, t) && a < |t.outer| && b < |t.outer| && In(g, t, a, b)
    ensures a == b || t.depth[b] < t.depth[a]
    decreases t.depth[a]
  {
    if a != b {
      InDepth(g, t, t.outer[a], b);
    }
  }

  lemma {:induction false} InRoot(g: Graph, t: Loops, a: nat)
    requires WellFormed(g, t) && a < |t.outer|
    ensures In(g, t, a, 0)
    decreases t.depth[a]
  {
    if a > 0 {
      InRoot(g, t, t.outer[a]);
    }
  }

  /** The edge from `u` to `v` is the back edge of a loop. */
  ghost predicate BackEdge(g: Graph, t: Loops, u: Block, v: Block)
    requires WellFormed(g, t) && v < |g|
  {
    IsHeader(g, t, v) && u == t.latch[t.loopOf[v]]
  }

  /** Without the back edges the graph is acyclic, as `rank` witnesses. */
  ghost predicate Reducible(g: Graph, t: Loops, rank: seq<nat>)
    requires WellFormed(g, t) && Valid(g) && |rank| == |g|
  {
    forall u: nat, v: nat :: Edge(g, u, v) ==> v < |g| && (rank[u] < rank[v] || BackEdge(g, t, u, v))
  }

  /** Every header has one latch, which it dominates, and one pre-header, which has no other
      successor and lies in the outer loop; there is no other way into a header. */
  ghost predicate HeadersNormal(g: Graph, t: Loops)
    requires WellFormed(g, t) && Valid(g)
  {
    && !IsHeader(g, t, START)
    && (forall k :: 0 < k < |t.outer| ==>
          && t.loopOf[t.header[k]] == k && Edge(g, t.latch[k], t.header[k])
          && Dominates(g, t.header[k], t.latch[k])
          && t.preHeader[k] != t.latch[k] && g[t.preHeader[k]] == [t.header[k]]
          && t.loopOf[t.preHeader[k]] == t.outer[k])
    && (forall k, u: nat :: 0 < k < |t.outer| && Edge(g, u, t.header[k]) ==>
          u == t.latch[k] || u == t.preHeader[k])
  }

  /** `loopOf` names the innermost natural loop of every block. */
  ghost predicate Innermost(g: Graph, t: Loops)
    requires WellFormed(g, t)
  {
    forall k, b :: 0 < k < |t.outer| && 0 <= b < |g| ==>
      (In(g, t, t.loopOf[b], k) <==> InNaturalLoop(g, t.header[k], t.latch[k], b))
  }

  ghost predicate AllReachable(g: Graph) {
    forall b :: 0 <= b < |g| ==> Reachable(g, b) && NoRepeats(g[b])
  }

  /** The graph after loop analysis. */
  ghost predicate NormalForm(g: Graph, t: Loops, rank: seq<nat>) {
    && Valid(g) && WellFormed(g, t) && |rank| == |g|
    && AllReachable(g) && Reducible(g, t, rank) && HeadersNormal(g, t) && Innermost(g, t)
  }

  ghost predicate Forward(g: Graph, rank: seq<nat>, u: Block, v: Block)
    requires |rank| == |g|
  {
    Edge(g, u, v) && v < |g| && rank[u] < rank[v]
  }

  lemma FirstArrival(p: seq<Block>, h: Block) returns (k: nat)
    requires h in p
    ensures k < |p| && p[k] == h && h !in p[..k]
  {
    k := 0;
    while p[k] != h
      invariant k < |p| && h !in p[..k] && h in p[k..]
      decreases |p| - k
    {
      k := k + 1;
    }
  }

  /** Every block but the start block has a forward predecessor. */
  lemma ForwardPred(g: Graph, t: Loops, rank: seq<nat>, b: Block) returns (q: Block)
    requires NormalForm(g, t, rank) && b < |g| && b != START
    ensures q < |g| && Forward(g, rank, q, b)
  {
    assert Reachable(g, b);
    var p :| PathFromTo(g, p, START, b);
    assert p[|p| - 1] in p;
    var k := FirstArrival(p, b);
    assert p[0] == START && k > 0;
    q := p[k - 1];
    assert EdgeAt(g, p, k - 1);
    PathSlice(g, p, 0, k);
    assert p[0..k] == p[..k];
    assert BackEdge(g, t, q, b) ==> Dominates(g, b, q);
  }

  /** Dominators have smaller rank. */
  lemma {:induction false} DominatorRank(g: Graph, t: Loops, rank: seq<nat>, d: Block, b: Block)
    requires NormalForm(g, t, rank) && b < |g| && Dominates(g, d, b)
    ensures d == b || (d < |g| && rank[d] < rank[b])
    decreases rank[b]
  {
    if b == START {
      SinglePath(g, START);
      assert d in [START];
    } else if d != b {
      var q := ForwardPred(g, t, rank, b);
      forall p | PathFromTo(g, p, START, q) ensures d in p {
        PathExtend(g, p, b);
        assert d in p + [b];
      }
      hide NormalForm;
      DominatorRank(g, t, rank, d, q);
    }
  }
}
