/** Putting a new empty block in front of a loop header (pass/loop_analysis.cpp:107-186,
    ir/graph.cpp:99-126): some of the edges to `h` are redirected to the new block, which leads to `h`.
    Splitting back edges and adding pre-headers are both of this shape. */
module Redirection {
  import opened Cfg
  import opened Coverage
  import opened FlowGraph

  /** The new block is number |g|. */
  ghost predicate Redirected(g: Graph, r: Graph, ps: set<Block>, h: Block) {
    && Valid(g) && |r| == |g| + 1 && h < |g| && h != START
    && (forall u :: 0 <= u < |g| ==> NoRepeats(g[u]) && r[u] == if u in ps then Replace(g[u], h, |g|) else g[u])
    && r[|g|] == [h] && (forall u :: u in ps ==> Edge(g, u, h))
  }

  lemma NewEdges(g: Graph, r: Graph, ps: set<Block>, h: Block, u: Block, v: Block)
    requires Redirected(g, r, ps, h)
    ensures var n := |g|;
      && (u < n && v < n && Edge(g, u, v) && !(v == h && u in ps) ==> Edge(r, u, v))
      && (u < n && u in ps ==> Edge(r, u, n)) && Edge(r, n, h)
      && (Edge(r, u, v) && u < n && v < n ==> Edge(g, u, v) && !(v == h && u in ps))
      && (Edge(r, u, n) ==> u in ps) && (Edge(r, n, v) ==> v == h)
  {
    var n := |g|;
    if u < n {
      assert InRange(g, g[u]);
      assert n !in g[u];
      if u in ps {
        ReplaceMembers(g[u], h, n);
      }
    }
  }

  lemma NewValid(g: Graph, r: Graph, ps: set<Block>, h: Block)
    requires Redirected(g, r, ps, h)
    ensures Valid(r)
  {
    forall b | 0 <= b < |r| ensures InRange(r, r[b]) {
      if b < |g| {
        assert InRange(g, g[b]);
        if b in ps {
          ReplaceAt(g[b], h, |g|);
        }
      }
    }
  }

  // ---- Paths ---------------------------------------------------------------------------------------

  /** The step from `u` to `v` in the new graph. */
  function Via(n: Block, ps: set<Block>, h: Block, u: Block, v: Block): seq<Block> {
    if v == h && u in ps then [n, h] else [v]
  }

  function Expand(n: Block, ps: set<Block>, h: Block, p: seq<Block>): (q: seq<Block>)
    requires |p| > 0
    ensures |q| >= |p| && q[0] == p[0] && q[|q| - 1] == p[|p| - 1]
  {
    if |p| == 1 then p
    else Expand(n, ps, h, p[..|p| - 1]) + Via(n, ps, h, p[|p| - 2], p[|p| - 1])
  }

  /** Erasing the new block. */
  function Erase(n: Block, q: seq<Block>): seq<Block> {
    if q == [] then [] else Erase(n, q[..|q| - 1]) + if q[|q| - 1] == n then [] else [q[|q| - 1]]
  }

  lemma EraseSnoc(n: Block, q: seq<Block>, x: Block)
    ensures Erase(n, q + [x]) == if x == n then Erase(n, q) else Erase(n, q) + [x]
  {
    assert (q + [x])[..|q + [x]| - 1] == q;
    assert Erase(n, q) + [] == Erase(n, q);
  }

  lemma ExpandSnoc(n: Block, ps: set<Block>, h: Block, p: seq<Block>, v: Block)
    requires |p| > 0
    ensures Expand(n, ps, h, p + [v]) == Expand(n, ps, h, p) + Via(n, ps, h, p[|p| - 1], v)
  {
    assert (p + [v])[..|p + [v]| - 1] == p;
  }

  lemma {:induction false} ExpandIsPath(g: Graph, r: Graph, ps: set<Block>, h: Block, p: seq<Block>)
    requires Redirected(g, r, ps, h) && IsPath(g, p)
    ensures IsPath(r, Expand(|g|, ps, h, p)) && forall x :: x < |g| ==> (x in Expand(|g|, ps, h, p) <==> x in p)
    decreases |p|
  {
    var n := |g|;
    if |p| == 1 {
      SinglePath(r, p[0]);
      assert p == [p[0]];
    } else {
      var front, u, v := p[..|p| - 1], p[|p| - 2], p[|p| - 1];
      PathSlice(g, p, 0, |p| - 1);
      assert p[0..|p| - 1] == front && front[|front| - 1] == u && p == front + [v];
      ExpandIsPath(g, r, ps, h, front);
      assert EdgeAt(g, p, |p| - 2);
      NewEdges(g, r, ps, h, u, v);
      NewEdges(g, r, ps, h, n, h);
      var q := Expand(n, ps, h, front);
      if v == h && u in ps {
        PathExtend(r, q, n);
        PathExtend(r, q + [n], h);
        assert q + [n] + [h] == q + [n, h];
      } else {
        PathExtend(r, q, v);
      }
    }
  }

  lemma EraseVia(n: Block, ps: set<Block>, h: Block, q: seq<Block>, u: Block, v: Block)
    requires h < n && v < n
    ensures Erase(n, q + Via(n, ps, h, u, v)) == Erase(n, q) + [v]
  {
    hide Erase;
    EraseSnoc(n, q, v);
    EraseSnoc(n, q, n);
    EraseSnoc(n, q + [n], h);
    assert q + [n] + [h] == q + [n, h];
  }

  lemma EraseOne(n: Block, x: Block)
    requires x != n
    ensures Erase(n, [x]) == [x]
  {
    EraseSnoc(n, [], x);
    assert [] + [x] == [x];
  }

  lemma {:induction false} EraseExpand(n: Block, ps: set<Block>, h: Block, p: seq<Block>)
    requires |p| > 0 && h < n && forall i :: 0 <= i < |p| ==> p[i] < n
    ensures Erase(n, Expand(n, ps, h, p)) == p
    decreases |p|
  {
    hide Erase, Via;
    if |p| > 1 {
      var front, u, v := p[..|p| - 1], p[|p| - 2], p[|p| - 1];
      EraseExpand(n, ps, h, front);
      assert p == front + [v];
      EraseVia(n, ps, h, Expand(n, ps, h, front), u, v);
    } else {
      EraseOne(n, p[0]);
      assert p == [p[0]];
    }
  }

  ghost predicate Corresponds(g: Graph, ps: set<Block>, h: Block, q: seq<Block>)
    requires |q| > 0
  {
    var p := Erase(|g|, q);
    && IsPath(g, p) && p[0] == q[0] && p[|p| - 1] == q[|q| - 1]
    && Expand(|g|, ps, h, p) == q
  }

  lemma StepOver(g: Graph, r: Graph, ps: set<Block>, h: Block, front: seq<Block>, v: Block)
    requires Redirected(g, r, ps, h) && |front| > 0 && Corresponds(g, ps, h, front)
    requires v < |g| && Edge(g, front[|front| - 1], v)
    ensures Corresponds(g, ps, h, front + Via(|g|, ps, h, front[|front| - 1], v))
  {
    var n := |g|;
    var p := Erase(n, front);
    hide Erase, Expand, Via, Redirected;
    PathExtend(g, p, v);
    EraseVia(n, ps, h, front, front[|front| - 1], v);
    ExpandSnoc(n, ps, h, p, v);
  }

  /** Every path of the new graph between old blocks is the expansion of its erasure: executions
      correspond one to one. */
  lemma {:induction false} ExpandErase(g: Graph, r: Graph, ps: set<Block>, h: Block, q: seq<Block>)
    requires Redirected(g, r, ps, h) && IsPath(r, q) && q[0] < |g| && q[|q| - 1] < |g|
    ensures Corresponds(g, ps, h, q)
    decreases |q|
  {
    if |q| == 1 {
      EraseOne(|g|, q[0]);
      assert q == [q[0]];
      SinglePath(g, q[0]);
    } else {
      var k := LastStep(g, r, ps, h, q);
      hide Corresponds, Redirected, Via;
      PathSlice(r, q, 0, k);
      ExpandErase(g, r, ps, h, q[0..k]);
      StepOver(g, r, ps, h, q[0..k], q[|q| - 1]);
    }
  }

  /** The last step between old blocks, perhaps through the new block. */
  lemma LastStep(g: Graph, r: Graph, ps: set<Block>, h: Block, q: seq<Block>) returns (k: nat)
    requires Redirected(g, r, ps, h) && IsPath(r, q) && |q| > 1 && q[0] < |g| && q[|q| - 1] < |g|
    ensures 0 < k < |q| && q[k - 1] < |g| && Edge(g, q[k - 1], q[|q| - 1])
    ensures q == q[0..k] + Via(|g|, ps, h, q[k - 1], q[|q| - 1])
  {
    var n, v := |g|, q[|q| - 1];
    assert EdgeAt(r, q, |q| - 2);
    if q[|q| - 2] == n {
      assert EdgeAt(r, q, |q| - 3);
      k := |q| - 2;
      NewEdges(g, r, ps, h, n, v);
      NewEdges(g, r, ps, h, q[k - 1], n);
      assert q == q[0..k] + [n, v];
    } else {
      k := |q| - 1;
      NewEdges(g, r, ps, h, q[k - 1], v);
      assert q == q[0..k] + [v];
    }
  }

  lemma {:induction false} EraseMembers(n: Block, q: seq<Block>, x: Block)
    requires x != n
    ensures x in Erase(n, q) <==> x in q
    decreases |q|
  {
    if q != [] {
      EraseMembers(n, q[..|q| - 1], x);
      assert q == q[..|q| - 1] + [q[|q| - 1]];
    }
  }

  /** Dominance between old blocks does not change, so dominators computed before stay usable. */
  lemma DominanceUnchanged(g: Graph, r: Graph, ps: set<Block>, h: Block, a: Block, b: Block)
    requires Redirected(g, r, ps, h) && a < |g| && b < |g|
    ensures Dominates(g, a, b) <==> Dominates(r, a, b)
    ensures Reachable(g, b) <==> Reachable(r, b)
  {
    var n := |g|;
    forall p | PathFromTo(g, p, START, b)
      ensures PathFromTo(r, Expand(n, ps, h, p), START, b) && (a in p <==> a in Expand(n, ps, h, p))
    {
      ExpandIsPath(g, r, ps, h, p);
    }
    forall q | PathFromTo(r, q, START, b)
      ensures PathFromTo(g, Erase(n, q), START, b) && (a in q <==> a in Erase(n, q))
    {
      ExpandErase(g, r, ps, h, q);
      EraseMembers(n, q, a);
    }
    if Dominates(g, a, b) {
      forall q | PathFromTo(r, q, START, b) ensures a in q {
        assert PathFromTo(g, Erase(n, q), START, b);
      }
    }
    if Dominates(r, a, b) {
      forall p | PathFromTo(g, p, START, b) ensures a in p {
        assert PathFromTo(r, Expand(n, ps, h, p), START, b);
      }
    }
    if Reachable(g, b) {
      var p :| PathFromTo(g, p, START, b);
      assert PathFromTo(r, Expand(n, ps, h, p), START, b);
    }
    if Reachable(r, b) {
      var q :| PathFromTo(r, q, START, b);
      assert PathFromTo(g, Erase(n, q), START, b);
    }
  }

  /** If all entries are redirected, only the latch and the new block lead to the header, the new block
      leads nowhere else, and the header still dominates the latch. */
  lemma HeaderNormal(g: Graph, r: Graph, ps: set<Block>, h: Block, t: Block, u: Block)
    requires Redirected(g, r, ps, h) && t < |g| && t !in ps
    requires forall x: nat :: Edge(g, x, h) <==> x in ps || x == t
    ensures Edge(r, u, h) <==> u == t || u == |g|
    ensures r[|g|] == [h] && (Dominates(g, h, t) ==> Dominates(r, h, t))
  {
    NewEdges(g, r, ps, h, u, h);
    NewEdges(g, r, ps, h, t, h);
    DominanceUnchanged(g, r, ps, h, h, t);
  }
}
