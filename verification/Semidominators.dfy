/** The graph theory behind the Lengauer-Tarjan dominator tree (pass/dom_tree.cpp).
    Nodes are numbered in depth-first preorder, so a node is its own `dfs_idx`, and the subtree
    of `v` is the interval `[v, last[v])`. */
module Semidominators {
  import opened Cfg

  /** `a` is an ancestor of `v` in the depth-first tree, or `v` itself. */
  predicate Anc(last: seq<nat>, a: nat, v: nat) {
    a < |last| && a <= v < last[a]
  }

  /** `parent` and `last` describe a depth-first spanning tree of `g` rooted at node 0. */
  ghost predicate DfsTree(g: Graph, parent: seq<int>, last: seq<nat>) {
    var n := |g|;
    && n > 0 && Valid(g) && |parent| == n && |last| == n && last[0] == n
    && (forall v :: 0 <= v < n ==> v < last[v] <= n)
    && (forall v, w :: 0 <= v < n && 0 <= w < n && Anc(last, v, w) ==> last[w] <= last[v])
    && (forall w :: 0 < w < n ==>
          0 <= parent[w] < w && Anc(last, parent[w], w) && Edge(g, parent[w], w))
    && (forall v, w {:trigger Anc(last, v, w)} :: 0 <= v < w < n && Anc(last, v, w) ==> v <= parent[w])
    && (forall v, w :: 0 <= v < n && Edge(g, v, w) ==> w < last[v])
  }

  function TreePath(parent: seq<int>, a: nat, v: nat): seq<Block>
    requires v < |parent|
    requires forall w :: 0 < w < |parent| ==> 0 <= parent[w] < w
    decreases v
  {
    if v <= a then [v] else TreePath(parent, a, parent[v]) + [v]
  }

  lemma {:induction false} TreePathCorrect(g: Graph, parent: seq<int>, last: seq<nat>, a: nat, v: nat)
    requires DfsTree(g, parent, last) && v < |g| && Anc(last, a, v)
    ensures PathFromTo(g, TreePath(parent, a, v), a, v)
    ensures forall x :: x in TreePath(parent, a, v) ==> Anc(last, a, x) && Anc(last, x, v)
    decreases v
  {
    if v > a {
      var p := TreePath(parent, a, parent[v]);
      TreePathCorrect(g, parent, last, a, parent[v]);
      PathExtend(g, p, v);
      forall x | x in p + [v] ensures Anc(last, a, x) && Anc(last, x, v) {
        if x in p {
          assert Anc(last, parent[v], v);
        }
      }
    }
  }

  function ArgMin(p: seq<nat>): (m: nat)
    requires |p| > 0
    ensures m < |p| && forall i :: 0 <= i < |p| ==> p[m] <= p[i]
  {
    if |p| == 1 then 0
    else
      var m := ArgMin(p[..|p| - 1]);
      assert forall i :: 0 <= i < |p| - 1 ==> p[i] == p[..|p| - 1][i];
      if p[m] <= p[|p| - 1] then m else |p| - 1
  }

  /** A path that never drops below its start stays in the start's subtree. */
  lemma {:induction false} StaysInSubtree(g: Graph, parent: seq<int>, last: seq<nat>, p: seq<Block>)
    requires DfsTree(g, parent, last) && IsPath(g, p)
    requires forall i :: 0 <= i < |p| ==> p[0] <= p[i]
    ensures Anc(last, p[0], p[|p| - 1])
    decreases |p|
  {
    if |p| > 1 {
      var q := p[..|p| - 1];
      PathSlice(g, p, 0, |p| - 1);
      assert p[0..|p| - 1] == q;
      StaysInSubtree(g, parent, last, q);
      assert EdgeAt(g, p, |p| - 2);
      assert Anc(last, p[0], p[|p| - 2]);
    }
  }

  /** The path lemma: a path from a smaller to a larger number meets a common ancestor of
      its two ends. */
  lemma CommonAncestor(g: Graph, parent: seq<int>, last: seq<nat>, p: seq<Block>) returns (m: nat)
    requires DfsTree(g, parent, last) && IsPath(g, p) && p[0] <= p[|p| - 1]
    ensures m < |p| && Anc(last, p[m], p[0]) && Anc(last, p[m], p[|p| - 1])
  {
    m := ArgMin(p);
    PathSlice(g, p, m, |p|);
    var q := p[m..|p|];
    assert forall i :: 0 <= i < |q| ==> q[i] == p[m + i];
    StaysInSubtree(g, parent, last, q);
  }

  /** A path of at least one edge into `w` whose interior nodes are all numbered above `w`. */
  ghost predicate SemiPath(g: Graph, p: seq<Block>, w: nat) {
    && IsPath(g, p) && |p| >= 2 && p[|p| - 1] == w
    && forall i :: 0 < i < |p| - 1 ==> p[i] > w
  }

  /** `s` is the semidominator of `w`: the least source of a semidominator path into `w`. */
  ghost predicate IsSemi(g: Graph, s: nat, w: nat) {
    && (exists p :: SemiPath(g, p, w) && p[0] == s)
    && (forall p :: SemiPath(g, p, w) ==> s <= p[0])
  }

  lemma SemiIsProperAncestor(g: Graph, parent: seq<int>, last: seq<nat>, s: nat, w: nat)
    requires DfsTree(g, parent, last) && 0 < w < |g| && IsSemi(g, s, w)
    ensures s < w && Anc(last, s, w)
  {
    var e := [parent[w] as nat, w];
    EdgePath(g, parent[w], w);
    assert SemiPath(g, e, w);
    var p :| SemiPath(g, p, w) && p[0] == s;
    var m := CommonAncestor(g, parent, last, p);
  }

  /** One direction of the semidominator recurrence: what `Eval` offers is a source. */
  lemma CandidateHasPath(g: Graph, parent: seq<int>, last: seq<nat>, s: nat, u: nat, v: nat, w: nat)
    requires DfsTree(g, parent, last) && 0 < w < u < |g| && v < |g|
    requires IsSemi(g, s, u) && Anc(last, u, v) && Edge(g, v, w)
    ensures exists p :: SemiPath(g, p, w) && p[0] == s
  {
    var p1 :| SemiPath(g, p1, u) && p1[0] == s;
    var p2 := TreePath(parent, u, v);
    TreePathCorrect(g, parent, last, u, v);
    PathConcat(g, p1, p2);
    var q := p1 + p2[1..];
    PathExtend(g, q, w);
    var r := q + [w];
    forall i | 0 < i < |r| - 1 ensures r[i] > w {
      if i < |p1| {
        assert r[i] == p1[i];
      } else {
        assert r[i] == p2[i - |p1| + 1];
        assert r[i] in p2;
      }
    }
    assert SemiPath(g, r, w) && r[0] == s;
  }

  /** The first index of `p` after `x` that holds a tree ancestor of `w`. */
  lemma FirstAncestor(last: seq<nat>, p: seq<nat>, x: nat, w: nat) returns (y: nat)
    requires x + 1 < |p| && Anc(last, p[|p| - 1], w)
    ensures x < y < |p| && Anc(last, p[y], w)
    ensures forall i :: x < i < y ==> !Anc(last, p[i], w)
  {
    y := x + 1;
    while !Anc(last, p[y], w)
      invariant x < y < |p|
      invariant forall i :: x < i < y ==> !Anc(last, p[i], w)
      decreases |p| - y
    {
      y := y + 1;
    }
  }

  /** Between `i` and the first ancestor of `w` at `k`, a number below `p[k]` is impossible. */
  lemma NoEarlierAncestor(g: Graph, parent: seq<int>, last: seq<nat>, p: seq<Block>,
                          i: nat, k: nat, w: nat)
    requires DfsTree(g, parent, last) && IsPath(g, p) && w < |g|
    requires i < k < |p| && Anc(last, p[k], w)
    requires forall j :: i <= j < k ==> !Anc(last, p[j], w)
    ensures p[i] > p[k]
  {
    PathSlice(g, p, i, k + 1);
    var r := p[i..k + 1];
    forall m | 0 <= m < |r| && Anc(last, r[m], r[|r| - 1]) ensures m == |r| - 1 {
      assert r[m] == p[i + m] && Anc(last, p[i + m], w);
    }
    if p[i] <= p[k] {
      var m := CommonAncestor(g, parent, last, r);
    }
  }

  /** The other direction: every semidominator path with an interior passes a node `p[j] > w`
      above the last interior node, and its prefix is a semidominator path for that node. */
  lemma PathHasCandidate(g: Graph, parent: seq<int>, last: seq<nat>, p: seq<Block>, w: nat)
    returns (j: nat)
    requires DfsTree(g, parent, last) && SemiPath(g, p, w) && |p| > 2
    ensures 1 <= j < |p| - 1 && p[j] > w && Anc(last, p[j], p[|p| - 2])
    ensures SemiPath(g, p[..j + 1], p[j])
  {
    var v := p[|p| - 2];
    var q := p[..|p| - 1];
    PathSlice(g, p, 0, |p| - 1);
    assert p[0..|p| - 1] == q;
    assert Anc(last, v, v);
    j := FirstAncestor(last, q, 0, v);
    PathSlice(g, p, 0, j + 1);
    assert p[0..j + 1] == p[..j + 1];
    forall i | 0 < i < j ensures p[i] > p[j] {
      NoEarlierAncestor(g, parent, last, q, i, j, v);
    }
  }

  /** A dominator lies on the tree path. */
  lemma DominatorIsAncestor(g: Graph, parent: seq<int>, last: seq<nat>, d: nat, w: nat)
    requires DfsTree(g, parent, last) && w < |g| && Dominates(g, d, w)
    ensures Anc(last, d, w)
  {
    TreePathCorrect(g, parent, last, 0, w);
    assert d in TreePath(parent, 0, w);
  }

  /** Strict dominators of `w` dominate the semidominator of `w`. */
  lemma DominatesSemi(g: Graph, parent: seq<int>, last: seq<nat>, d: nat, s: nat, w: nat)
    requires DfsTree(g, parent, last) && 0 < w < |g| && IsSemi(g, s, w)
    requires d != w && Dominates(g, d, w)
    ensures Dominates(g, d, s)
  {
    DominatorIsAncestor(g, parent, last, d, w);
    var q :| SemiPath(g, q, w) && q[0] == s;
    forall p | PathFromTo(g, p, START, s) ensures d in p {
      PathConcat(g, p, q);
      assert d in p + q[1..];
      assert d in p || d in q;
      if d in q {
        var i :| 0 <= i < |q| && q[i] == d;
        assert i == 0;
      }
    }
  }

  /** The last index of `p` that holds a number below `t`. */
  lemma LastBelow(p: seq<nat>, t: nat) returns (x: nat)
    requires |p| > 0 && p[0] < t
    ensures x < |p| && p[x] < t && forall i :: x < i < |p| ==> p[i] >= t
  {
    x := |p| - 1;
    while p[x] >= t
      invariant 0 <= x < |p|
      invariant forall i :: x < i < |p| ==> p[i] >= t
      decreases x
    {
      x := x - 1;
    }
  }

  /** A path to `w` that avoids the tree ancestor `t` jumps over it: it contains a
      semidominator path `q` from above `t` to a node strictly below `t` and above-or-at `w`. */
  lemma JumpOver(g: Graph, parent: seq<int>, last: seq<nat>, t: nat, w: nat, p: seq<Block>)
    returns (q: seq<Block>, y: nat)
    requires DfsTree(g, parent, last) && Anc(last, t, w) && t != w && w < |g|
    requires PathFromTo(g, p, START, w) && t !in p
    ensures SemiPath(g, q, y) && q[0] < t < y < |g| && Anc(last, y, w)
  {
    assert START in p;
    var x := LastBelow(p, t);
    var k := FirstAncestor(last, p, x, w);
    y := p[k];
    q := p[x..k + 1];
    assert y in p;
    PathSlice(g, p, x, k + 1);
    forall i | x < i < k ensures p[i] > y {
      if p[i] <= y {
        NoEarlierAncestor(g, parent, last, p, i, k, w);
      }
    }
  }

  /** Theorem: a semidominator that no node in between jumps over is the immediate dominator. */
  lemma SemiIsImmDominator(g: Graph, parent: seq<int>, last: seq<nat>, semi: seq<int>, w: nat)
    requires DfsTree(g, parent, last) && |semi| == |g| && 0 < w < |g|
    requires forall x :: 0 < x < |g| ==> 0 <= semi[x] && IsSemi(g, semi[x], x)
    requires forall x :: semi[w] < x && Anc(last, x, w) ==> semi[w] <= semi[x]
    ensures IsImmDominator(g, semi[w], w)
  {
    var s := semi[w];
    SemiIsProperAncestor(g, parent, last, s, w);
    forall p | PathFromTo(g, p, START, w) ensures s in p {
      if s !in p {
        var q, y := JumpOver(g, parent, last, s, w, p);
      }
    }
    forall e | e != w && Dominates(g, e, w) ensures Dominates(g, e, s) {
      DominatesSemi(g, parent, last, e, s, w);
    }
    TreePathCorrect(g, parent, last, 0, s);
    assert Reachable(g, s);
  }

  /** A path to `u` built from the tree path to `semi[y]`, a semidominator path to `y` and the
      tree path to `u` avoids every `d` between `semi[y]` and `y`. */
  lemma Bypass(g: Graph, parent: seq<int>, last: seq<nat>, d: nat, y: nat, u: nat, q: seq<Block>)
    requires DfsTree(g, parent, last) && u < |g| && SemiPath(g, q, y) && y < |g|
    requires q[0] < d < y && Anc(last, y, u)
    ensures !Dominates(g, d, u)
  {
    var p0 := TreePath(parent, 0, q[0]);
    TreePathCorrect(g, parent, last, 0, q[0]);
    PathConcat(g, p0, q);
    var p1 := p0 + q[1..];
    var p2 := TreePath(parent, y, u);
    TreePathCorrect(g, parent, last, y, u);
    PathConcat(g, p1, p2);
    assert forall i :: 0 <= i < |q| ==> q[i] != d;
    assert d !in p1 + p2[1..];
  }

  /** Theorem: otherwise `w` shares its immediate dominator with the node of least
      semidominator between `semi[w]` and `w`. */
  lemma SharedImmDominator(g: Graph, parent: seq<int>, last: seq<nat>, semi: seq<int>,
                           u: nat, d: nat, w: nat)
    requires DfsTree(g, parent, last) && |semi| == |g| && 0 < w < |g|
    requires forall x :: 0 < x < |g| ==> 0 <= semi[x] && IsSemi(g, semi[x], x)
    requires semi[w] < u && Anc(last, u, w) && semi[u] < semi[w]
    requires forall x :: semi[w] < x && Anc(last, x, w) ==> semi[u] <= semi[x]
    requires IsImmDominator(g, d, u)
    ensures IsImmDominator(g, d, w)
  {
    var s := semi[w];
    SemiIsProperAncestor(g, parent, last, s, w);
    assert u != w;
    DominatesSemi(g, parent, last, d, semi[u], u);
    DominatorIsAncestor(g, parent, last, d, semi[u]);
    DominatorIsAncestor(g, parent, last, d, u);
    assert d <= semi[u] < s < u < w;
    SharedIsDominator(g, parent, last, semi, u, d, w);
    forall e | e != w && Dominates(g, e, w) ensures Dominates(g, e, d) {
      StrictDominatorMovesUp(g, parent, last, s, e, u, w);
    }
  }

  lemma SharedIsDominator(g: Graph, parent: seq<int>, last: seq<nat>, semi: seq<int>,
                          u: nat, d: nat, w: nat)
    requires DfsTree(g, parent, last) && |semi| == |g| && 0 < w < |g|
    requires forall x :: 0 < x < |g| ==> 0 <= semi[x] && IsSemi(g, semi[x], x)
    requires u < w && Anc(last, u, w) && Anc(last, d, u)
    requires d <= semi[u] < semi[w] < u
    requires Anc(last, semi[w], w)
    requires forall x :: semi[w] < x && Anc(last, x, w) ==> semi[u] <= semi[x]
    requires Dominates(g, d, u)
    ensures Dominates(g, d, w)
  {
    forall p | PathFromTo(g, p, START, w) ensures d in p {
      if d !in p {
        var q, y := JumpOver(g, parent, last, d, w, p);
        Bypass(g, parent, last, d, y, u, q);
      }
    }
  }

  /** A strict dominator of `w` that sits at or above `semi[w]` strictly dominates every tree
      node `u` between `semi[w]` and `w`. */
  lemma StrictDominatorMovesUp(g: Graph, parent: seq<int>, last: seq<nat>, s: nat, e: nat, u: nat, w: nat)
    requires DfsTree(g, parent, last) && 0 < w < |g| && IsSemi(g, s, w)
    requires s < u && Anc(last, u, w) && e != w && Dominates(g, e, w)
    ensures e != u && Dominates(g, e, u)
  {
    DominatesSemi(g, parent, last, e, s, w);
    SemiIsProperAncestor(g, parent, last, s, w);
    DominatorIsAncestor(g, parent, last, e, s);
    var t := TreePath(parent, u, w);
    TreePathCorrect(g, parent, last, u, w);
    forall p | PathFromTo(g, p, START, u) ensures e in p {
      PathConcat(g, p, t);
      assert e in p + t[1..];
    }
  }
}
