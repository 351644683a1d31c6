/** Natural loops of a graph: how the backward search of loop analysis computes them, and how they
    nest (pass/loop_analysis.cpp:60-105). */
module NaturalLoops {
  import opened Cfg
  import opened Coverage
  import opened Traversal
  import opened Orders
  import DT = DominatorTree

  /** Predecessor lists: the graph with its edges turned round. */
  ghost predicate Reversed(g: Graph, r: Graph) {
    Valid(g) && Valid(r) && |r| == |g| && forall u: nat, v: nat :: Edge(g, u, v) <==> Edge(r, v, u)
  }

  // ---- The search --------------------------------------------------------------------------------

  ghost predicate Avoids(p: seq<Block>, vis: set<Block>) {
    forall x :: x in p ==> x !in vis
  }

  lemma {:induction false} PreAvoiding(g: Graph, b: Block, vis: set<Block>, x: Block) returns (p: seq<Block>)
    requires Valid(g) && b < |g| && x in Pre(g, b, vis)
    ensures PathFromTo(g, p, b, x) && Avoids(p, vis)
    decreases All(g) - vis, 0
  {
    if x == b {
      SinglePath(g, b);
      p := [b];
    } else {
      var s, q := PreListAvoiding(g, g[b], vis + {b}, x);
      EdgePath(g, b, s);
      PathConcat(g, [b, s], q);
      p := [b, s] + q[1..];
      assert q[0] in q;
    }
  }

  lemma {:induction false} PreListAvoiding(g: Graph, ss: seq<Block>, vis: set<Block>, x: Block)
    returns (s: Block, p: seq<Block>)
    requires Valid(g) && InRange(g, ss) && x in PreList(g, ss, vis)
    ensures s in ss && s < |g| && PathFromTo(g, p, s, x) && Avoids(p, vis)
    decreases All(g) - vis, |ss|
  {
    var r := Pre(g, ss[0], vis);
    if x in r {
      s := ss[0];
      p := PreAvoiding(g, s, vis, x);
    } else {
      s, p := PreListAvoiding(g, ss[1..], vis + Elems(r), x);
    }
  }

  lemma {:induction false} AvoidingInPre(g: Graph, b: Block, vis: set<Block>, p: seq<Block>)
    requires Valid(g) && b < |g| && IsPath(g, p) && p[0] == b && Avoids(p, vis)
    ensures p[|p| - 1] in Pre(g, b, vis)
    decreases |p|
  {
    PreExplores(g, b, vis);
    if |p| == 1 {
      assert p[0] in p;
    } else {
      PathSlice(g, p, 0, |p| - 1);
      var q := p[0..|p| - 1];
      assert forall x :: x in q ==> x in p;
      AvoidingInPre(g, b, vis, q);
      assert EdgeAt(g, p, |p| - 2);
      assert p[|p| - 1] in p;
    }
  }

  function Reverse(p: seq<Block>): (r: seq<Block>)
    ensures |r| == |p| && forall i :: 0 <= i < |p| ==> r[i] == p[|p| - 1 - i]
  {
    if p == [] then [] else Reverse(p[1..]) + [p[0]]
  }

  lemma ReversePath(g: Graph, r: Graph, p: seq<Block>)
    requires Reversed(g, r) && IsPath(g, p)
    ensures PathFromTo(r, Reverse(p), p[|p| - 1], p[0]) && forall x :: x in Reverse(p) <==> x in p
  {
    var q := Reverse(p);
    forall i | 0 <= i < |q| - 1 ensures EdgeAt(r, q, i) {
      assert EdgeAt(g, p, |p| - 2 - i);
    }
    forall x | x in p ensures x in q {
      var i :| 0 <= i < |p| && p[i] == x;
      assert q[|p| - 1 - i] == x;
    }
    forall x | x in q ensures x in p {
      var i :| 0 <= i < |q| && q[i] == x;
    }
  }

  lemma ReversedBack(g: Graph, r: Graph)
    requires Reversed(g, r)
    ensures Reversed(r, g)
  {}

  /** `RunLoopSearch` from the latch, with the header marked, visits exactly the rest of the natural
      loop. */
  lemma SearchFindsLoop(g: Graph, r: Graph, h: Block, t: Block, x: Block)
    requires Reversed(g, r) && h < |g| && t < |g| && h != t
    ensures x in Pre(r, t, {h}) <==> x != h && InNaturalLoop(g, h, t, x)
  {
    if x in Pre(r, t, {h}) {
      var p := PreAvoiding(r, t, {h}, x);
      ReversedBack(g, r);
      ReversePath(r, g, p);
      assert h !in Reverse(p) && PathFromTo(g, Reverse(p), x, t);
      assert p[|p| - 1] in p;
    }
    if x != h && InNaturalLoop(g, h, t, x) {
      var p :| PathFromTo(g, p, x, t) && h !in p;
      ReversePath(g, r, p);
      AvoidingInPre(r, t, {h}, Reverse(p));
    }
  }

  // ---- Nesting -----------------------------------------------------------------------------------

  /** A reducible loop in the part of the graph that can be reached. */
  ghost predicate IsLoop(g: Graph, h: Block, t: Block) {
    Valid(g) && h < |g| && t < |g| && h != t && Reachable(g, h) && Dominates(g, h, t)
  }

  lemma LatchReached(g: Graph, h: Block, t: Block, x: Block)
    requires IsLoop(g, h, t) && InNaturalLoop(g, h, t, x)
    ensures Dominates(g, h, x) && (x == h || x < |g|)
  {
    HeaderDominatesLoop(g, h, t, x);
  }

  /** The header leads to every reachable block of its loop inside the loop. */
  lemma HeaderLeadsTo(g: Graph, h: Block, t: Block, x: Block) returns (p: seq<Block>)
    requires IsLoop(g, h, t) && InNaturalLoop(g, h, t, x) && Reachable(g, x)
    ensures PathFromTo(g, p, h, x) && forall y :: y in p ==> InNaturalLoop(g, h, t, y)
  {
    LatchReached(g, h, t, x);
    var q :| PathFromTo(g, q, START, x);
    assert h in q;
    var k := LastOccurrence(q, h);
    PathSlice(g, q, k, |q|);
    p := q[k..|q|];
    forall y | y in p ensures InNaturalLoop(g, h, t, y) {
      var i :| 0 <= i < |p| && p[i] == y;
      if i > 0 {
        MemberOnWay(g, h, t, p, i);
      }
    }
  }

  lemma LastOccurrence(q: seq<Block>, h: Block) returns (k: nat)
    requires h in q
    ensures k < |q| && q[k] == h && forall i :: k < i < |q| ==> q[i] != h
  {
    k := |q| - 1;
    while q[k] != h
      invariant k < |q| && h in q[..k + 1] && forall i :: k < i < |q| ==> q[i] != h
      decreases k
    {
      assert q[..k + 1] == q[..k] + [q[k]];
      k := k - 1;
    }
  }

  lemma MemberOnWay(g: Graph, h: Block, t: Block, p: seq<Block>, i: nat)
    requires IsPath(g, p) && 0 < i < |p| && (forall j :: 0 < j < |p| ==> p[j] != h)
    requires InNaturalLoop(g, h, t, p[|p| - 1])
    ensures InNaturalLoop(g, h, t, p[i])
  {
    var q :| PathFromTo(g, q, p[|p| - 1], t) && h !in q;
    PathSlice(g, p, i, |p|);
    var s := p[i..|p|];
    forall y | y in s ensures y != h {
      var j :| 0 <= j < |s| && s[j] == y;
      assert s[j] == p[i + j];
    }
    PathConcat(g, s, q);
  }

  /** Two reducible loops that share a block: if the header of the first dominates the header of the
      second, the second lies inside the first. */
  lemma SharedBlockNests(g: Graph, h1: Block, t1: Block, h2: Block, t2: Block, x: Block)
    requires IsLoop(g, h1, t1) && IsLoop(g, h2, t2) && h1 != h2 && Dominates(g, h1, h2)
    requires Reachable(g, x) && InNaturalLoop(g, h1, t1, x) && InNaturalLoop(g, h2, t2, x)
    ensures InNaturalLoop(g, h1, t1, h2)
  {
    var p := HeaderLeadsTo(g, h2, t2, x);
    forall y | y in p ensures y != h1 {
      NotOuterHeader(g, h1, h2, t2, y);
    }
    assert p[|p| - 1] in p && x != h1;
    var q :| PathFromTo(g, q, x, t1) && h1 !in q;
    PathConcat(g, p, q);
    assert PathFromTo(g, p + q[1..], h2, t1) && h1 !in p + q[1..];
  }

  /** The header of an outer loop is not in an inner loop. */
  lemma NotOuterHeader(g: Graph, h1: Block, h2: Block, t2: Block, y: Block)
    requires IsLoop(g, h2, t2) && Reachable(g, h1) && h1 != h2 && Dominates(g, h1, h2) && InNaturalLoop(g, h2, t2, y)
    ensures y != h1
  {
    LatchReached(g, h2, t2, y);
    if y == h1 {
      var p :| PathFromTo(g, p, START, h1);
      DT.DominanceAntisymmetric(g, h1, h2, p);
    }
  }

  /** A loop whose header lies in another loop lies in that loop altogether. */
  lemma HeaderInside(g: Graph, h1: Block, t1: Block, h2: Block, t2: Block, x: Block)
    requires IsLoop(g, h1, t1) && IsLoop(g, h2, t2) && h1 != h2 && Edge(g, t2, h2)
    requires InNaturalLoop(g, h1, t1, h2) && InNaturalLoop(g, h2, t2, x)
    ensures InNaturalLoop(g, h1, t1, x)
  {
    LatchReached(g, h1, t1, h2);
    if x != h2 {
      var p :| PathFromTo(g, p, x, t2) && h2 !in p;
      forall y | y in p ensures y != h1 {
        var i :| 0 <= i < |p| && p[i] == y;
        PathSlice(g, p, i, |p|);
        assert forall z :: z in p[i..|p|] ==> z in p;
        assert InNaturalLoop(g, h2, t2, y);
        NotOuterHeader(g, h1, h2, t2, y);
      }
      PathExtend(g, p, h2);
      var q :| PathFromTo(g, q, h2, t1) && h1 !in q;
      PathConcat(g, p + [h2], q);
      assert PathFromTo(g, p + [h2] + q[1..], x, t1) && h1 !in p + [h2] + q[1..];
    }
  }

  /** A way to `p[j]` that avoids `a`, continued along `p`, avoids `a` if `p` meets it only before. */
  lemma Detour(g: Graph, q: seq<Block>, p: seq<Block>, j: nat, a: Block) returns (r: seq<Block>)
    requires IsPath(g, p) && j < |p| && PathFromTo(g, q, START, p[j]) && a !in q
    requires forall i :: j <= i < |p| ==> p[i] != a
    ensures PathFromTo(g, r, START, p[|p| - 1]) && a !in r
  {
    PathSlice(g, p, j, |p|);
    var s := p[j..|p|];
    forall x | x in s ensures x != a {
      var i :| 0 <= i < |s| && s[i] == x;
      assert s[i] == p[j + i];
    }
    PathConcat(g, q, s);
    r := q + s[1..];
  }

  /** Of two dominators of a block one dominates the other. */
  lemma DominatorsComparable(g: Graph, a: Block, b: Block, x: Block)
    requires Reachable(g, x) && Dominates(g, a, x) && Dominates(g, b, x)
    ensures Dominates(g, a, b) || Dominates(g, b, a)
  {
    if !Dominates(g, a, b) && !Dominates(g, b, a) {
      var q :| PathFromTo(g, q, START, b) && a !in q;
      var r :| PathFromTo(g, r, START, a) && b !in r;
      assert q[|q| - 1] in q;
      var p :| PathFromTo(g, p, START, x);
      var i := LastOccurrence(p, a);
      var j := LastOccurrence(p, b);
      if i < j {
        var z := Detour(g, q, p, j, a);
      } else {
        var z := Detour(g, r, p, i, b);
      }
    }
  }
}
