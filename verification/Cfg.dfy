/** Control-flow graphs of basic blocks, as the analyses see them: block ids and ordered
    successor lists (ir/bb.h, ir/graph.cpp).  Paths, reachability and all-paths dominance are
    the reference notions that the passes are measured against. */
module Cfg {

  type Block = nat

  /** Entry `b` lists the non-null successor slots of block `b`; the start block has id 0. */
  type Graph = seq<seq<Block>>

  const START: Block := 0

  /** A null pointer to a block, node or loop. */
  const NULL: int := -1

  predicate InRange(g: Graph, ss: seq<Block>) {
    forall i :: 0 <= i < |ss| ==> ss[i] < |g|
  }

  predicate Valid(g: Graph) {
    |g| > 0 && forall b :: 0 <= b < |g| ==> InRange(g, g[b])
  }

  predicate Edge(g: Graph, u: Block, v: Block) {
    u < |g| && v in g[u]
  }

  predicate EdgeAt(g: Graph, p: seq<Block>, i: nat)
    requires i + 1 < |p|
  {
    Edge(g, p[i], p[i + 1])
  }

  ghost predicate IsPath(g: Graph, p: seq<Block>) {
    && |p| > 0
    && (forall i :: 0 <= i < |p| ==> p[i] < |g|)
    && (forall i {:trigger EdgeAt(g, p, i)} :: 0 <= i < |p| - 1 ==> EdgeAt(g, p, i))
  }

  ghost predicate PathFromTo(g: Graph, p: seq<Block>, u: Block, v: Block) {
    IsPath(g, p) && p[0] == u && p[|p| - 1] == v
  }

  ghost predicate Reachable(g: Graph, v: Block) {
    exists p :: PathFromTo(g, p, START, v)
  }

  /** Every path from the start block to `v` meets `d`. */
  ghost predicate Dominates(g: Graph, d: Block, v: Block) {
    forall p :: PathFromTo(g, p, START, v) ==> d in p
  }

  /** `d` is a strict dominator of `v`, and every other strict dominator of `v` dominates `d`. */
  ghost predicate IsImmDominator(g: Graph, d: Block, v: Block) {
    && d != v
    && Reachable(g, d)
    && Dominates(g, d, v)
    && forall e :: e != v && Dominates(g, e, v) ==> Dominates(g, e, d)
  }

  function Elems(s: seq<nat>): (r: set<nat>)
    ensures forall x :: x in r <==> x in s
  {
    set x | x in s
  }

  lemma ElemsConcat(a: seq<nat>, b: seq<nat>)
    ensures Elems(a + b) == Elems(a) + Elems(b)
  {}

  lemma ConcatAssoc(a: seq<nat>, b: seq<nat>, c: seq<nat>)
    ensures (a + b) + c == a + (b + c)
    ensures Elems((a + b) + c) == Elems(a) + (Elems(b) + Elems(c))
  {}

  lemma SinglePath(g: Graph, u: Block)
    requires u < |g|
    ensures PathFromTo(g, [u], u, u)
  {}

  lemma EdgePath(g: Graph, u: Block, v: Block)
    requires Edge(g, u, v) && v < |g|
    ensures PathFromTo(g, [u, v], u, v)
  {
    assert EdgeAt(g, [u, v], 0);
  }

  lemma PathSlice(g: Graph, p: seq<Block>, i: nat, j: nat)
    requires IsPath(g, p) && i < j <= |p|
    ensures PathFromTo(g, p[i..j], p[i], p[j - 1])
  {
    var q := p[i..j];
    forall k | 0 <= k < |q| - 1 ensures EdgeAt(g, q, k) {
      assert EdgeAt(g, p, i + k);
    }
  }

  /** Joins two paths that share the middle block. */
  lemma PathConcat(g: Graph, p: seq<Block>, q: seq<Block>)
    requires IsPath(g, p) && IsPath(g, q) && p[|p| - 1] == q[0]
    ensures PathFromTo(g, p + q[1..], p[0], q[|q| - 1])
    ensures forall x :: x in p + q[1..] <==> x in p || x in q
  {
    var r := p + q[1..];
    forall k | 0 <= k < |r| - 1 ensures EdgeAt(g, r, k) {
      if k < |p| - 1 {
        assert EdgeAt(g, p, k);
      } else {
        var m := k - (|p| - 1);
        assert EdgeAt(g, q, m);
        assert r[k + 1] == q[m + 1];
        assert r[k] == q[m];
      }
    }
    forall x | x in q ensures x in r {
      var i :| 0 <= i < |q| && q[i] == x;
      if i > 0 { assert r[|p| + i - 1] == x; } else { assert r[|p| - 1] == x; }
    }
  }

  lemma PathExtend(g: Graph, p: seq<Block>, v: Block)
    requires IsPath(g, p) && v < |g| && Edge(g, p[|p| - 1], v)
    ensures PathFromTo(g, p + [v], p[0], v)
  {
    EdgePath(g, p[|p| - 1], v);
    PathConcat(g, p, [p[|p| - 1], v]);
    assert p + [p[|p| - 1], v][1..] == p + [v];
  }

  function IndexOf(order: seq<Block>, b: Block): (i: nat)
    requires b in order
    ensures i < |order| && order[i] == b
  {
    if order[0] == b then 0 else 1 + IndexOf(order[1..], b)
  }
}
