/** Programs in SSA form over a control-flow graph (ir/inst.h, ir/bb.h): what an instruction uses
    and defines, when a value is live, and what a well-formed program is. */
module Ssa {
  import opened Cfg

  /** Instructions are identified with the value they define. */
  type Value = nat

  datatype PhiInput = PhiInput(value: Value, source: Block)

  datatype Phi = Phi(id: Value, inputs: seq<PhiInput>)

  datatype Inst = Inst(id: Value, inputs: seq<Value>)

  datatype BasicBlock = BasicBlock(phis: seq<Phi>, insts: seq<Inst>)

  /** `body[b]` is the content of block `b` of the graph. */
  type Code = seq<BasicBlock>

  ghost predicate PhiDef(body: Code, b: Block, v: Value) {
    b < |body| && exists i :: 0 <= i < |body[b].phis| && body[b].phis[i].id == v
  }

  predicate InstDef(body: Code, b: Block, m: nat, v: Value) {
    b < |body| && m < |body[b].insts| && body[b].insts[m].id == v
  }

  predicate InstUse(body: Code, b: Block, k: nat, v: Value) {
    b < |body| && k < |body[b].insts| && v in body[b].insts[k].inputs
  }

  /** `v` flows along the edge from `b` into a phi of `s`. */
  ghost predicate PhiUse(body: Code, b: Block, s: Block, v: Value) {
    && s < |body|
    && exists i, k :: 0 <= i < |body[s].phis| && 0 <= k < |body[s].phis[i].inputs|
         && body[s].phis[i].inputs[k] == PhiInput(v, b)
  }

  ghost predicate NoDefFrom(body: Code, b: Block, j: nat, v: Value) {
    forall m :: j <= m ==> !InstDef(body, b, m, v)
  }

  /** An instruction of `b` at or after position `j` uses `v` before any redefinition. */
  ghost predicate UseFrom(body: Code, b: Block, j: nat, v: Value) {
    exists k :: j <= k && InstUse(body, b, k, v) && forall m :: j <= m < k ==> !InstDef(body, b, m, v)
  }

  /** Following the blocks of `p` from the point before instruction `j` of `p[0]` reaches a use of
      `v` without passing a definition of `v`. */
  ghost predicate LivePath(g: Graph, body: Code, v: Value, p: seq<Block>, j: nat)
    decreases |p|
  {
    && |p| > 0 && p[0] < |g| == |body| && j <= |body[p[0]].insts|
    && if |p| == 1 then
         || UseFrom(body, p[0], j, v)
         || (NoDefFrom(body, p[0], j, v) && exists s :: s in g[p[0]] && PhiUse(body, p[0], s, v))
       else
         && NoDefFrom(body, p[0], j, v) && Edge(g, p[0], p[1]) && !PhiDef(body, p[1], v)
         && LivePath(g, body, v, p[1..], 0)
  }

  /** `v` is live after the first `j` instructions of `b` (and after its phis). */
  ghost predicate LiveAt(g: Graph, body: Code, v: Value, b: Block, j: nat) {
    exists p :: LivePath(g, body, v, p, j) && p[0] == b
  }

  /** The one definition of `v` is in block `d`: as a phi, or as instruction `m`. */
  ghost predicate DefinedAt(body: Code, v: Value, d: Block, m: nat, isPhi: bool) {
    && (if isPhi then PhiDef(body, d, v) else InstDef(body, d, m, v))
    && (forall b :: PhiDef(body, b, v) ==> isPhi && b == d)
    && (forall b, k :: InstDef(body, b, k, v) ==> !isPhi && b == d && k == m)
  }

  /** Instructions and phis all have different ids. */
  ghost predicate UniqueIds(body: Code) {
    && (forall b, k, b', k', v :: InstDef(body, b, k, v) && InstDef(body, b', k', v) ==> b == b' && k == k')
    && (forall b, k, b', v :: InstDef(body, b, k, v) ==> !PhiDef(body, b', v))
    && (forall b, b', v :: PhiDef(body, b, v) && PhiDef(body, b', v) ==> b == b')
    && (forall b, q, q' :: 0 <= b < |body| && 0 <= q < q' < |body[b].phis| ==>
          body[b].phis[q].id != body[b].phis[q'].id)
  }

  lemma DefinedOnce(body: Code, b: Block, m: nat, v: Value)
    requires UniqueIds(body) && InstDef(body, b, m, v)
    ensures DefinedAt(body, v, b, m, false)
  {}

  predicate HasSource(ins: seq<PhiInput>, u: Block) {
    exists k :: 0 <= k < |ins| && ins[k].source == u
  }

  /** Every phi has an input for every edge into its block. */
  ghost predicate PhisComplete(g: Graph, body: Code) {
    && |body| == |g| > 0
    && forall b: nat, s: nat, q :: Edge(g, b, s) && s < |body| && 0 <= q < |body[s].phis| ==>
         HasSource(body[s].phis[q].inputs, b)
  }

  /** Every use of `v` is dominated by its definition. */
  ghost predicate UsesDominated(g: Graph, body: Code, v: Value, d: Block, m: nat, isPhi: bool) {
    && (forall b, k :: InstUse(body, b, k, v) ==>
          Dominates(g, d, b) && (b == d && !isPhi ==> m < k))
    && (forall b, s {:trigger PhiUse(body, b, s, v)} ::
          Edge(g, b, s) && PhiUse(body, b, s, v) ==> Dominates(g, d, b))
  }

  /** Strict SSA: every used value has one definition, and it dominates all uses. */
  ghost predicate StrictSsa(g: Graph, body: Code) {
    && |body| == |g|
    && forall v :: Used(g, body, v) ==>
         exists d, m, isPhi :: DefinedAt(body, v, d, m, isPhi) && UsesDominated(g, body, v, d, m, isPhi)
  }

  ghost predicate Used(g: Graph, body: Code, v: Value) {
    || (exists b, k :: InstUse(body, b, k, v))
    || (exists b, s :: Edge(g, b, s) && PhiUse(body, b, s, v))
  }

  lemma {:induction false} LiveIsUsed(g: Graph, body: Code, v: Value, p: seq<Block>, j: nat)
    requires LivePath(g, body, v, p, j)
    ensures Used(g, body, v)
    decreases |p|
  {
    if |p| == 1 {
      if NoDefFrom(body, p[0], j, v) && exists s :: s in g[p[0]] && PhiUse(body, p[0], s, v) {
        var s :| s in g[p[0]] && PhiUse(body, p[0], s, v);
        assert Edge(g, p[0], s);
      }
    } else {
      LiveIsUsed(g, body, v, p[1..], 0);
    }
  }

  /** A value is live only where its definition dominates; within the defining block, only after
      the defining instruction. */
  lemma {:induction false} LiveIsDominated(g: Graph, body: Code, v: Value, p: seq<Block>, j: nat,
                                           d: Block, m: nat, isPhi: bool)
    requires Valid(g) && LivePath(g, body, v, p, j)
    requires DefinedAt(body, v, d, m, isPhi) && UsesDominated(g, body, v, d, m, isPhi)
    ensures Dominates(g, d, p[0]) && (d == p[0] && !isPhi ==> m < j)
    decreases |p|
  {
    if |p| == 1 {
      if NoDefFrom(body, p[0], j, v) && exists s :: s in g[p[0]] && PhiUse(body, p[0], s, v) {
        var s :| s in g[p[0]] && PhiUse(body, p[0], s, v);
        assert Edge(g, p[0], s);
      }
    } else {
      LiveIsDominated(g, body, v, p[1..], 0, d, m, isPhi);
      assert d != p[1];
      forall q | PathFromTo(g, q, START, p[0]) ensures d in q {
        PathExtend(g, q, p[1]);
        assert d in q + [p[1]];
      }
    }
  }

  lemma LiveInput(g: Graph, body: Code, b: Block, k: nat, v: Value)
    requires b < |g| == |body| && InstUse(body, b, k, v)
    ensures LiveAt(g, body, v, b, k)
  {
    assert UseFrom(body, b, k, v);
    assert LivePath(g, body, v, [b], k);
  }

  /** What is live after an instruction that does not define it was live before. */
  lemma LiveBefore(g: Graph, body: Code, b: Block, k: nat, v: Value)
    requires LiveAt(g, body, v, b, k + 1) && !InstDef(body, b, k, v)
    ensures LiveAt(g, body, v, b, k)
  {
    var p :| LivePath(g, body, v, p, k + 1) && p[0] == b;
    if NoDefFrom(body, b, k + 1, v) {
      forall m | k <= m ensures !InstDef(body, b, m, v) {
        if m > k {}
      }
    }
    if UseFrom(body, b, k + 1, v) {
      var q :| k + 1 <= q && InstUse(body, b, q, v) && forall m :: k + 1 <= m < q ==> !InstDef(body, b, m, v);
      assert forall m :: k <= m < q ==> m == k || !InstDef(body, b, m, v);
    }
    assert LivePath(g, body, v, p, k);
  }

  /** What is live into a successor and is not one of its phis is live out of the block. */
  lemma LiveAcross(g: Graph, body: Code, b: Block, s: Block, v: Value)
    requires b < |g| == |body| && Edge(g, b, s) && LiveAt(g, body, v, s, 0) && !PhiDef(body, s, v)
    ensures LiveAt(g, body, v, b, |body[b].insts|)
  {
    var p :| LivePath(g, body, v, p, 0) && p[0] == s;
    assert ([b] + p)[1..] == p;
    assert LivePath(g, body, v, [b] + p, |body[b].insts|);
  }

  lemma LivePhiInput(g: Graph, body: Code, b: Block, s: Block, v: Value)
    requires b < |g| == |body| && Edge(g, b, s) && PhiUse(body, b, s, v)
    ensures LiveAt(g, body, v, b, |body[b].insts|)
  {
    assert NoDefFrom(body, b, |body[b].insts|, v);
    assert LivePath(g, body, v, [b], |body[b].insts|);
  }

  /** A phi is live along a path that does not come back to its block and ends at a use. */
  lemma {:induction false} PhiLivePath(g: Graph, body: Code, v: Value, s: Block, p: seq<Block>)
    requires Valid(g) && |body| == |g| && UniqueIds(body) && PhiDef(body, s, v)
    requires IsPath(g, p) && s !in p[1..]
    requires LivePath(g, body, v, [p[|p| - 1]], 0)
    ensures LivePath(g, body, v, p, 0)
    decreases |p|
  {
    if |p| == 1 {
      assert p == [p[|p| - 1]];
    } else {
      PathSlice(g, p, 1, |p|);
      assert p[1..|p|] == p[1..];
      assert p[1] in p[1..] && EdgeAt(g, p, 0);
      assert NoDefFrom(body, p[0], 0, v);
      PhiLivePath(g, body, v, s, p[1..]);
    }
  }

  lemma LastVisit(p: seq<Block>, s: Block) returns (k: nat)
    requires s in p
    ensures k < |p| && p[k] == s && s !in p[k + 1..]
  {
    k := |p| - 1;
    while p[k] != s
      invariant k < |p| && s !in p[k + 1..] && s in p[..k + 1]
      decreases k
    {
      assert p[..k + 1] == p[..k] + [p[k]];
      k := k - 1;
    }
  }

  /** A phi that is used somewhere is live at the start of its block. */
  lemma UsedPhiLive(g: Graph, body: Code, s: Block, v: Value)
    requires Valid(g) && StrictSsa(g, body) && UniqueIds(body) && PhiDef(body, s, v) && Used(g, body, v)
    requires forall b :: 0 <= b < |g| ==> Reachable(g, b)
    ensures LiveAt(g, body, v, s, 0)
  {
    var u := PhiUseSite(g, body, s, v);
    assert Reachable(g, u);
    var p :| PathFromTo(g, p, START, u);
    var k := LastVisit(p, s);
    PathSlice(g, p, k, |p|);
    assert p[k..|p|][1..] == p[k + 1..];
    PhiLivePath(g, body, v, s, p[k..|p|]);
  }

  lemma PhiUseSite(g: Graph, body: Code, s: Block, v: Value) returns (u: Block)
    requires StrictSsa(g, body) && UniqueIds(body) && PhiDef(body, s, v) && Used(g, body, v)
    ensures u < |g| && Dominates(g, s, u) && LivePath(g, body, v, [u], 0)
  {
    var d, m, isPhi :| DefinedAt(body, v, d, m, isPhi) && UsesDominated(g, body, v, d, m, isPhi);
    assert d == s;
    if b, k :| InstUse(body, b, k, v) {
      u := b;
      assert UseFrom(body, b, 0, v);
    } else {
      var b, q :| Edge(g, b, q) && PhiUse(body, b, q, v);
      u := b;
      assert NoDefFrom(body, b, 0, v);
    }
  }
}
