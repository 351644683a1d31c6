/** The mutable control-flow graph (ir/graph.cpp, ir/bb.cpp): ordered successor slots, predecessor
    lists that mirror them, and what ends each block. */
module FlowGraph {
  import opened Cfg
  import opened Coverage

  const FALLTHROUGH: nat := 0
  const BRANCH_TRUE: nat := 1

  datatype Cond = EQ | NEQ | LEQ | GEQ | L | G

  predicate Holds(c: Cond, x: int, y: int) {
    match c
    case EQ => x == y
    case NEQ => x != y
    case LEQ => x <= y
    case GEQ => x >= y
    case L => x < y
    case G => x > y
  }

  /** `Conditional::Invert`. */
  function Invert(c: Cond): (r: Cond)
    ensures forall x, y :: Holds(r, x, y) <==> !Holds(c, x, y)
  {
    match c
    case EQ => NEQ
    case NEQ => EQ
    case LEQ => G
    case GEQ => L
    case L => GEQ
    case G => LEQ
  }

  /** The last instruction of a block, as far as control flow is concerned. */
  datatype Last = Plain | Jump | If(cond: Cond) | Return

  datatype Flow = Flow(succs: Graph, preds: seq<seq<Block>>, last: seq<Last>)

  function NumSuccessors(l: Last): nat {
    match l
    case Plain => 1
    case Jump => 1
    case If(_) => 2
    case Return => 0
  }

  /** Predecessor and successor lists mirror each other, without duplicates, and every block has the
      successors that its last instruction calls for. */
  ghost predicate Symmetric(e: Flow) {
    && |e.succs| == |e.preds| == |e.last| > 0
    && (forall b :: 0 <= b < |e.succs| ==> InRange(e.succs, e.succs[b]) && NoRepeats(e.succs[b]))
    && (forall b :: 0 <= b < |e.preds| ==> InRange(e.succs, e.preds[b]) && NoRepeats(e.preds[b]))
    && (forall u, v :: 0 <= u < |e.succs| && 0 <= v < |e.preds| ==> (v in e.succs[u] <==> u in e.preds[v]))
    && (forall b :: 0 <= b < |e.succs| ==> |e.succs[b]| == NumSuccessors(e.last[b]))
  }

  /** The first occurrence of `old_` becomes `new_`. */
  function Replace(s: seq<Block>, old_: Block, new_: Block): (r: seq<Block>)
    ensures |r| == |s|
  {
    if s == [] then [] else if s[0] == old_ then [new_] + s[1..] else [s[0]] + Replace(s[1..], old_, new_)
  }

  function Remove(s: seq<Block>, x: Block): (r: seq<Block>)
    ensures forall y :: y in r <==> y in s && y != x
  {
    if s == [] then [] else if s[0] == x then Remove(s[1..], x) else [s[0]] + Remove(s[1..], x)
  }

  lemma {:induction false} ReplaceAt(s: seq<Block>, old_: Block, new_: Block)
    requires NoRepeats(s)
    ensures forall i :: 0 <= i < |s| ==> Replace(s, old_, new_)[i] == if s[i] == old_ then new_ else s[i]
    decreases |s|
  {
    if s != [] {
      forall i | 0 <= i < |s| - 1 ensures s[1..][i] == s[i + 1] {}
      ReplaceAt(s[1..], old_, new_);
    }
  }

  lemma {:induction false} RemoveDistinct(s: seq<Block>, x: Block)
    requires NoRepeats(s)
    ensures NoRepeats(Remove(s, x))
    decreases |s|
  {
    if s != [] {
      forall i | 0 <= i < |s| - 1 ensures s[1..][i] == s[i + 1] {}
      RemoveDistinct(s[1..], x);
      if s[0] != x {
        var r := Remove(s[1..], x);
        forall i | 0 <= i < |r| ensures r[i] != s[0] {
          assert r[i] in r;
          var k :| 0 <= k < |s[1..]| && s[1..][k] == r[i];
          assert s[k + 1] == r[i];
        }
      }
    }
  }

  lemma {:induction false} RemoveSnoc(s: seq<Block>, x: Block, y: Block)
    ensures Remove(s + [y], x) == Remove(s, x) + if y == x then [] else [y]
    decreases |s|
  {
    if s == [] {
      assert [] + [y] == [y];
    } else {
      assert (s + [y])[1..] == s[1..] + [y];
      RemoveSnoc(s[1..], x, y);
    }
  }

  lemma ReplaceMembers(s: seq<Block>, old_: Block, new_: Block)
    requires NoRepeats(s) && new_ !in s
    ensures NoRepeats(Replace(s, old_, new_))
    ensures forall x :: x in Replace(s, old_, new_) <==> (x in s && x != old_) || (x == new_ && old_ in s)
  {
    ReplaceAt(s, old_, new_);
    var r := Replace(s, old_, new_);
    forall x | x in s && x != old_ ensures x in r {
      var i :| 0 <= i < |s| && s[i] == x;
      assert r[i] == x;
    }
    if old_ in s {
      var i :| 0 <= i < |s| && s[i] == old_;
      assert r[i] == new_;
    }
    forall i, j | 0 <= i < j < |r| ensures r[i] != r[j] {
      assert s[i] != s[j] && s[i] in s && s[j] in s;
    }
  }

  // ---- The edge operations -----------------------------------------------------------------------

  /** A new block without edges; it ends in a jump or in nothing. */
  function WithBlock(e: Flow, l: Last): Flow {
    Flow(e.succs + [[]], e.preds + [[]], e.last + [l])
  }

  /** `InsertBasicBlock` of the new block `n` on the edge from `u` to `v`. */
  function Inserted(e: Flow, n: Block, u: Block, v: Block): Flow
    requires n < |e.succs| && u < |e.succs| && v < |e.preds| && |e.succs| == |e.preds|
  {
    var succs := e.succs[u := Replace(e.succs[u], v, n)];
    var preds := e.preds[n := e.preds[n] + [u]];
    Flow(succs[n := [v]], preds[v := Replace(preds[v], u, n)], e.last)
  }

  /** `SwapTwoSuccessors` and `Conditional::Invert`. */
  function Inverted(e: Flow, b: Block): Flow
    requires b < |e.succs| == |e.last| && |e.succs[b]| == 2 && e.last[b].If?
  {
    e.(succs := e.succs[b := [e.succs[b][BRANCH_TRUE], e.succs[b][FALLTHROUGH]]],
       last := e.last[b := If(Invert(e.last[b].cond))])
  }

  lemma InvertedSymmetric(e: Flow, b: Block)
    requires Symmetric(e) && b < |e.succs| && e.last[b].If?
    ensures Symmetric(Inverted(e, b))
  {
    var s := e.succs[b];
    var r := [s[1], s[0]];
    assert s == [s[0], s[1]];
    assert forall x :: x in r <==> x in s;
  }

  /** Splitting an edge keeps the lists symmetric. */
  lemma InsertedSymmetric(e: Flow, l: Last, u: Block, v: Block)
    requires Symmetric(e) && NumSuccessors(l) == 1 && u < |e.succs| && v in e.succs[u]
    ensures var n := |e.succs|;
      && Symmetric(Inserted(WithBlock(e, l), n, u, v))
      && Inserted(WithBlock(e, l), n, u, v).succs == e.succs[u := Replace(e.succs[u], v, n)] + [[v]]
  {
    var n := |e.succs|;
    var e1 := WithBlock(e, l);
    var r := Inserted(e1, n, u, v);
    assert v < n;
    assert r.succs == e.succs[u := Replace(e.succs[u], v, n)] + [[v]];
    assert e1.preds[n] + [u] == [u];
    assert r.preds == e.preds[v := Replace(e.preds[v], u, n)] + [[u]];
    assert n !in e.succs[u] && n !in e.preds[v] by {
      assert InRange(e.succs, e.succs[u]) && InRange(e.succs, e.preds[v]);
    }
    ReplaceMembers(e.succs[u], v, n);
    ReplaceMembers(e.preds[v], u, n);
    InsertedRanges(e, r, n, u, v);
    InsertedMirror(e, r, n, u, v);
  }

  ghost predicate SplitShape(e: Flow, r: Flow, n: Block, u: Block, v: Block) {
    && Symmetric(e) && n == |e.succs| && u < n && v < n && v in e.succs[u]
    && |r.succs| == |r.preds| == n + 1
    && (forall b :: 0 <= b < n && b != u ==> r.succs[b] == e.succs[b])
    && (forall b :: 0 <= b < n && b != v ==> r.preds[b] == e.preds[b])
    && r.succs[n] == [v] && r.preds[n] == [u]
    && (forall x :: x in r.succs[u] <==> (x in e.succs[u] && x != v) || x == n)
    && (forall x :: x in r.preds[v] <==> (x in e.preds[v] && x != u) || x == n)
  }

  lemma InsertedRanges(e: Flow, r: Flow, n: Block, u: Block, v: Block)
    requires SplitShape(e, r, n, u, v)
    ensures forall b :: 0 <= b < |r.succs| ==> InRange(r.succs, r.succs[b]) && InRange(r.succs, r.preds[b])
  {
    forall b | 0 <= b < |r.succs| ensures InRange(r.succs, r.succs[b]) && InRange(r.succs, r.preds[b]) {
      if b < n {
        assert InRange(e.succs, e.succs[b]) && InRange(e.succs, e.preds[b]);
        forall i | 0 <= i < |r.succs[b]| ensures r.succs[b][i] <= n {
          assert r.succs[b][i] in r.succs[b];
        }
        forall i | 0 <= i < |r.preds[b]| ensures r.preds[b][i] <= n {
          assert r.preds[b][i] in r.preds[b];
        }
      }
    }
  }

  lemma InsertedMirror(e: Flow, r: Flow, n: Block, u: Block, v: Block)
    requires SplitShape(e, r, n, u, v)
    ensures forall a, b :: 0 <= a < |r.succs| && 0 <= b < |r.preds| ==> (b in r.succs[a] <==> a in r.preds[b])
  {
    forall a, b | 0 <= a < |r.succs| && 0 <= b < |r.preds| ensures b in r.succs[a] <==> a in r.preds[b] {
      assert a < n && b < n ==> (b in e.succs[a] <==> a in e.preds[b]);
      assert a < n ==> n !in e.succs[a] by { assert a < n ==> InRange(e.succs, e.succs[a]); }
      assert b < n ==> n !in e.preds[b] by { assert b < n ==> InRange(e.succs, e.preds[b]); }
    }
  }

  /** A block that ends in a plain instruction gets a jump. */
  function Jumped(e: Flow, b: Block): Flow
    requires b < |e.last|
  {
    e.(last := e.last[b := Jump])
  }

  lemma JumpedSymmetric(e: Flow, b: Block)
    requires Symmetric(e) && b < |e.succs| && NumSuccessors(e.last[b]) == 1
    ensures Symmetric(Jumped(e, b))
  {}

  // ---- Redirecting edges ---------------------------------------------------------------------------

  /** `Graph::ReplaceSuccessor`: the edge from `u` to `v` goes to `w` instead. */
  function Redirect(e: Flow, u: Block, v: Block, w: Block): (r: Flow)
    requires u < |e.succs| == |e.preds| && v < |e.preds| && w < |e.preds|
    ensures |r.succs| == |r.preds| == |e.succs|
  {
    var preds := e.preds[v := Remove(e.preds[v], u)];
    Flow(e.succs[u := Replace(e.succs[u], v, w)], preds[w := preds[w] + [u]], e.last)
  }

  function RedirectAll(e: Flow, us: seq<Block>, v: Block, w: Block): (r: Flow)
    requires |e.succs| == |e.preds| && v < |e.preds| && w < |e.preds| && InRange(e.succs, us)
    ensures |r.succs| == |r.preds| == |e.succs|
    decreases |us|
  {
    if us == [] then e else Redirect(RedirectAll(e, us[..|us| - 1], v, w), us[|us| - 1], v, w)
  }

  /** `AddEdge` from a block without successors. */
  function Linked(e: Flow, u: Block, v: Block): Flow
    requires u < |e.succs| && v < |e.preds|
  {
    Flow(e.succs[u := [v]], e.preds[v := e.preds[v] + [u]], e.last)
  }

  /** What redirecting the edges from `us` does to every list. */
  ghost predicate RedirectedLists(e: Flow, r: Flow, us: seq<Block>, v: Block, w: Block) {
    && |r.succs| == |r.preds| == |e.succs| == |e.preds| && v < |e.preds| && w < |e.preds| && r.last == e.last
    && (forall b :: 0 <= b < |e.succs| ==> r.succs[b] == if b in us then Replace(e.succs[b], v, w) else e.succs[b])
    && (forall b :: 0 <= b < |e.preds| && b != v && b != w ==> r.preds[b] == e.preds[b])
    && r.preds[w] == e.preds[w] + us
    && (forall x :: x in r.preds[v] <==> x in e.preds[v] && x !in us)
    && (NoRepeats(e.preds[v]) ==> NoRepeats(r.preds[v]))
  }

  lemma {:induction false} RedirectAllLists(e: Flow, us: seq<Block>, v: Block, w: Block)
    requires |e.succs| == |e.preds| && v < |e.preds| && w < |e.preds| && v != w
    requires InRange(e.succs, us) && NoRepeats(us)
    ensures RedirectedLists(e, RedirectAll(e, us, v, w), us, v, w)
    decreases |us|
  {
    if us == [] {
      assert e.preds[w] + us == e.preds[w];
    } else {
      var front, u := us[..|us| - 1], us[|us| - 1];
      assert us == front + [u] && u !in front;
      RedirectAllLists(e, front, v, w);
      RedirectMore(e, RedirectAll(e, front, v, w), front, u, v, w);
    }
  }

  lemma RedirectMore(e: Flow, m: Flow, front: seq<Block>, u: Block, v: Block, w: Block)
    requires RedirectedLists(e, m, front, v, w) && v != w && u < |e.succs| && u !in front
    ensures RedirectedLists(e, Redirect(m, u, v, w), front + [u], v, w)
  {
    assert m.preds[w] + [u] == e.preds[w] + (front + [u]);
    if NoRepeats(m.preds[v]) {
      RemoveDistinct(m.preds[v], u);
    }
  }

  /** All of `us` have an edge to `v`, and nothing leads to `w` yet. */
  ghost predicate Redirectable(e: Flow, us: seq<Block>, v: Block, w: Block) {
    && |e.succs| == |e.preds| && v < |e.preds| && w < |e.preds| && v != w && e.preds[w] == []
    && InRange(e.succs, us) && NoRepeats(us)
    && forall i :: 0 <= i < |us| ==> v in e.succs[us[i]] && us[i] in e.preds[v]
  }

  lemma StartRedirect(e: Flow, us: seq<Block>, v: Block, w: Block)
    requires Redirectable(e, us, v, w)
    ensures InRange(e.succs, us[..0]) && RedirectAll(e, us[..0], v, w) == e
  {}

  lemma NextRedirect(e: Flow, us: seq<Block>, i: nat, v: Block, w: Block)
    requires Redirectable(e, us, v, w) && i < |us|
    ensures us[i] < |e.succs| && InRange(e.succs, us[..i]) && InRange(e.succs, us[..i + 1])
    ensures RedirectAll(e, us[..i + 1], v, w) == Redirect(RedirectAll(e, us[..i], v, w), us[i], v, w)
    ensures var m := RedirectAll(e, us[..i], v, w);
      v in m.succs[us[i]] && us[i] in m.preds[v] && us[i] !in m.preds[w]
  {
    assert us[..i + 1][..i] == us[..i];
    assert us[i] !in us[..i];
    RedirectAllLists(e, us[..i], v, w);
  }

  lemma ReplaceStep(s: seq<Block>, i: nat, old_: Block, new_: Block)
    requires i < |s| && old_ !in s[..i]
    ensures s[i] == old_ ==> Replace(s, old_, new_) == s[i := new_]
    ensures Replace(s, old_, new_) == s[..i] + Replace(s[i..], old_, new_)
    decreases i
  {
    if i > 0 {
      assert s[..i][0] == s[0] && s[1..][..i - 1] == s[..i][1..] && s[1..][i - 1..] == s[i..];
      ReplaceStep(s[1..], i - 1, old_, new_);
      assert s[1..][i - 1] == s[i];
      assert s == [s[0]] + s[1..];
      assert [s[0]] + s[1..][i - 1 := new_] == s[i := new_];
      assert [s[0]] + s[1..][..i - 1] == s[..i];
    } else {
      assert s[0..] == s && s[..0] == [];
      assert [new_] + s[1..] == s[0 := new_];
    }
  }

  /** The graph object.  `Graph::NewBasicBlock` hands out the next id. */
  class CfgGraph {
    var succs: Graph
    var preds: seq<seq<Block>>
    var last: seq<Last>

    constructor (e: Flow)
      ensures Abs() == e
    {
      succs, preds, last := e.succs, e.preds, e.last;
    }

    ghost function Abs(): Flow
      reads this
    {
      Flow(succs, preds, last)
    }

    method NewBasicBlock(l: Last) returns (n: Block)
      modifies this
      ensures Abs() == WithBlock(old(Abs()), l) && n == |old(succs)|
    {
      n := |succs|;
      succs, preds, last := succs + [[]], preds + [[]], last + [l];
    }

    /** `BasicBlock::ReplaceSuccessor`: the first slot that holds `old_`. */
    method ReplaceSuccessor(b: Block, old_: Block, new_: Block)
      requires b < |succs| && old_ in succs[b]
      modifies this`succs
      ensures succs == old(succs)[b := Replace(old(succs)[b], old_, new_)]
    {
      var i := 0;
      while succs[b][i] != old_
        invariant 0 <= i < |succs[b]| && succs == old(succs) && old_ !in succs[b][..i]
        decreases |succs[b]| - i
      {
        i := i + 1;
      }
      ReplaceStep(succs[b], i, old_, new_);
      var slots: seq<Block> := succs[b][i := new_];
      succs := succs[b := slots];
    }

    method ReplacePredecessor(b: Block, old_: Block, new_: Block)
      requires b < |preds| && old_ in preds[b]
      modifies this`preds
      ensures preds == old(preds)[b := Replace(old(preds)[b], old_, new_)]
    {
      var i := 0;
      while preds[b][i] != old_
        invariant 0 <= i < |preds[b]| && preds == old(preds) && old_ !in preds[b][..i]
        decreases |preds[b]| - i
      {
        i := i + 1;
      }
      ReplaceStep(preds[b], i, old_, new_);
      var slots: seq<Block> := preds[b][i := new_];
      preds := preds[b := slots];
    }

    method AddPredecessor(b: Block, p: Block)
      requires b < |preds| && p !in preds[b]
      modifies this`preds
      ensures preds == old(preds)[b := old(preds)[b] + [p]]
    {
      preds := preds[b := preds[b] + [p]];
    }

    /** Erases every entry of `p`. */
    method RemovePredecessor(b: Block, p: Block)
      requires b < |preds| && p in preds[b]
      modifies this`preds
      ensures preds == old(preds)[b := Remove(old(preds)[b], p)]
    {
      var ps := preds[b];
      var kept: seq<Block> := [];
      for i := 0 to |ps|
        invariant kept == Remove(ps[..i], p) && preds == old(preds)
      {
        assert ps[..i + 1] == ps[..i] + [ps[i]];
        RemoveSnoc(ps[..i], p, ps[i]);
        if ps[i] != p {
          kept := kept + [ps[i]];
        }
      }
      assert ps[..|ps|] == ps;
      preds := preds[b := kept];
    }

    /** `Graph::ReplaceSuccessor`. */
    method RedirectEdge(u: Block, v: Block, w: Block)
      requires u < |succs| == |preds| && v < |preds| && w < |preds| && v != w
      requires v in succs[u] && u in preds[v] && u !in preds[w]
      modifies this
      ensures Abs() == Redirect(old(Abs()), u, v, w)
    {
      ReplaceSuccessor(u, v, w);
      RemovePredecessor(v, u);
      AddPredecessor(w, u);
    }

    method AddEdge(u: Block, v: Block)
      requires u < |succs| && v < |preds| && succs[u] == [] && u !in preds[v]
      modifies this
      ensures Abs() == Linked(old(Abs()), u, v)
    {
      succs := succs[u := [v]];
      AddPredecessor(v, u);
    }

    /** Redirects the edges from all of `us`. */
    method RedirectEdges(us: seq<Block>, v: Block, w: Block)
      requires Redirectable(Abs(), us, v, w)
      modifies this
      ensures InRange(old(succs), us) && |old(succs)| == |old(preds)| && v < |old(preds)| && w < |old(preds)|
      ensures Abs() == RedirectAll(old(Abs()), us, v, w)
    {
      ghost var e := Abs();
      assert us[..|us|] == us;
      hide Redirect, RedirectAll, Replace, Remove, NoRepeats;
      StartRedirect(e, us, v, w);
      for i := 0 to |us|
        invariant |succs| == |preds| == |e.succs| && InRange(e.succs, us[..i])
        invariant Abs() == RedirectAll(e, us[..i], v, w)
      {
        NextRedirect(e, us, i, v, w);
        RedirectEdge(us[i], v, w);
      }
    }

    /** The new block `n` comes in front of `v`: it takes over all edges to `v`. */
    method InsertBasicBlockBefore(n: Block, v: Block)
      requires v < |preds| && Redirectable(Abs(), preds[v], v, n) && succs[n] == [] && n !in preds[v] && preds[v] != []
      modifies this
      ensures InRange(old(succs), old(preds[v])) && |old(succs)| == |old(preds)| && n < |old(preds)|
      ensures Abs() == Linked(RedirectAll(old(Abs()), old(preds[v]), v, n), n, v)
    {
      RedirectAllLists(Abs(), preds[v], v, n);
      RedirectEdges(preds[v], v, n);
      AddEdge(n, v);
    }

    /** Puts the new block `n` on the edge from `u` to `v`. */
    method InsertBasicBlock(n: Block, u: Block, v: Block)
      requires n < |succs| == |preds| == |last| && u < n && v < n && v in succs[u] && u in preds[v] && u !in preds[n]
      modifies this
      ensures Abs() == Inserted(old(Abs()), n, u, v)
    {
      ReplaceSuccessor(u, v, n);
      AddPredecessor(n, u);
      ReplacePredecessor(v, u, n);
      succs := succs[n := [v]];
    }

    /** `InvertCondition`: the condition is negated and the successors are swapped. */
    method InvertCondition(b: Block)
      requires b < |succs| == |last| && |succs[b]| == 2 && last[b].If?
      modifies this
      ensures Abs() == Inverted(old(Abs()), b)
    {
      last := last[b := If(Invert(last[b].cond))];
      SwapTwoSuccessors(b);
    }

    method SwapTwoSuccessors(b: Block)
      requires b < |succs| && |succs[b]| == 2
      modifies this`succs
      ensures succs == old(succs)[b := [old(succs)[b][BRANCH_TRUE], old(succs)[b][FALLTHROUGH]]]
    {
      var fallthrough, branch := succs[b][FALLTHROUGH], succs[b][BRANCH_TRUE];
      succs := succs[b := [branch, fallthrough]];
    }
  }
}
