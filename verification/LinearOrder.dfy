/** From the graph to a layout (pass/linear_order.cpp): fallthrough to the next block where possible,
    inverted conditions, appended jumps and inserted jump blocks. */
module LinearOrder {
  import opened Cfg
  import opened Coverage
  import opened FlowGraph
  import opened Traversal
  import opened Orders

  /** The successor that control goes to when the operands of the branch are `x` and `y`. */
  function Next(e: Flow, b: Block, x: int, y: int): int
    requires b < |e.succs| == |e.last| && |e.succs[b]| == NumSuccessors(e.last[b])
  {
    match e.last[b]
    case Return => NULL
    case If(c) => if Holds(c, x, y) then e.succs[b][BRANCH_TRUE] else e.succs[b][FALLTHROUGH]
    case _ => e.succs[b][FALLTHROUGH]
  }

  /** Jump blocks, those numbered from `n0` on, lead to one original block. */
  ghost predicate JumpBlocks(e: Flow, n0: nat) {
    forall n :: n0 <= n < |e.succs| ==> n < |e.last| && e.last[n] == Jump && |e.succs[n]| == 1 && e.succs[n][0] < n0
  }

  ghost function Through(e: Flow, n0: nat, s: int): int
    requires JumpBlocks(e, n0) && s < |e.succs|
  {
    if s >= n0 then e.succs[s][0] else s
  }

  lemma NextInRange(e: Flow, b: Block, x: int, y: int)
    requires Symmetric(e) && b < |e.succs|
    ensures Next(e, b, x, y) == NULL || (0 <= Next(e, b, x, y) < |e.succs| && Next(e, b, x, y) in e.succs[b])
  {
    assert InRange(e.succs, e.succs[b]);
  }

  /** Block `b` of `e` leads, through jump blocks, where it leads in `e0`. */
  ghost predicate SameControl(e0: Flow, e: Flow, b: Block)
    requires Symmetric(e0) && Symmetric(e) && |e0.succs| <= |e.succs| && JumpBlocks(e, |e0.succs|)
    requires b < |e0.succs|
  {
    forall x, y ::
      && Next(e, b, x, y) < |e.succs|
      && Through(e, |e0.succs|, Next(e, b, x, y)) == Next(e0, b, x, y)
  }

  ghost predicate Faithful(e0: Flow, e: Flow) {
    && Symmetric(e0) && Symmetric(e) && |e0.succs| <= |e.succs| && JumpBlocks(e, |e0.succs|)
    && forall b :: 0 <= b < |e0.succs| ==> SameControl(e0, e, b)
  }

  // ---- The three rewrites ------------------------------------------------------------------------

  lemma SelfFaithful(e: Flow)
    requires Symmetric(e)
    ensures Faithful(e, e)
  {
    forall b | 0 <= b < |e.succs| ensures SameControl(e, e, b) {
      forall x, y ensures Next(e, b, x, y) < |e.succs| {
        NextInRange(e, b, x, y);
      }
    }
  }

  lemma JumpedFaithful(e0: Flow, e: Flow, b: Block)
    requires Faithful(e0, e) && b < |e0.succs| && e.last[b] == Plain
    ensures Faithful(e0, Jumped(e, b))
  {
    var r := Jumped(e, b);
    JumpedSymmetric(e, b);
    forall a | 0 <= a < |e0.succs| ensures SameControl(e0, r, a) {
      assert SameControl(e0, e, a);
      forall x, y ensures Next(r, a, x, y) == Next(e, a, x, y) {}
    }
  }

  lemma InvertedFaithful(e0: Flow, e: Flow, b: Block)
    requires Faithful(e0, e) && b < |e0.succs| && e.last[b].If?
    ensures Faithful(e0, Inverted(e, b))
  {
    var r := Inverted(e, b);
    InvertedSymmetric(e, b);
    forall a | 0 <= a < |e0.succs| ensures SameControl(e0, r, a) {
      assert SameControl(e0, e, a);
      forall x, y ensures Next(r, a, x, y) == Next(e, a, x, y) {}
    }
  }

  /** The jump block on the fallthrough edge of `u`. */
  function Detoured(e: Flow, u: Block): Flow
    requires u < |e.succs| == |e.preds| == |e.last| && |e.succs[u]| == 2 && e.succs[u][FALLTHROUGH] < |e.preds|
  {
    Inserted(WithBlock(e, Jump), |e.succs|, u, e.succs[u][FALLTHROUGH])
  }

  lemma DetourShape(e: Flow, u: Block)
    requires Symmetric(e) && u < |e.succs| && e.last[u].If?
    ensures e.succs[u][FALLTHROUGH] < |e.succs|
    ensures var r, n := Detoured(e, u), |e.succs|;
      && Symmetric(r) && r.last == e.last + [Jump]
      && r.succs == e.succs[u := [n, e.succs[u][BRANCH_TRUE]]] + [[e.succs[u][FALLTHROUGH]]]
  {
    var v := e.succs[u][FALLTHROUGH];
    assert InRange(e.succs, e.succs[u]) && v in e.succs[u];
    InsertedSymmetric(e, Jump, u, v);
    assert e.succs[u] == [v, e.succs[u][BRANCH_TRUE]];
    assert e.succs[u][1..] == [e.succs[u][BRANCH_TRUE]];
    assert Replace(e.succs[u], v, |e.succs|) == [|e.succs|] + e.succs[u][1..];
    assert [|e.succs|] + [e.succs[u][BRANCH_TRUE]] == [|e.succs|, e.succs[u][BRANCH_TRUE]];
  }

  lemma DetouredFaithful(e0: Flow, e: Flow, u: Block)
    requires Faithful(e0, e) && u < |e0.succs| && e.last[u].If? && e.succs[u] == e0.succs[u]
    ensures e.succs[u][FALLTHROUGH] < |e.preds| && Faithful(e0, Detoured(e, u))
  {
    DetourShape(e, u);
    assert InRange(e0.succs, e0.succs[u]);
    var r, n0 := Detoured(e, u), |e0.succs|;
    forall n | n0 <= n < |r.succs| ensures r.last[n] == Jump && |r.succs[n]| == 1 && r.succs[n][0] < n0 {}
    assert JumpBlocks(r, n0);
    forall a | 0 <= a < n0 ensures SameControl(e0, r, a) {
      assert SameControl(e0, e, a);
      forall x, y ensures Next(r, a, x, y) < |r.succs| && Through(r, n0, Next(r, a, x, y)) == Next(e0, a, x, y) {
        assert Next(e, a, x, y) < |e.succs|;
        assert Through(e, n0, Next(e, a, x, y)) == Next(e0, a, x, y);
      }
    }
  }

  // ---- The layout --------------------------------------------------------------------------------

  /** The check at the end of the pass: what follows position `i` suits the block there. */
  ghost predicate Good(e: Flow, linear: seq<Block>, i: nat)
    requires i < |linear| && linear[i] < |e.succs| == |e.last|
    requires |e.succs[linear[i]]| == NumSuccessors(e.last[linear[i]])
  {
    var b := linear[i];
    match e.last[b]
    case Return => true
    case Jump => true
    case Plain => i + 1 < |linear| && linear[i + 1] == e.succs[b][FALLTHROUGH]
    case If(_) =>
      i + 1 < |linear| && linear[i + 1] == e.succs[b][FALLTHROUGH] && linear[i + 1] != e.succs[b][BRANCH_TRUE]
  }

  ghost predicate InGraph(e: Flow, linear: seq<Block>) {
    forall i :: 0 <= i < |linear| ==> linear[i] < |e.succs|
  }

  /** Positions before `n` are good. */
  ghost predicate GoodUpTo(e: Flow, linear: seq<Block>, n: nat)
    requires Symmetric(e) && InGraph(e, linear) && n <= |linear|
  {
    forall i :: 0 <= i < n ==> Good(e, linear, i)
  }

  function Originals(linear: seq<Block>, n0: nat): seq<Block> {
    if linear == [] then []
    else
      var x := linear[|linear| - 1];
      Originals(linear[..|linear| - 1], n0) + if x < n0 then [x] else []
  }

  /** The blocks that are not among the first `i` of the order are as they were. */
  ghost predicate Untouched(e0: Flow, e: Flow, order: seq<Block>, i: nat)
    requires Faithful(e0, e) && i <= |order|
  {
    forall b :: 0 <= b < |e0.succs| && b !in order[..i] ==> e.succs[b] == e0.succs[b] && e.last[b] == e0.last[b]
  }

  /** Block `s` comes right after position `j` of the order. */
  predicate Follows(order: seq<Block>, j: nat, s: Block) {
    j + 1 < |order| && order[j + 1] == s
  }

  /** What happens to the block at position `j` of the order, and no more: a jump is appended only if the
      successor is not next, the condition is inverted exactly if the successor that it leads to is next, and
      a jump block is put in only if neither successor is next. */
  ghost predicate Settled(e0: Flow, e: Flow, order: seq<Block>, j: nat)
    requires Symmetric(e0) && Symmetric(e) && |e0.succs| <= |e.succs| && j < |order| && order[j] < |e0.succs|
  {
    var b := order[j];
    match e0.last[b]
    case Return => e.last[b] == Return
    case Jump => e.last[b] == Jump && e.succs[b] == e0.succs[b]
    case Plain =>
      && e.succs[b] == e0.succs[b]
      && e.last[b] == if Follows(order, j, e0.succs[b][FALLTHROUGH]) then Plain else Jump
    case If(c) =>
      var s, t := e0.succs[b][FALLTHROUGH], e0.succs[b][BRANCH_TRUE];
      if Follows(order, j, t) then e.last[b] == If(Invert(c)) && e.succs[b] == [t, s]
      else if Follows(order, j, s) then e.last[b] == If(c) && e.succs[b] == [s, t]
      else
        && e.last[b] == If(c) && |e.succs[b]| == 2 && e.succs[b][BRANCH_TRUE] == t
        && |e0.succs| <= e.succs[b][FALLTHROUGH] < |e.succs| && e.succs[e.succs[b][FALLTHROUGH]] == [s]
  }

  ghost predicate SettledUpTo(e0: Flow, e: Flow, order: seq<Block>, i: nat)
    requires Faithful(e0, e) && i <= |order| && forall j :: 0 <= j < |order| ==> order[j] < |e0.succs|
  {
    forall j :: 0 <= j < i ==> Settled(e0, e, order, j)
  }

  /** The layout holds the first `i` blocks of the order, in that order, and the jump blocks, all once;
      `n0` and `n` are the numbers of original blocks and of all blocks. */
  ghost predicate Members(n0: nat, n: nat, order: seq<Block>, linear: seq<Block>, i: nat) {
    && n0 <= n && i <= |order| && NoRepeats(linear) && NoRepeats(order)
    && (forall j :: 0 <= j < |order| ==> order[j] < n0)
    && (forall x: nat :: x in linear <==> x in order[..i] || n0 <= x < n)
    && Originals(linear, n0) == order[..i]
  }

  /** Jump block `n` follows an original block of the order. */
  ghost predicate Entered(e0: Flow, e: Flow, order: seq<Block>, n: Block) {
    exists b :: b in order && b < |e0.succs| && Edge(e.succs, b, n)
  }

  /** The order holds the successors of its blocks, and jump blocks lead from it into it. */
  ghost predicate Targets(e0: Flow, e: Flow, order: seq<Block>) {
    && (forall b, s :: b in order && b < |e0.succs| && s in e0.succs[b] ==> s in order)
    && (forall n :: |e0.succs| <= n < |e.succs| ==> |e.succs[n]| > 0 && e.succs[n][0] in order)
    && forall n :: |e0.succs| <= n < |e.succs| ==> Entered(e0, e, order, n)
  }

  /** The layout after `i` blocks of the order; the last of them is still to be connected. */
  ghost predicate Laid(e0: Flow, e: Flow, order: seq<Block>, linear: seq<Block>, i: nat) {
    && Faithful(e0, e) && Targets(e0, e, order)
    && Members(|e0.succs|, |e.succs|, order, linear, i) && InGraph(e, linear)
    && (i == 0 <==> linear == []) && (i > 0 ==> linear[|linear| - 1] == order[i - 1])
    && GoodUpTo(e, linear, if i == 0 then 0 else |linear| - 1)
    && Untouched(e0, e, order, if i == 0 then 0 else i - 1)
    && SettledUpTo(e0, e, order, if i == 0 then 0 else i - 1)
  }

  /** `r` extends `e` by the blocks `extra` and differs from it in block `u` only. */
  ghost predicate OnlyChanged(e: Flow, r: Flow, u: Block, extra: seq<Block>)
    requires Symmetric(e) && Symmetric(r)
  {
    && (extra == [] || extra == [|e.succs|]) && |r.succs| == |e.succs| + |extra|
    && forall b :: 0 <= b < |e.succs| && b != u ==> r.succs[b] == e.succs[b] && r.last[b] == e.last[b]
  }

  lemma GoodKept(e: Flow, r: Flow, u: Block, linear: seq<Block>, extra: seq<Block>, more: seq<Block>)
    requires Symmetric(e) && Symmetric(r) && OnlyChanged(e, r, u, extra) && NoRepeats(linear) && linear != []
    requires InGraph(e, linear) && InGraph(r, linear + more) && linear[|linear| - 1] == u
    requires GoodUpTo(e, linear, |linear| - 1)
    ensures GoodUpTo(r, linear + more, |linear| - 1)
  {
    var l := linear + more;
    forall i | 0 <= i < |linear| - 1 ensures Good(r, l, i) {
      assert Good(e, linear, i) && l[i] == linear[i] && l[i + 1] == linear[i + 1] && linear[i] != u;
    }
  }

  lemma {:induction false} OriginalsConcat(a: seq<Block>, b: seq<Block>, n0: nat)
    ensures Originals(a + b, n0) == Originals(a, n0) + Originals(b, n0)
    decreases |b|
  {
    if b == [] {
      assert a + b == a;
      assert Originals(a, n0) + [] == Originals(a, n0);
    } else {
      assert (a + b)[..|a + b| - 1] == a + b[..|b| - 1];
      OriginalsConcat(a, b[..|b| - 1], n0);
    }
  }

  lemma OriginalsShort(n: nat, bb: Block, n0: nat)
    requires bb < n0 <= n
    ensures Originals([], n0) == [] && Originals([bb], n0) == [bb] && Originals([n], n0) == []
    ensures Originals([n] + [bb], n0) == [bb]
  {
    assert Originals([n] + [bb], n0) == Originals([n], n0) + Originals([bb], n0) by {
      OriginalsConcat([n], [bb], n0);
    }
  }

  lemma MembersGrow(n0: nat, n: nat, order: seq<Block>, linear: seq<Block>, extra: seq<Block>, i: nat)
    requires Members(n0, n, order, linear, i) && i < |order| && (extra == [] || extra == [n])
    ensures Members(n0, n + |extra|, order, linear + extra + [order[i]], i + 1)
  {
    var l := linear + extra + [order[i]];
    var bb := order[i];
    assert order[..i + 1] == order[..i] + [bb];
    forall x | x in order[..i] ensures x != bb && x < n0 {}
    assert bb !in linear && n !in linear;
    OriginalsGrow(n0, n, order, linear, extra, i);
    hide Originals;
    assert forall x: nat :: x in l <==> x in linear || x in extra || x == bb;
    DistinctGrow(linear, extra, bb);
  }

  lemma DistinctGrow(linear: seq<Block>, extra: seq<Block>, bb: Block)
    requires NoRepeats(linear) && |extra| <= 1 && bb !in linear && bb !in extra
    requires forall x :: x in extra ==> x !in linear
    ensures NoRepeats(linear + extra) && NoRepeats(linear + extra + [bb])
  {
    var r := linear + extra + [bb];
    forall i, j | 0 <= i < j < |r| ensures r[i] != r[j] {
      assert i < |linear| ==> r[i] in linear;
      assert |linear| <= j < |linear| + |extra| ==> r[j] in extra;
      assert |linear| <= i < |linear| + |extra| ==> r[i] in extra;
    }
    assert forall i :: 0 <= i < |linear + extra| ==> (linear + extra)[i] == r[i];
  }

  lemma OriginalsGrow(n0: nat, n: nat, order: seq<Block>, linear: seq<Block>, extra: seq<Block>, i: nat)
    requires n0 <= n && i < |order| && order[i] < n0 && (extra == [] || extra == [n])
    requires Originals(linear, n0) == order[..i]
    ensures Originals(linear + extra + [order[i]], n0) == order[..i + 1]
    ensures Originals(linear + extra, n0) == order[..i]
  {
    assert order[..i + 1] == order[..i] + [order[i]];
    OriginalsShort(n, order[i], n0);
    OriginalsConcat(linear + extra, [order[i]], n0);
    OriginalsConcat(linear, extra, n0);
    assert order[..i] + [] == order[..i];
  }

  lemma UntouchedRest(e0: Flow, e: Flow, r: Flow, order: seq<Block>, extra: seq<Block>, i: nat)
    requires Faithful(e0, e) && Faithful(e0, r) && 0 < i <= |order|
    requires Untouched(e0, e, order, i - 1) && OnlyChanged(e, r, order[i - 1], extra)
    ensures Untouched(e0, r, order, i)
  {
    assert order[..i] == order[..i - 1] + [order[i - 1]];
  }

  lemma SettledStays(e0: Flow, e: Flow, r: Flow, order: seq<Block>, extra: seq<Block>, i: nat)
    requires Faithful(e0, e) && Faithful(e0, r) && 0 < i <= |order| && NoRepeats(order)
    requires forall j :: 0 <= j < |order| ==> order[j] < |e0.succs|
    requires SettledUpTo(e0, e, order, i - 1) && OnlyChanged(e, r, order[i - 1], extra)
    requires Settled(e0, r, order, i - 1)
    ensures SettledUpTo(e0, r, order, i)
  {
    hide JumpBlocks, SameControl;
    forall j | 0 <= j < i ensures Settled(e0, r, order, j) {
      if j < i - 1 {
        assert Settled(e0, e, order, j) && order[j] != order[i - 1];
      }
    }
  }

  /** One block of the order is connected to the next. */
  lemma Extend(e0: Flow, e: Flow, r: Flow, order: seq<Block>, linear: seq<Block>, extra: seq<Block>, i: nat)
    requires Laid(e0, e, order, linear, i) && 0 < i < |order| && Faithful(e0, r)
    requires OnlyChanged(e, r, order[i - 1], extra) && Targets(e0, r, order)
    requires InGraph(r, linear + extra + [order[i]]) && NoRepeats(linear) && NoRepeats(order)
    requires Good(r, linear + extra + [order[i]], |linear| - 1)
    requires extra != [] ==> Good(r, linear + extra + [order[i]], |linear|)
    requires order[i - 1] < |e0.succs| && Settled(e0, r, order, i - 1)
    ensures Laid(e0, r, order, linear + extra + [order[i]], i + 1)
  {
    var l := linear + extra + [order[i]];
    assert linear + (extra + [order[i]]) == l && |r.succs| == |e.succs| + |extra|;
    SettledStays(e0, e, r, order, extra, i);
    hide Faithful, Symmetric, Originals, OnlyChanged, Good, Members, Untouched, Targets, SettledUpTo, Settled;
    MembersGrow(|e0.succs|, |e.succs|, order, linear, extra, i);
    assert l[|l| - 1] == order[i];
    GoodKept(e, r, order[i - 1], linear, extra, extra + [order[i]]);
    UntouchedRest(e0, e, r, order, extra, i);
  }

  /** What the pass guarantees: every block of the order once and in order, every jump block once, every
      position suits what follows, and nothing has been added or inverted without need. */
  ghost predicate Finished(e0: Flow, e: Flow, order: seq<Block>, linear: seq<Block>) {
    && Faithful(e0, e) && Targets(e0, e, order)
    && InGraph(e, linear) && NoRepeats(linear) && GoodUpTo(e, linear, |linear|)
    && (forall j :: 0 <= j < |order| ==> order[j] < |e0.succs|)
    && (forall x: nat :: x in linear <==> x in order || |e0.succs| <= x < |e.succs|)
    && Originals(linear, |e0.succs|) == order
    && Untouched(e0, e, order, |order|) && SettledUpTo(e0, e, order, |order|)
  }

  lemma MembersFinish(n0: nat, n: nat, order: seq<Block>, linear: seq<Block>, extra: seq<Block>)
    requires Members(n0, n, order, linear, |order|) && |order| > 0 && (extra == [] || extra == [n])
    ensures var l := linear + extra;
      && NoRepeats(l) && Originals(l, n0) == order
      && forall x: nat :: x in l <==> x in order || n0 <= x < n + |extra|
  {
    assert order[..|order|] == order;
    OriginalsEnd(n0, n, order, linear, extra);
    assert n !in linear;
    hide Originals;
    NoRepeatsEnd(linear, extra);
  }

  lemma NoRepeatsEnd(linear: seq<Block>, extra: seq<Block>)
    requires NoRepeats(linear) && |extra| <= 1 && forall x :: x in extra ==> x !in linear
    ensures NoRepeats(linear + extra)
  {
    var r := linear + extra;
    forall i, j | 0 <= i < j < |r| ensures r[i] != r[j] {
      assert r[i] in linear;
      assert j < |linear| || r[j] in extra;
    }
  }

  lemma OriginalsEnd(n0: nat, n: nat, order: seq<Block>, linear: seq<Block>, extra: seq<Block>)
    requires n0 <= n && (extra == [] || extra == [n]) && |order| > 0 && order[0] < n0
    requires Originals(linear, n0) == order
    ensures Originals(linear + extra, n0) == order
  {
    OriginalsShort(n, order[0], n0);
    OriginalsConcat(linear, extra, n0);
    assert order + [] == order;
  }

  lemma FinishEffects(e0: Flow, e: Flow, r: Flow, order: seq<Block>, linear: seq<Block>, extra: seq<Block>)
    requires Laid(e0, e, order, linear, |order|) && |order| > 0 && Faithful(e0, r)
    requires OnlyChanged(e, r, order[|order| - 1], extra)
    requires order[|order| - 1] < |e0.succs| && Settled(e0, r, order, |order| - 1)
    ensures Untouched(e0, r, order, |order|) && SettledUpTo(e0, r, order, |order|)
  {
    hide Faithful, Symmetric, Originals, OnlyChanged, Good, Untouched, Targets, Settled, SettledUpTo;
    SettledStays(e0, e, r, order, extra, |order|);
    UntouchedRest(e0, e, r, order, extra, |order|);
  }

  /** The last block of the order is finished, with the jump block `extra` behind it if need be. */
  lemma Finish(e0: Flow, e: Flow, r: Flow, order: seq<Block>, linear: seq<Block>, extra: seq<Block>)
    requires Laid(e0, e, order, linear, |order|) && |order| > 0 && Faithful(e0, r)
    requires OnlyChanged(e, r, order[|order| - 1], extra) && Targets(e0, r, order) && InGraph(r, linear + extra)
    requires NoRepeats(linear) && Good(r, linear + extra, |linear| - 1)
    requires extra != [] ==> Good(r, linear + extra, |linear|)
    requires order[|order| - 1] < |e0.succs| && Settled(e0, r, order, |order| - 1)
    ensures Finished(e0, r, order, linear + extra)
  {
    assert |r.succs| == |e.succs| + |extra|;
    FinishEffects(e0, e, r, order, linear, extra);
    MembersFinish(|e0.succs|, |e.succs|, order, linear, extra);
    hide Faithful, Symmetric, Originals, OnlyChanged, Good, Untouched, Targets, Settled, SettledUpTo;
    GoodKept(e, r, order[|order| - 1], linear, extra, extra);
  }

  // ---- The pass ----------------------------------------------------------------------------------

  lemma Current(e0: Flow, e: Flow, order: seq<Block>, linear: seq<Block>, i: nat)
    requires Laid(e0, e, order, linear, i) && 0 < i
    ensures Symmetric(e) && NoRepeats(linear) && NoRepeats(order) && |linear| > 0 && InGraph(e, linear)
    ensures var u := order[i - 1];
      && linear[|linear| - 1] == u && u < |e0.succs| <= |e.succs| && |e.succs[u]| == NumSuccessors(e.last[u])
      && e.succs[u] == e0.succs[u] && e.last[u] == e0.last[u] && Faithful(e0, e) && Symmetric(e0)
      && NoRepeats(e.succs[u])
      && Targets(e0, e, order) && u in order && forall s :: s in e.succs[u] ==> s in order
  {
    assert order[i - 1] in order && order[i - 1] !in order[..i - 1];
  }

  /** Rewriting block `u` leaves the targets of jump blocks in the order. */
  lemma TargetsKept(e0: Flow, e: Flow, r: Flow, order: seq<Block>, u: Block, extra: seq<Block>)
    requires Targets(e0, e, order) && Symmetric(e) && Symmetric(r) && OnlyChanged(e, r, u, extra) && u < |e0.succs|
    requires |e0.succs| <= |e.succs| && Symmetric(e0) && e.succs[u] == e0.succs[u] && u in order
    requires extra != [] ==>
               |r.succs[|e.succs|]| > 0 && r.succs[|e.succs|][0] in order && |e.succs| in r.succs[u]
    ensures Targets(e0, r, order)
  {
    forall n | |e0.succs| <= n < |r.succs| ensures Entered(e0, r, order, n) {
      if n < |e.succs| {
        assert Entered(e0, e, order, n);
        var b :| b in order && b < |e0.succs| && Edge(e.succs, b, n);
        assert InRange(e0.succs, e0.succs[u]);
        assert b != u && Edge(r.succs, b, n);
      } else {
        assert Edge(r.succs, u, n);
      }
    }
  }

  lemma LayoutInGraph(e0: Flow, e: Flow, r: Flow, order: seq<Block>, linear: seq<Block>, extra: seq<Block>, i: nat)
    requires Laid(e0, e, order, linear, i) && (extra == [] || extra == [|e.succs|])
    requires |r.succs| == |e.succs| + |extra|
    ensures InGraph(r, linear + extra)
    ensures i < |order| ==> InGraph(r, linear + extra + [order[i]])
  {
    hide Faithful, GoodUpTo, Untouched, Originals;
    assert |e0.succs| <= |e.succs|;
    var l := linear + extra;
    forall k | 0 <= k < |l| ensures l[k] < |r.succs| {
      assert k < |linear| ==> l[k] == linear[k];
    }
  }

  /** The block before already leads to the next one, or leaves by a jump or a return. */
  lemma Keep(e0: Flow, e: Flow, order: seq<Block>, linear: seq<Block>, i: nat)
    requires Laid(e0, e, order, linear, i) && 0 < i < |order|
    requires var u := order[i - 1];
      || (u < |e.last| && (e.last[u] == Return || e.last[u] == Jump))
      || (u < |e.succs| && |e.succs[u]| > 0 && e.succs[u][FALLTHROUGH] == order[i])
    ensures Laid(e0, e, order, linear + [order[i]], i + 1)
  {
    Current(e0, e, order, linear, i);
    LayoutInGraph(e0, e, e, order, linear, [], i);
    assert linear + [] + [order[i]] == linear + [order[i]];
    var l := linear + [order[i]];
    assert l[|linear| - 1] == order[i - 1] && l[|linear|] == order[i];
    hide Laid, Faithful, Symmetric;
    Extend(e0, e, e, order, linear, [], i);
  }

  lemma Append(e0: Flow, e: Flow, order: seq<Block>, linear: seq<Block>, i: nat)
    requires Laid(e0, e, order, linear, i) && 0 < i < |order| && order[i - 1] < |e.last|
    requires e.last[order[i - 1]] == Plain && order[i - 1] < |e.succs| && |e.succs[order[i - 1]]| == 1
    requires e.succs[order[i - 1]][FALLTHROUGH] != order[i]
    ensures Laid(e0, Jumped(e, order[i - 1]), order, linear + [order[i]], i + 1)
  {
    Current(e0, e, order, linear, i);
    var r := Jumped(e, order[i - 1]);
    JumpedFaithful(e0, e, order[i - 1]);
    LayoutInGraph(e0, e, r, order, linear, [], i);
    assert linear + [] + [order[i]] == linear + [order[i]];
    var l := linear + [order[i]];
    assert l[|linear| - 1] == order[i - 1];
    JumpedSymmetric(e, order[i - 1]);
    TargetsKept(e0, e, r, order, order[i - 1], []);
    hide Laid, Faithful, Symmetric, Targets;
    Extend(e0, e, r, order, linear, [], i);
  }

  lemma Turn(e0: Flow, e: Flow, order: seq<Block>, linear: seq<Block>, i: nat)
    requires Laid(e0, e, order, linear, i) && 0 < i < |order| && order[i - 1] < |e.last| == |e.succs|
    requires e.last[order[i - 1]].If? && |e.succs[order[i - 1]]| == 2
    requires e.succs[order[i - 1]][BRANCH_TRUE] == order[i]
    ensures Laid(e0, Inverted(e, order[i - 1]), order, linear + [order[i]], i + 1)
  {
    Current(e0, e, order, linear, i);
    var r := Inverted(e, order[i - 1]);
    InvertedFaithful(e0, e, order[i - 1]);
    InvertedSymmetric(e, order[i - 1]);
    LayoutInGraph(e0, e, r, order, linear, [], i);
    assert linear + [] + [order[i]] == linear + [order[i]];
    var l := linear + [order[i]];
    assert l[|linear| - 1] == order[i - 1] && l[|linear|] == order[i];
    assert r.succs[order[i - 1]][FALLTHROUGH] == order[i];
    TargetsKept(e0, e, r, order, order[i - 1], []);
    hide Laid, Faithful, Symmetric, Targets;
    Extend(e0, e, r, order, linear, [], i);
  }

  lemma Detour(e0: Flow, e: Flow, order: seq<Block>, linear: seq<Block>, i: nat)
    requires Laid(e0, e, order, linear, i) && 0 < i < |order| && order[i - 1] < |e.last| == |e.succs|
    requires e.last[order[i - 1]].If? && |e.succs[order[i - 1]]| == 2 && order[i] !in e.succs[order[i - 1]]
    ensures |e.preds| == |e.succs| && e.succs[order[i - 1]][FALLTHROUGH] < |e.preds|
    ensures Laid(e0, Detoured(e, order[i - 1]), order, linear + [|e.succs|] + [order[i]], i + 1)
  {
    var u, n := order[i - 1], |e.succs|;
    Current(e0, e, order, linear, i);
    DetouredFaithful(e0, e, u);
    DetourShape(e, u);
    var r := Detoured(e, u);
    LayoutInGraph(e0, e, r, order, linear, [n], i);
    var l := linear + [n] + [order[i]];
    assert l[|linear| - 1] == u && l[|linear|] == n;
    assert InRange(e.succs, e.succs[u]) && e.succs[u][FALLTHROUGH] in e.succs[u];
    TargetsKept(e0, e, r, order, u, [n]);
    hide Laid, Faithful, Symmetric, Inserted, Targets;
    Extend(e0, e, r, order, linear, [n], i);
  }

  class LinearOrder {
    const graph: CfgGraph
    var linearBb: seq<Block>

    constructor (graph: CfgGraph)
      ensures this.graph == graph && linearBb == []
    {
      this.graph := graph;
      linearBb := [];
    }

    method AppendJump(b: Block)
      requires b < |graph.last|
      modifies graph
      ensures graph.Abs() == Jumped(old(graph.Abs()), b)
    {
      if graph.last[b] != Jump {
        graph.last := graph.last[b := Jump];
      }
    }

    /** The new block ends in a jump and stands on the edge from `prev` to `next`. */
    method InsertJumpBasicBlock(prev: Block, next: Block) returns (n: Block)
      requires Symmetric(graph.Abs()) && prev < |graph.succs| && next in graph.succs[prev]
      modifies graph
      ensures n == |old(graph.succs)|
      ensures n > prev && next < n && graph.Abs() == Inserted(WithBlock(old(graph.Abs()), Jump), n, prev, next)
    {
      EdgeFacts(graph.Abs(), prev, next);
      n := graph.NewBasicBlock(Jump);
      graph.InsertBasicBlock(n, prev, next);
    }

    method ProcessSingleSuccessor(bb: Block, prev: Block)
      requires prev < |graph.succs| == |graph.last| && |graph.succs[prev]| == 1
      modifies graph
      ensures var e := old(graph.Abs());
        graph.Abs() == if e.succs[prev][FALLTHROUGH] == bb then e else Jumped(e, prev)
    {
      if graph.succs[prev][FALLTHROUGH] != bb && graph.last[prev] != Jump {
        AppendJump(prev);
      }
    }

    method ProcessTwoSuccessors(bb: Block, prev: Block)
      requires Symmetric(graph.Abs()) && prev < |graph.succs| && graph.last[prev].If?
      modifies graph, this`linearBb
      ensures var e := old(graph.Abs());
        && |e.succs[prev]| == 2 && e.succs[prev][FALLTHROUGH] < |e.preds|
        && if e.succs[prev][BRANCH_TRUE] == bb then graph.Abs() == Inverted(e, prev) && linearBb == old(linearBb)
           else if e.succs[prev][FALLTHROUGH] == bb then graph.Abs() == e && linearBb == old(linearBb)
           else graph.Abs() == Detoured(e, prev) && linearBb == old(linearBb) + [|e.succs|]
    {
      EdgeFacts(graph.Abs(), prev, graph.succs[prev][FALLTHROUGH]);
      var bbF, bbT := graph.succs[prev][FALLTHROUGH], graph.succs[prev][BRANCH_TRUE];
      if bb == bbT {
        graph.InvertCondition(prev);
      } else if bb != bbF {
        var bbJmp := InsertJumpBasicBlock(prev, bbF);
        linearBb := linearBb + [bbJmp];
      }
    }

    /** Connects `prev`, the last block laid out, to the next block `bb`, and lays `bb` out. */
    method LayOut(bb: Block, prev: Block, ghost e0: Flow, ghost order: seq<Block>, ghost i: nat)
      requires Laid(e0, graph.Abs(), order, linearBb, i) && 0 < i < |order| && bb == order[i] && prev == order[i - 1]
      modifies graph, this`linearBb
      ensures Laid(e0, graph.Abs(), order, linearBb, i + 1)
    {
      ghost var e, linear := graph.Abs(), linearBb;
      Current(e0, e, order, linear, i);
      hide Laid, Faithful, Symmetric;
      if NumSuccessors(graph.last[prev]) == 0 {
        Keep(e0, e, order, linear, i);
      } else if NumSuccessors(graph.last[prev]) == 1 {
        if e.succs[prev][FALLTHROUGH] == bb || e.last[prev] == Jump {
          Keep(e0, e, order, linear, i);
        } else {
          Append(e0, e, order, linear, i);
        }
        ghost var same := e.last[prev] == Jump;
        assert same ==> Jumped(e, prev) == e;
        ProcessSingleSuccessor(bb, prev);
      } else {
        if e.succs[prev][BRANCH_TRUE] == bb {
          Turn(e0, e, order, linear, i);
        } else if e.succs[prev][FALLTHROUGH] == bb {
          Keep(e0, e, order, linear, i);
        } else {
          Detour(e0, e, order, linear, i);
        }
        ProcessTwoSuccessors(bb, prev);
      }
      linearBb := linearBb + [bb];
    }

    /** The last block has nothing to fall through to. */
    method ProcessLast(bb: Block, ghost e0: Flow, ghost order: seq<Block>)
      requires Laid(e0, graph.Abs(), order, linearBb, |order|) && |order| > 0 && bb == order[|order| - 1]
      modifies graph, this`linearBb
      ensures Finished(e0, graph.Abs(), order, linearBb)
    {
      ghost var e, linear := graph.Abs(), linearBb;
      Current(e0, e, order, linear, |order|);
      hide Laid, Faithful, Symmetric;
      if NumSuccessors(graph.last[bb]) == 0 {
        FinishPlain(e0, e, order, linear);
      } else if NumSuccessors(graph.last[bb]) == 1 {
        FinishPlain(e0, e, order, linear);
        AppendJump(bb);
      } else {
        FinishDetour(e0, e, order, linear);
        var bbJmp := InsertJumpBasicBlock(bb, graph.succs[bb][FALLTHROUGH]);
        linearBb := linearBb + [bbJmp];
      }
    }

    /** The whole pass: what was the graph before is followed by the layout after. */
    method Linearize()
      requires Symmetric(graph.Abs())
      modifies this, graph
      ensures Valid(old(graph.succs))
      ensures Finished(old(graph.Abs()), graph.Abs(), Pre(old(graph.succs), START, {}), linearBb)
    {
      ghost var e0 := graph.Abs();
      SymmetricValid(e0);
      linearBb := [];
      var rpo := new RPO(graph.succs);
      rpo.Run();
      var order := rpo.blocks;
      FirstBlock(e0);
      hide Laid, Symmetric, Faithful, Finished;
      linearBb := [order[0]];
      for i := 1 to |order|
        invariant Laid(e0, graph.Abs(), order, linearBb, i)
      {
        LayOut(order[i], order[i - 1], e0, order, i);
      }
      ProcessLast(order[|order| - 1], e0, order);
    }
  }

  lemma SymmetricValid(e: Flow)
    requires Symmetric(e)
    ensures Valid(e.succs)
  {}

  lemma OrderFacts(g: Graph)
    requires Valid(g)
    ensures var order := Pre(g, START, {});
      && |order| > 0 && order[0] == START && NoRepeats(order)
      && (forall j :: 0 <= j < |order| ==> order[j] < |g|)
      && forall x :: x in order <==> Reachable(g, x)
  {
    var order := Pre(g, START, {});
    PreorderComplete(g);
    forall j | 0 <= j < |order| ensures order[j] < |g| {
      assert order[j] in order;
      var p :| PathFromTo(g, p, START, order[j]);
    }
  }

  lemma ReachableNext(g: Graph, b: Block, s: Block)
    requires Valid(g) && Reachable(g, b) && Edge(g, b, s)
    ensures Reachable(g, s)
  {
    var p :| PathFromTo(g, p, START, b);
    PathExtend(g, p, s);
  }

  lemma FirstTargets(e: Flow)
    requires Symmetric(e) && Valid(e.succs)
    ensures Targets(e, e, Pre(e.succs, START, {}))
  {
    var order := Pre(e.succs, START, {});
    OrderFacts(e.succs);
    hide Pre, Symmetric;
    forall b, s | b in order && b < |e.succs| && s in e.succs[b] ensures s in order {
      assert Edge(e.succs, b, s);
      ReachableNext(e.succs, b, s);
    }
  }

  lemma FirstMembers(n: nat, order: seq<Block>)
    requires |order| > 0 && NoRepeats(order) && forall j :: 0 <= j < |order| ==> order[j] < n
    ensures Members(n, n, order, [order[0]], 1)
  {
    OriginalsShort(n, order[0], n);
    hide Originals;
    assert order[..1] == [order[0]];
    OneMember(n, order, [order[0]]);
  }

  lemma OneMember(n: nat, order: seq<Block>, l: seq<Block>)
    requires |order| > 0 && NoRepeats(order) && (forall j :: 0 <= j < |order| ==> order[j] < n)
    requires |l| == 1 && order[..1] == l && Originals(l, n) == l
    ensures Members(n, n, order, l, 1)
  {
    hide Originals;
    forall x | x in l ensures x < n {
      assert x == order[..1][0] == order[0];
    }
  }

  /** The start block opens the layout. */
  lemma FirstBlock(e: Flow)
    requires Symmetric(e) && Valid(e.succs)
    ensures var order := Pre(e.succs, START, {}); |order| > 0 && Laid(e, e, order, [order[0]], 1)
  {
    var order := Pre(e.succs, START, {});
    OrderFacts(e.succs);
    SelfFaithful(e);
    FirstTargets(e);
    FirstMembers(|e.succs|, order);
    hide Pre, Symmetric, Faithful, Good, Members, Targets, SameControl;
  }

  lemma FinishPlain(e0: Flow, e: Flow, order: seq<Block>, linear: seq<Block>)
    requires Laid(e0, e, order, linear, |order|) && |order| > 0 && order[|order| - 1] < |e.last|
    requires e.last[order[|order| - 1]] == Return || NumSuccessors(e.last[order[|order| - 1]]) == 1
    ensures var u := order[|order| - 1];
      Finished(e0, if e.last[u] == Return then e else Jumped(e, u), order, linear)
  {
    var u := order[|order| - 1];
    Current(e0, e, order, linear, |order|);
    var r := if e.last[u] == Return then e else Jumped(e, u);
    if e.last[u] == Plain {
      JumpedFaithful(e0, e, u);
      JumpedSymmetric(e, u);
    } else {
      assert r.last == e.last;
    }
    LayoutInGraph(e0, e, r, order, linear, [], |order|);
    assert linear + [] == linear;
    TargetsKept(e0, e, r, order, u, []);
    hide Laid, Faithful, Symmetric, Targets;
    Finish(e0, e, r, order, linear, []);
  }

  lemma FinishDetour(e0: Flow, e: Flow, order: seq<Block>, linear: seq<Block>)
    requires Laid(e0, e, order, linear, |order|) && |order| > 0 && order[|order| - 1] < |e.last|
    requires e.last[order[|order| - 1]].If?
    ensures var u := order[|order| - 1];
      && |e.succs| == |e.preds| == |e.last| && |e.succs[u]| == 2 && e.succs[u][FALLTHROUGH] < |e.preds|
      && Finished(e0, Detoured(e, u), order, linear + [|e.succs|])
  {
    var u, n := order[|order| - 1], |e.succs|;
    Current(e0, e, order, linear, |order|);
    DetouredFaithful(e0, e, u);
    DetourShape(e, u);
    var r := Detoured(e, u);
    LayoutInGraph(e0, e, r, order, linear, [n], |order|);
    var l := linear + [n];
    assert l[|linear| - 1] == u && l[|linear|] == n;
    assert InRange(e.succs, e.succs[u]) && e.succs[u][FALLTHROUGH] in e.succs[u];
    TargetsKept(e0, e, r, order, u, [n]);
    hide Laid, Faithful, Symmetric, Inserted, Targets;
    Finish(e0, e, r, order, linear, [n]);
  }

  lemma EdgeFacts(e: Flow, u: Block, v: Block)
    requires Symmetric(e) && u < |e.succs| && v in e.succs[u]
    ensures v < |e.succs| == |e.preds| && u in e.preds[v]
  {
    assert InRange(e.succs, e.succs[u]);
  }

  // ---- Running the layout --------------------------------------------------------------------------

  /** The blocks that control visits when the branch of the k-th block visited compares `input[k]`. */
  function RunCfg(e: Flow, b: Block, input: seq<(int, int)>): seq<Block>
    requires Shaped(e) && b < |e.succs|
    decreases |input|
  {
    if input == [] then [b]
    else
      var s := Next(e, b, input[0].0, input[0].1);
      if s == NULL then [b] else [b] + RunCfg(e, s, input[1..])
  }

  predicate Shaped(e: Flow) {
    && |e.succs| == |e.last|
    && forall b :: 0 <= b < |e.succs| ==> |e.succs[b]| == NumSuccessors(e.last[b]) && InRange(e.succs, e.succs[b])
  }

  /** Executing the layout: a jump goes to its target, a branch whose condition holds goes to its
      target, everything else but a return falls through to the next position. */
  ghost function NextPosition(e: Flow, linear: seq<Block>, i: nat, x: int, y: int): int
    requires Shaped(e) && InGraph(e, linear) && i < |linear| && Good(e, linear, i)
    requires forall s :: s in e.succs[linear[i]] ==> s in linear
  {
    var b := linear[i];
    match e.last[b]
    case Return => NULL
    case Jump => IndexOf(linear, e.succs[b][FALLTHROUGH])
    case Plain => i + 1
    case If(c) => if Holds(c, x, y) then IndexOf(linear, e.succs[b][BRANCH_TRUE]) else i + 1
  }

  /** The layout is complete enough to be executed. */
  ghost predicate Executable(e: Flow, n0: nat, linear: seq<Block>) {
    && Shaped(e) && JumpBlocks(e, n0) && InGraph(e, linear) && NoRepeats(linear)
    && (forall i :: 0 <= i < |linear| ==> Good(e, linear, i))
    && forall i, s :: 0 <= i < |linear| && s in e.succs[linear[i]] ==> s in linear
  }

  /** The original blocks that executing the layout from position `i` visits; jump blocks read no
      input. */
  ghost function RunLayout(e: Flow, n0: nat, linear: seq<Block>, i: nat, input: seq<(int, int)>): seq<Block>
    requires Executable(e, n0, linear) && i < |linear|
    decreases |input|, if linear[i] >= n0 then 1 else 0
  {
    if linear[i] >= n0 then RunLayout(e, n0, linear, NextPosition(e, linear, i, 0, 0), input)
    else if input == [] then [linear[i]]
    else
      var j := NextPosition(e, linear, i, input[0].0, input[0].1);
      if j == NULL then [linear[i]] else [linear[i]] + RunLayout(e, n0, linear, j, input[1..])
  }

  lemma PositionIsNext(e: Flow, n0: nat, linear: seq<Block>, i: nat, x: int, y: int)
    requires Executable(e, n0, linear) && i < |linear|
    ensures var j := NextPosition(e, linear, i, x, y);
      if j == NULL then Next(e, linear[i], x, y) == NULL
      else 0 <= j < |linear| && linear[j] == Next(e, linear[i], x, y)
  {
    var b := linear[i];
    assert |e.succs[b]| == NumSuccessors(e.last[b]);
    forall k | 0 <= k < |e.succs[b]| ensures e.succs[b][k] in linear {
      assert e.succs[b][k] in e.succs[b];
    }
    assert Good(e, linear, i);
  }

  /** Where a block leads in the layout is where it led in the graph, through at most one jump block. */
  lemma {:induction false} RunsAgree(e0: Flow, e: Flow, linear: seq<Block>, i: nat, input: seq<(int, int)>)
    requires Faithful(e0, e) && Executable(e, |e0.succs|, linear) && i < |linear| && Shaped(e0)
    ensures var b := if linear[i] >= |e0.succs| then e.succs[linear[i]][0] else linear[i];
      RunLayout(e, |e0.succs|, linear, i, input) == RunCfg(e0, b, input)
    decreases |input|, if linear[i] >= |e0.succs| then 1 else 0
  {
    var n0 := |e0.succs|;
    if linear[i] >= n0 {
      PositionIsNext(e, n0, linear, i, 0, 0);
      RunsAgree(e0, e, linear, NextPosition(e, linear, i, 0, 0), input);
    } else if input != [] {
      var b := linear[i];
      var x, y := input[0].0, input[0].1;
      PositionIsNext(e, n0, linear, i, x, y);
      assert SameControl(e0, e, b);
      assert Next(e, b, x, y) < |e.succs| && Through(e, n0, Next(e, b, x, y)) == Next(e0, b, x, y);
      var j := NextPosition(e, linear, i, x, y);
      if j != NULL {
        RunsAgree(e0, e, linear, j, input[1..]);
      }
    }
  }

  /** Operands under which a condition holds, and under which it does not. */
  function Witness(c: Cond, b: bool): (r: (int, int))
    ensures Holds(c, r.0, r.1) == b
  {
    match c
    case EQ => if b then (0, 0) else (0, 1)
    case NEQ => if b then (0, 1) else (0, 0)
    case LEQ => if b then (0, 0) else (1, 0)
    case GEQ => if b then (0, 0) else (0, 1)
    case L => if b then (0, 1) else (0, 0)
    case G => if b then (1, 0) else (0, 0)
  }

  /** Every successor is where control goes for some operands. */
  lemma SomeOperands(e: Flow, b: Block, s: Block) returns (x: int, y: int)
    requires Shaped(e) && b < |e.succs| && s in e.succs[b]
    ensures Next(e, b, x, y) == s
  {
    match e.last[b]
    case If(c) =>
      if s == e.succs[b][BRANCH_TRUE] {
        x, y := Witness(c, true).0, Witness(c, true).1;
      } else {
        x, y := Witness(c, false).0, Witness(c, false).1;
      }
    case _ => x, y := 0, 0;
  }

  lemma SymmetricShaped(e: Flow)
    requires Symmetric(e)
    ensures Shaped(e)
  {}

  /** Original blocks lead into the layout. */
  lemma OriginalLeads(e0: Flow, e: Flow, order: seq<Block>, linear: seq<Block>, b: Block, s: Block)
    requires Finished(e0, e, order, linear) && b in order && b < |e0.succs| && s in e.succs[b]
    ensures s in linear
  {
    SymmetricShaped(e);
    var x, y := SomeOperands(e, b, s);
    assert SameControl(e0, e, b);
    assert Next(e, b, x, y) < |e.succs| && Through(e, |e0.succs|, Next(e, b, x, y)) == Next(e0, b, x, y);
    NextInRange(e0, b, x, y);
    assert InRange(e.succs, e.succs[b]);
  }

  lemma FinishedExecutable(e0: Flow, e: Flow, order: seq<Block>, linear: seq<Block>)
    requires Finished(e0, e, order, linear)
    ensures Executable(e, |e0.succs|, linear)
  {
    SymmetricShaped(e);
    forall i, s | 0 <= i < |linear| && s in e.succs[linear[i]] ensures s in linear {
      var b := linear[i];
      assert b in linear;
      if b < |e0.succs| {
        OriginalLeads(e0, e, order, linear, b, s);
      } else {
        assert |e.succs[b]| == 1 && s == e.succs[b][0];
      }
    }
  }

  /** Linearisation preserves control flow: whatever the branches compare, executing the layout from a
      block visits the same original blocks in the same order as the graph did. */
  lemma LayoutPreservesControl(e0: Flow, e: Flow, order: seq<Block>, linear: seq<Block>, b: Block,
                               input: seq<(int, int)>)
    requires Finished(e0, e, order, linear) && b in order
    ensures Executable(e, |e0.succs|, linear) && Shaped(e0) && b in linear && b < |e0.succs|
    ensures RunLayout(e, |e0.succs|, linear, IndexOf(linear, b), input) == RunCfg(e0, b, input)
  {
    SymmetricShaped(e0);
    FinishedExecutable(e0, e, order, linear);
    RunsAgree(e0, e, linear, IndexOf(linear, b), input);
  }

  lemma {:induction false} ReachedInLayout(e0: Flow, e: Flow, order: seq<Block>, linear: seq<Block>, p: seq<Block>)
    requires Finished(e0, e, order, linear) && IsPath(e0.succs, p) && p[0] == START && START in order
    ensures Reachable(e.succs, p[|p| - 1])
    decreases |p|
  {
    if |p| == 1 {
      SinglePath(e.succs, START);
    } else {
      PathSlice(e0.succs, p, 0, |p| - 1);
      var q := p[0..|p| - 1];
      ReachedInLayout(e0, e, order, linear, q);
      var u, v := q[|q| - 1], p[|p| - 1];
      assert EdgeAt(e0.succs, p, |p| - 2);
      SymmetricShaped(e0);
      var x, y := SomeOperands(e0, u, v);
      assert SameControl(e0, e, u);
      var s := Next(e, u, x, y);
      assert s < |e.succs| && Through(e, |e0.succs|, s) == v;
      NextInRange(e, u, x, y);
      SymmetricValid(e);
      ReachableNext(e.succs, u, s);
      if s >= |e0.succs| {
        assert e.succs[s][0] in e.succs[s];
        ReachableNext(e.succs, s, v);
      }
    }
  }

  lemma ReachedIsLaid(e0: Flow, e: Flow, order: seq<Block>, linear: seq<Block>, b: Block)
    requires Finished(e0, e, order, linear) && START in order && Reachable(e.succs, b)
    ensures b in linear
  {
    FinishedExecutable(e0, e, order, linear);
    assert START in linear;
    hide Finished;
    var p :| PathFromTo(e.succs, p, START, b);
    forall x, s | x in Elems(linear) && Edge(e.succs, x, s) ensures s in Elems(linear) {
      var i :| 0 <= i < |linear| && linear[i] == x;
    }
    ClosedHoldsPath(e.succs, Elems(linear), p);
    assert p[|p| - 1] in p;
  }

  lemma JumpBlockReached(e0: Flow, e: Flow, order: seq<Block>, linear: seq<Block>, b: Block)
    requires Finished(e0, e, order, linear) && START in order && |e0.succs| <= b < |e.succs|
    requires forall x :: x in order ==> Reachable(e0.succs, x)
    ensures Reachable(e.succs, b)
  {
    assert Entered(e0, e, order, b);
    var u :| u in order && u < |e0.succs| && Edge(e.succs, u, b);
    OriginalReached(e0, e, order, linear, u);
    SymmetricValid(e);
    hide Finished;
    ReachableNext(e.succs, u, b);
  }

  /** Every jump block stands in the layout behind a branch neither of whose successors comes next. */
  lemma JumpBlockIsNeeded(e0: Flow, e: Flow, order: seq<Block>, linear: seq<Block>, n: Block) returns (j: nat, k: nat)
    requires Finished(e0, e, order, linear) && |e0.succs| <= n < |e.succs|
    ensures j < |order| && order[j] < |e0.succs| && e0.last[order[j]].If?
    ensures forall s :: s in e0.succs[order[j]] ==> !Follows(order, j, s)
    ensures k + 1 < |linear| && linear[k] == order[j] && linear[k + 1] == n
  {
    assert Entered(e0, e, order, n);
    var b :| b in order && b < |e0.succs| && Edge(e.succs, b, n);
    j :| 0 <= j < |order| && order[j] == b;
    k :| 0 <= k < |linear| && linear[k] == b;
    SymmetricShaped(e0);
    assert InRange(e0.succs, e0.succs[b]) && |e0.succs[b]| == NumSuccessors(e0.last[b]);
    assert Settled(e0, e, order, j) && Good(e, linear, k);
    hide Finished, Symmetric, Good;
    assert |e0.succs[b]| > 0 ==> e0.succs[b][FALLTHROUGH] in e0.succs[b];
    assert |e0.succs[b]| > 1 ==> e0.succs[b][BRANCH_TRUE] in e0.succs[b];
  }

  /** The layout lists exactly the blocks that can be reached in the new graph, each once. */
  lemma LayoutIsComplete(e0: Flow, e: Flow, linear: seq<Block>, b: Block)
    requires Valid(e0.succs) && Finished(e0, e, Pre(e0.succs, START, {}), linear)
    ensures NoRepeats(linear) && (b in linear <==> Reachable(e.succs, b))
  {
    var order := Pre(e0.succs, START, {});
    OrderFacts(e0.succs);
    assert START in order;
    assert b in linear ==> b in order || |e0.succs| <= b < |e.succs|;
    hide Pre, Faithful, Targets, GoodUpTo;
    if Reachable(e.succs, b) {
      ReachedIsLaid(e0, e, order, linear, b);
    }
    if b in linear {
      if b in order {
        OriginalReached(e0, e, order, linear, b);
      } else {
        JumpBlockReached(e0, e, order, linear, b);
      }
    }
  }

  lemma OriginalReached(e0: Flow, e: Flow, order: seq<Block>, linear: seq<Block>, b: Block)
    requires Finished(e0, e, order, linear) && b in order && START in order && Reachable(e0.succs, b)
    ensures Reachable(e.succs, b)
  {
    var p :| PathFromTo(e0.succs, p, START, b);
    ReachedInLayout(e0, e, order, linear, p);
  }
}
