/** Splitting back edges and adding pre-headers (pass/loop_analysis.cpp:107-234, 272-285). */
module HeaderRewriter {
  import opened Cfg
  import opened Coverage
  import opened Ssa
  import opened Execution
  import opened FlowGraph
  import opened Redirection
  import opened LoopRewrite
  import opened Preservation
  import opened HeaderShape
  import DT = DominatorTree

  // ---- One change ------------------------------------------------------------------------------------

  ghost predicate AllReached(g: Graph) {
    forall b :: 0 <= b < |g| ==> Reachable(g, b)
  }

  /** The graph and program after the changes `cs` to the program `c0`; `next` is the next instruction
      id, and `base` was it at the beginning. */
  ghost predicate Good(e: Flow, c: Program, next: Value, c0: Program, cs: seq<Change>, base: Value) {
    && Symmetric(e) && c.g == e.succs && Fit(c, next) && AllReached(c.g)
    && Chain(c0, cs, base) && c == Latest(c0, cs) && base <= next
  }

  ghost predicate HasBody(c: Program, body: Code) {
    c.body == body
  }

  /** The change to program `c` that moves all edges to `h` but the one from `t`. */
  function ChangeOf(c: Program, r: Graph, ps: set<Block>, h: Block, t: Block, next: Value): Change
    requires h < |c.body| && HaveEntries(c.body[h].phis, t)
  {
    Change(|c.g|, ps, h, t, next, Rewriting(c, r, h, t, next))
  }

  lemma GoodNext(e: Flow, r: Flow, c: Program, next: Value, c0: Program, cs: seq<Change>, base: Value,
                 ps: set<Block>, h: Block, t: Block)
    requires Good(e, c, next, c0, cs, base) && InFront(e, r, ps, h) && EntriesTo(e.succs, ps, h, t)
    ensures h < |c.body| && HaveEntries(c.body[h].phis, t)
    ensures var m := Move(c.body[h].phis, |c.body[h].phis|, t, |c.g|, next);
      Good(r, Rewriting(c, r.succs, h, t, next), m.next, c0, cs + [ChangeOf(c, r.succs, ps, h, t, next)], base)
  {
    hide Good, Fit, InFront, EntriesTo, Chain, Redirected, Rewritten, Move, Symmetric;
    GoodParts(e, r, c, next, c0, cs, base, ps, h);
    CanRewrite(c, r.succs, ps, h, t, next);
    hide HaveEntries;
    InFrontSymmetric(e, r, ps, h);
    var m := Move(c.body[h].phis, |c.body[h].phis|, t, |c.g|, next);
    FitKept(c, r.succs, ps, h, t, next, m);
    ChainNext(c0, cs, base, ChangeOf(c, r.succs, ps, h, t, next));
    SomeEntry(e.succs, ps, h, t);
    NewReachable(e.succs, r.succs, ps, h);
    GoodAgain(r, Rewriting(c, r.succs, h, t, next), m.next, c0, cs + [ChangeOf(c, r.succs, ps, h, t, next)], base);
  }

  lemma GoodParts(e: Flow, r: Flow, c: Program, next: Value, c0: Program, cs: seq<Change>, base: Value,
                  ps: set<Block>, h: Block)
    requires Good(e, c, next, c0, cs, base) && InFront(e, r, ps, h)
    ensures c.g == e.succs && Fit(c, next) && Chain(c0, cs, base) && c == Latest(c0, cs) && base <= next
    ensures Redirected(c.g, r.succs, ps, h)
    ensures forall b :: 0 <= b < |c.g| ==> Reachable(c.g, b)
  {}

  lemma SomeEntry(g: Graph, ps: set<Block>, h: Block, t: Block)
    requires EntriesTo(g, ps, h, t)
    ensures ps != {}
  {}

  lemma GoodAgain(e: Flow, c: Program, next: Value, c0: Program, cs: seq<Change>, base: Value)
    requires Symmetric(e) && c.g == e.succs && Fit(c, next) && Chain(c0, cs, base) && c == Latest(c0, cs)
    requires base <= next
    requires forall b :: 0 <= b < |c.g| ==> Reachable(c.g, b)
    ensures Good(e, c, next, c0, cs, base)
  {}

  // ---- Loops -----------------------------------------------------------------------------------------

  lemma SameLoop(g: Graph, r: Graph, ps: set<Block>, h: Block, t: Block, l: Info)
    requires Redirected(g, r, ps, h) && LoopOk(g, l) && l.header == h && l.backEdges == [t] && t !in ps
    ensures LoopOk(r, l) && (TrulyReducible(r, l) <==> TrulyReducible(g, l))
  {
    assert l.backEdges[0] == t;
    NewEdges(g, r, ps, h, t, h);
    DominanceUnchanged(g, r, ps, h, h, t);
  }

  /** The change keeps all loops in order, if only the back edge `t` is left to the header `h`. */
  lemma LoopsNext(g: Graph, r: Graph, ps: set<Block>, h: Block, t: Block, ls: seq<Info>)
    requires LoopsOk(g, ls) && Redirected(g, r, ps, h) && t !in ps
    requires forall k :: 0 < k < |ls| && ls[k].header == h ==> ls[k].backEdges == [t]
    ensures LoopsOk(r, ls)
    ensures forall k :: 0 < k < |ls| ==> (TrulyReducible(r, ls[k]) <==> TrulyReducible(g, ls[k]))
    ensures forall k :: 0 < k < |ls| && ls[k].header != h && NormalHeader(g, ls[k]) ==> NormalHeader(r, ls[k])
  {
    hide Redirected, LoopOk, NormalHeader, TrulyReducible;
    forall k | 0 < k < |ls|
      ensures LoopOk(r, ls[k]) && (TrulyReducible(r, ls[k]) <==> TrulyReducible(g, ls[k]))
      ensures ls[k].header != h && NormalHeader(g, ls[k]) ==> NormalHeader(r, ls[k])
    {
      if ls[k].header == h {
        SameLoop(g, r, ps, h, t, ls[k]);
      } else {
        OtherLoop(g, r, ps, h, ls[k]);
      }
    }
  }

  lemma LoopAdded(r: Graph, ls: seq<Info>, n: Block, x: Block)
    requires LoopsOk(r, ls) && 0 < n < |r| && x < |r| && Edge(r, x, n)
    requires forall k :: 0 < k < |ls| ==> ls[k].header != n
    ensures LoopsOk(r, ls + [Info(n, [x], false, NULL)])
  {
    var l := Info(n, [x], false, NULL);
    assert LoopOk(r, l);
    hide LoopOk;
  }

  /** Some of the back edges of a reducible header are still to be taken away from it. */
  ghost predicate Splitting(g: Graph, h: Block, rest: seq<Block>) {
    && 0 < h < |g| && NoRepeats(rest)
    && forall i :: 0 <= i < |rest| ==> rest[i] < |g| && Edge(g, rest[i], h) && Dominates(g, h, rest[i])
  }

  function Others(ps: seq<Block>, t: Block): (r: set<Block>)
    ensures forall x :: x in r <==> x in ps && x != t
  {
    Elems(ps) - {t}
  }

  lemma HeaderEntries(e: Flow, h: Block, t: Block)
    requires Symmetric(e) && AllReached(e.succs) && 0 < h < |e.succs| && t < |e.succs|
    requires Edge(e.succs, t, h) && Dominates(e.succs, h, t)
    ensures EntriesTo(e.succs, Others(e.preds[h], t), h, t) && t in e.preds[h] && InRange(e.succs, e.preds[h])
  {
    forall u: Block ensures u in e.preds[h] <==> Edge(e.succs, u, h) {
      PredsAreEdges(e, h, u);
    }
    assert Reachable(e.succs, h);
    hide Reachable, Dominates;
    var u := EntryBeyond(e.succs, h);
    assert u in Others(e.preds[h], t);
  }

  /** The remaining back edges go on to the new block. */
  lemma SplittingNext(g: Graph, r: Graph, ps: set<Block>, h: Block, t: Block, rest: seq<Block>)
    requires Splitting(g, h, [t] + rest) && Redirected(g, r, ps, h) && EntriesTo(g, ps, h, t)
    ensures Splitting(r, |g|, rest)
  {
    RestDistinct([t] + rest);
    RedirectedLength(g, r, ps, h);
    assert ([t] + rest)[0] == t && ([t] + rest)[1..] == rest;
    hide Redirected, EntriesTo, Dominates, Edge, NoRepeats;
    forall i | 0 <= i < |rest| ensures rest[i] < |g| && Edge(r, rest[i], |g|) && Dominates(r, |g|, rest[i]) {
      assert ([t] + rest)[i + 1] == rest[i];
      BecomesEdge(g, r, ps, h, t, rest[i]);
      NewDominates(g, r, ps, h, t, rest[i]);
    }
  }

  lemma RestDistinct(s: seq<Block>)
    requires NoRepeats(s) && s != []
    ensures NoRepeats(s[1..]) && forall i :: 0 < i < |s| ==> s[i] != s[0]
  {
    forall i | 0 <= i < |s| - 1 ensures s[1..][i] == s[i + 1] {}
  }

  lemma RedirectedLength(g: Graph, r: Graph, ps: set<Block>, h: Block)
    requires Redirected(g, r, ps, h)
    ensures |r| == |g| + 1
  {}

  lemma BecomesEdge(g: Graph, r: Graph, ps: set<Block>, h: Block, t: Block, u: Block)
    requires Redirected(g, r, ps, h) && EntriesTo(g, ps, h, t) && u < |g| && Edge(g, u, h) && u != t
    ensures Edge(r, u, |g|)
  {
    NewEdges(g, r, ps, h, u, h);
  }

  // ---- Sorting ---------------------------------------------------------------------------------------

  function Insert(x: Block, s: seq<Block>, idx: map<Block, nat>): (r: seq<Block>)
    ensures |r| == |s| + 1
  {
    if s != [] && Index(s[0], idx) < Index(x, idx) then [s[0]] + Insert(x, s[1..], idx) else [x] + s
  }

  function Index(b: Block, idx: map<Block, nat>): nat {
    if b in idx then idx[b] else 0
  }

  /** The blocks in the order of their depth-first numbers. */
  function SortBy(s: seq<Block>, idx: map<Block, nat>): (r: seq<Block>)
    ensures |r| == |s|
  {
    if s == [] then [] else Insert(s[0], SortBy(s[1..], idx), idx)
  }

  ghost predicate Ascending(s: seq<Block>, idx: map<Block, nat>) {
    forall i, j :: 0 <= i < j < |s| ==> Index(s[i], idx) <= Index(s[j], idx)
  }

  lemma {:induction false} InsertMembers(x: Block, s: seq<Block>, idx: map<Block, nat>)
    ensures multiset(Insert(x, s, idx)) == multiset([x]) + multiset(s)
    decreases |s|
  {
    if s != [] && Index(s[0], idx) < Index(x, idx) {
      InsertMembers(x, s[1..], idx);
      assert s == [s[0]] + s[1..];
    }
  }

  lemma AscendingCons(x: Block, s: seq<Block>, idx: map<Block, nat>)
    requires Ascending(s, idx) && forall y :: y in s ==> Index(x, idx) <= Index(y, idx)
    ensures Ascending([x] + s, idx)
  {}

  lemma AscendingRest(s: seq<Block>, idx: map<Block, nat>)
    requires Ascending(s, idx) && s != []
    ensures Ascending(s[1..], idx) && forall y :: y in s ==> Index(s[0], idx) <= Index(y, idx)
  {}

  lemma {:induction false} InsertSorts(x: Block, s: seq<Block>, idx: map<Block, nat>)
    requires Ascending(s, idx)
    ensures Ascending(Insert(x, s, idx), idx)
    decreases |s|
  {
    if s != [] {
      AscendingRest(s, idx);
    }
    hide Ascending;
    if s != [] && Index(s[0], idx) < Index(x, idx) {
      var r := Insert(x, s[1..], idx);
      InsertSorts(x, s[1..], idx);
      InsertMembers(x, s[1..], idx);
      forall y | y in r ensures Index(s[0], idx) <= Index(y, idx) {
        assert y in multiset(r);
        assert y == x || y in s[1..];
      }
      AscendingCons(s[0], r, idx);
    } else {
      AscendingCons(x, s, idx);
    }
  }

  lemma {:induction false} SortBySorts(s: seq<Block>, idx: map<Block, nat>)
    ensures Ascending(SortBy(s, idx), idx) && multiset(SortBy(s, idx)) == multiset(s)
    decreases |s|
  {
    if s != [] {
      SortBySorts(s[1..], idx);
      InsertSorts(s[0], SortBy(s[1..], idx), idx);
      InsertMembers(s[0], SortBy(s[1..], idx), idx);
      assert s == [s[0]] + s[1..];
    }
  }

  lemma {:induction false} CountOnce(s: seq<Block>, x: Block)
    requires NoRepeats(s)
    ensures multiset(s)[x] <= 1
    decreases |s|
  {
    if s != [] {
      assert s == [s[0]] + s[1..];
      forall i | 0 <= i < |s| - 1 ensures s[1..][i] == s[i + 1] {}
      CountOnce(s[1..], x);
      assert s[0] !in s[1..];
    }
  }

  lemma RepeatedTwice(s: seq<Block>, i: nat, j: nat)
    requires i < j < |s| && s[i] == s[j]
    ensures multiset(s)[s[i]] >= 2
  {
    assert s == s[..i] + [s[i]] + s[i + 1..j] + [s[j]] + s[j + 1..];
  }

  lemma SortedBackEdges(g: Graph, l: Info, idx: map<Block, nat>)
    requires LoopOk(g, l) && l.reducible
    ensures Splitting(g, l.header, SortBy(l.backEdges, idx))
  {
    var s, r := l.backEdges, SortBy(l.backEdges, idx);
    SortBySorts(s, idx);
    forall i, j | 0 <= i < j < |r| ensures r[i] != r[j] {
      CountOnce(s, r[i]);
      if r[i] == r[j] {
        RepeatedTwice(r, i, j);
      }
    }
    forall i | 0 <= i < |r| ensures r[i] < |g| && Edge(g, r[i], l.header) && Dominates(g, l.header, r[i]) {
      assert r[i] in multiset(r);
      assert r[i] in s;
      var k :| 0 <= k < |s| && s[k] == r[i];
    }
  }

  // ---- Moving phis -----------------------------------------------------------------------------------

  /** The first `i` phis of block `h` have been moved. */
  ghost predicate Moving(b0: Code, b: Code, i: nat, h: Block, n: Block, m: Moved) {
    && h < |b0| && n < |b0| && h != n && i <= |b0[h].phis|
    && b == b0[h := BasicBlock(m.kept + b0[h].phis[i..], b0[h].insts)][n := BasicBlock(m.added, b0[n].insts)]
  }

  /** One phi, with nothing moved before. */
  function Alone(phi: Phi, t: Block, n: Block, next: Value): Moved
    requires Entries(phi, t) != []
  {
    MoveOne(Moved([], [], next), phi, t, n)
  }

  lemma AloneMoves(m: Moved, phi: Phi, t: Block, n: Block)
    requires Entries(phi, t) != []
    ensures var a, r := Alone(phi, t, n, m.next), MoveOne(m, phi, t, n);
      |a.kept| == 1 && r == Moved(m.kept + a.kept, m.added + a.added, a.next)
  {
    hide Entries, HasSource, BackInput;
    assert m.added + [] == m.added;
  }

  lemma MovingNext(b0: Code, b: Code, b': Code, i: nat, h: Block, n: Block, m: Moved, t: Block)
    requires Moving(b0, b, i, h, n, m) && i < |b0[h].phis| && |m.kept| == i && Entries(b0[h].phis[i], t) != []
    requires b[h].phis[i] == b0[h].phis[i] ==>
               var a := Alone(b0[h].phis[i], t, n, m.next);
               b' == b[h := BasicBlock(b[h].phis[i := a.kept[0]], b[h].insts)]
                      [n := BasicBlock(b[n].phis + a.added, b[n].insts)]
    ensures b[h].phis[i] == b0[h].phis[i] && |b[h].phis| == |b0[h].phis|
    ensures Moving(b0, b', i + 1, h, n, MoveOne(m, b0[h].phis[i], t, n))
    ensures MoveOne(m, b0[h].phis[i], t, n).next == Alone(b0[h].phis[i], t, n, m.next).next
  {
    hide Entries, HasSource, BackInput;
    var phis := b0[h].phis;
    assert phis[i..] == [phis[i]] + phis[i + 1..];
    var a := Alone(phis[i], t, n, m.next);
    assert b[h].phis[i] == phis[i];
    assert (m.kept + phis[i..])[i := a.kept[0]] == m.kept + [a.kept[0]] + phis[i + 1..];
    var m' := MoveOne(m, phis[i], t, n);
    AloneMoves(m, phis[i], t, n);
    assert m'.kept + phis[i + 1..] == m.kept + [a.kept[0]] + phis[i + 1..];
    hide MoveOne, Alone;
  }

  lemma FirstSource(ins: seq<PhiInput>, t: Block, j: nat)
    requires j < |ins| && ins[j].source == t && forall k :: 0 <= k < j ==> ins[k].source != t
    ensures SourceOf(ins, t) == ins[j].value && HasSource(ins, t)
    decreases j
  {
    if j > 0 {
      assert ins[1..][j - 1] == ins[j];
      forall k | 0 <= k < j - 1 ensures ins[1..][k].source != t {
        assert ins[1..][k] == ins[k + 1];
      }
      FirstSource(ins[1..], t, j - 1);
    }
  }

  lemma MovedBody(b0: Code, b: Code, h: Block, m: Moved)
    requires h < |b0| && Moving(b0 + [BasicBlock([], [])], b, |b0[h].phis|, h, |b0|, m)
    ensures b == b0[h := BasicBlock(m.kept, b0[h].insts)] + [BasicBlock(m.added, [])]
  {
    assert m.kept + b0[h].phis[|b0[h].phis|..] == m.kept;
  }

  // ---- The pass --------------------------------------------------------------------------------------

  ghost predicate Exact(g: Graph, ls: seq<Info>) {
    forall k :: 0 < k < |ls| ==> (ls[k].reducible <==> TrulyReducible(g, ls[k]))
  }

  /** The loops after loop `k` has been split; `edges` are its back edges in order. */
  function SplitLoops(ls: seq<Info>, k: nat, edges: seq<Block>, n: Block, i: nat): (r: seq<Info>)
    requires k < |ls| && i < |edges|
    ensures |r| == |ls| + i
  {
    if i == 0 then ls[k := ls[k].(backEdges := [edges[0]])]
    else SplitLoops(ls, k, edges, n, i - 1) + [Info(n + i - 1, [edges[i]], false, NULL)]
  }

  lemma {:induction false} SplitLoopsAt(ls: seq<Info>, k: nat, edges: seq<Block>, n: Block, i: nat)
    requires k < |ls| && i < |edges|
    ensures var r := SplitLoops(ls, k, edges, n, i);
      && (forall j :: 0 <= j < |ls| && j != k ==> r[j] == ls[j])
      && r[k] == ls[k].(backEdges := [edges[0]])
      && (forall j :: |ls| <= j < |ls| + i ==> r[j] == Info(n + j - |ls|, [edges[j - |ls| + 1]], false, NULL))
    decreases i
  {
    if i > 0 {
      SplitLoopsAt(ls, k, edges, n, i - 1);
    }
  }

  /** The header that gets the next new block in front of it. */
  function PrevHead(ls: seq<Info>, k: nat, n: Block, i: nat): Block
    requires k < |ls|
  {
    if i == 0 then ls[k].header else n + i - 1
  }

  lemma StartSplit(g: Graph, ls: seq<Info>, k: nat, idx: map<Block, nat>)
    requires LoopsOk(g, ls) && 0 < k < |ls| && ls[k].reducible && |ls[k].backEdges| > 1 && Acyclic(g, ls, 0, [])
    ensures var edges := SortBy(ls[k].backEdges, idx);
      && |edges| == |ls[k].backEdges|
      && SplitState(g, ls, k, edges, |g|, 0, ls[k := ls[k].(backEdges := [edges[0]])], ls[k].header)
  {
    var edges := SortBy(ls[k].backEdges, idx);
    SortedBackEdges(g, ls[k], idx);
    assert edges[0..] == edges;
    StillAcyclic(g, ls, k, idx, edges);
    hide SortBy, Acyclic;
    var ls' := SplitLoops(ls, k, edges, |g|, 0);
    FirstEdge(g, ls[k], edges);
    forall j | 0 < j < |ls| ensures LoopOk(g, ls'[j]) && ls[j].header < |g| {
      assert LoopOk(g, ls[j]);
    }
    hide LoopOk;
  }

  /** While loop `k` is being split, its other back edges are to the header. */
  lemma StillAcyclic(g: Graph, ls: seq<Info>, k: nat, idx: map<Block, nat>, edges: seq<Block>)
    requires 0 < k < |ls| && Acyclic(g, ls, 0, []) && edges == SortBy(ls[k].backEdges, idx) && |edges| > 0
    ensures Acyclic(g, ls[k := ls[k].(backEdges := [edges[0]])], ls[k].header, edges)
  {
    var ls' := ls[k := ls[k].(backEdges := [edges[0]])];
    forall u: Block, v: Block | IsBack(ls, u, v) ensures IsBack(ls', u, v) || (v == ls[k].header && u in edges) {
      var j :| 0 < j < |ls| && ls[j].header == v && u in ls[j].backEdges;
      if j == k {
        SortBySorts(ls[k].backEdges, idx);
        assert u in multiset(edges);
      } else {
        assert ls'[j] == ls[j];
      }
    }
    AcyclicWith(g, ls, 0, [], ls', ls[k].header, edges);
  }

  lemma FirstEdge(g: Graph, l: Info, edges: seq<Block>)
    requires LoopOk(g, l) && l.reducible && |edges| > 0 && Splitting(g, l.header, edges)
    ensures LoopOk(g, l.(backEdges := [edges[0]]))
  {}

  /** `i` new headers have been put in front of the header of loop `k`; the graph had `n` blocks. */
  ghost predicate SplitState(g: Graph, ls: seq<Info>, k: nat, edges: seq<Block>, n: Block, i: nat, now: seq<Info>,
                             h: Block) {
    && 0 < k < |ls| && i < |edges| && |g| == n + i && HeadersBelow(ls, n)
    && now == SplitLoops(ls, k, edges, n, i) && LoopsOk(g, now)
    && h == PrevHead(ls, k, n, i) && Splitting(g, h, edges[i..]) && Acyclic(g, now, h, edges[i..])
  }

  ghost predicate HeadersBelow(ls: seq<Info>, n: Block) {
    forall j :: 0 < j < |ls| ==> ls[j].header < n
  }

  lemma SplitFirst(edges: seq<Block>, i: nat)
    requires i < |edges|
    ensures edges[i..] == [edges[i]] + edges[i + 1..]
  {}

  /** The new loop has the next back edge. */
  lemma LoopsMore(g: Graph, r: Graph, ps: set<Block>, h: Block, t: Block, now: seq<Info>, rest: seq<Block>)
    requires LoopsOk(g, now) && Redirected(g, r, ps, h) && EntriesTo(g, ps, h, t) && rest != []
    requires Splitting(g, h, [t] + rest) && Acyclic(g, now, h, [t] + rest) && IsBack(now, t, h)
    requires forall j :: 0 < j < |now| && now[j].header == h ==> now[j].backEdges == [t]
    requires forall j :: 0 < j < |now| ==> now[j].header != |g|
    ensures var l := Info(|g|, [rest[0]], false, NULL);
      LoopsOk(r, now + [l]) && Splitting(r, |g|, rest) && Acyclic(r, now + [l], |g|, rest)
  {
    var l := Info(|g|, [rest[0]], false, NULL);
    hide Redirected, EntriesTo, Splitting, LoopsOk, Acyclic, IsBack;
    SplittingNext(g, r, ps, h, t, rest);
    NotRedirected(g, ps, h, t);
    LoopsNext(g, r, ps, h, t, now);
    SplitEdgeTo(r, |g|, rest);
    LoopAdded(r, now, |g|, rest[0]);
    AcyclicNext(g, r, ps, h, t, now, rest);
    LoopMakesBack(now, l);
    AcyclicWith(r, now, |g|, rest, now + [l], |g|, rest);
  }

  /** One more back edge has been split off. */
  lemma SplitMore(g: Graph, r: Graph, ps: set<Block>, ls: seq<Info>, k: nat, edges: seq<Block>, n: Block, i: nat,
                  now: seq<Info>, h: Block)
    requires i + 1 < |edges| && SplitState(g, ls, k, edges, n, i, now, h)
    requires Redirected(g, r, ps, h) && EntriesTo(g, ps, h, edges[i])
    ensures SplitState(r, ls, k, edges, n, i + 1, now + [Info(|g|, [edges[i + 1]], false, NULL)], |g|)
  {
    hide Redirected, EntriesTo, Splitting, SplitLoops, LoopsOk, Acyclic, IsBack, HeadersBelow;
    SplitFirst(edges, i);
    HeadersDiffer(g, ls, k, edges, n, i);
    LoopsMore(g, r, ps, h, edges[i], now, edges[i + 1..]);
    SplitLoopsStep(ls, k, edges, n, i);
    RedirectedLength(g, r, ps, h);
  }

  lemma LoopMakesBack(ls: seq<Info>, l: Info)
    ensures forall u: Block, v: Block :: IsBack(ls, u, v) ==> IsBack(ls + [l], u, v)
  {
    forall u: Block, v: Block | IsBack(ls, u, v) ensures IsBack(ls + [l], u, v) {
      var k :| 0 < k < |ls| && ls[k].header == v && u in ls[k].backEdges;
      assert (ls + [l])[k] == ls[k];
    }
  }

  lemma SplitLoopsStep(ls: seq<Info>, k: nat, edges: seq<Block>, n: Block, i: nat)
    requires k < |ls| && i + 1 < |edges|
    ensures SplitLoops(ls, k, edges, n, i + 1) ==
              SplitLoops(ls, k, edges, n, i) + [Info(n + i, [edges[i + 1]], false, NULL)]
  {}

  lemma NotRedirected(g: Graph, ps: set<Block>, h: Block, t: Block)
    requires EntriesTo(g, ps, h, t)
    ensures t !in ps
  {}

  lemma SplitEdgeTo(r: Graph, n: Block, rest: seq<Block>)
    requires Splitting(r, n, rest) && |rest| > 0
    ensures 0 < n < |r| && rest[0] < |r| && Edge(r, rest[0], n)
  {}

  /** The header in question belongs to the loop whose back edge is left to it. */
  lemma HeadersDiffer(g: Graph, ls: seq<Info>, k: nat, edges: seq<Block>, n: Block, i: nat)
    requires 0 < k < |ls| && i + 1 < |edges| && HeadersBelow(ls, n) && LoopsOk(g, SplitLoops(ls, k, edges, n, i))
    ensures var now := SplitLoops(ls, k, edges, n, i);
      && (forall j :: 0 < j < |now| && now[j].header == PrevHead(ls, k, n, i) ==> now[j].backEdges == [edges[i]])
      && (forall j :: 0 < j < |now| ==> now[j].header != n + i) && IsBack(now, edges[i], PrevHead(ls, k, n, i))
  {
    var now := SplitLoops(ls, k, edges, n, i);
    SplitLoopsAt(ls, k, edges, n, i);
    hide LoopOk, SplitLoops, TrulyReducible;
    var at := if i == 0 then k else |ls| + i - 1;
    assert now[at].header == PrevHead(ls, k, n, i) && now[at].backEdges == [edges[i]];
    forall j | 0 < j < |now| ensures now[j].header == PrevHead(ls, k, n, i) ==> j == at {
      assert j < |ls| ==> now[j].header == ls[j].header;
    }
    forall j | 0 < j < |now| ensures now[j].header != n + i {
      assert j < |ls| ==> now[j].header == ls[j].header;
    }
  }

  /** All edges to `h` but the one from `t` now go through the new block. */
  ghost predicate Changed(e: Flow, r: Flow, h: Block, t: Block) {
    && h < |e.preds|
    && Redirected(e.succs, r.succs, Others(e.preds[h], t), h) && EntriesTo(e.succs, Others(e.preds[h], t), h, t)
  }

  /** All edges to the header but the back edges go to the pre-header, which leads to the header. */
  ghost predicate EntriesMoved(e: Flow, r: Flow, l: Info) {
    && l.header < |e.preds| == |e.succs| && InRange(e.succs, Outside(e.preds[l.header], l.backEdges))
    && r == PreHeaderFlow(e, Outside(e.preds[l.header], l.backEdges), l.header)
  }

  /** The graph has the new block; the phis are still to be moved. */
  ghost predicate Prepared(e: Flow, r: Flow, c: Program, next: Value, c0: Program, cs: seq<Change>, base: Value,
                           h: Block, t: Block)
  {
    && h < |c.body| == |c.g| == |e.succs| && h < |e.preds| && HaveEntries(c.body[h].phis, t) && Changed(e, r, h, t)
    && Good(r, Rewriting(c, r.succs, h, t, next), Move(c.body[h].phis, |c.body[h].phis|, t, |c.g|, next).next,
            c0, cs + [ChangeOf(c, r.succs, Others(e.preds[h], t), h, t, next)], base)
  }

  /** The new block can take over the edges from `us`. */
  lemma ReadyToRedirect(e: Flow, us: seq<Block>, h: Block)
    requires Symmetric(e) && h < |e.succs| && InRange(e.succs, us) && NoRepeats(us)
    requires forall x :: x in us ==> x in e.preds[h]
    ensures Redirectable(WithBlock(e, Plain), us, h, |e.succs|) && WithBlock(e, Plain).preds[h] == e.preds[h]
    ensures |e.succs| !in e.preds[h] && NoRepeats(e.preds[h])
  {
    var e1 := WithBlock(e, Plain);
    assert InRange(e.succs, e.preds[h]);
    forall i | 0 <= i < |us| ensures h in e1.succs[us[i]] && us[i] in e1.preds[h] {
      assert us[i] in us;
    }
  }

  /** The back edge from `t` is ready to go back to the header. */
  lemma ReadyToReturn(e: Flow, h: Block, t: Block)
    requires Symmetric(e) && 0 < h < |e.succs| && InRange(e.succs, e.preds[h]) && t in e.preds[h] && t < |e.succs|
    ensures var m, n := PreHeaderFlow(e, e.preds[h], h), |e.succs|;
      n in m.succs[t] && t in m.preds[n] && t !in m.preds[h]
  {
    var n := |e.succs|;
    PreHeaderLists(e, e.preds[h], h, Elems(e.preds[h]));
    hide PreHeaderFlow;
    assert InRange(e.succs, e.succs[t]);
    assert h in e.succs[t];
    ReplaceMembers(e.succs[t], h, n);
  }

  /** The loop gets its pre-header. */
  lemma PreHeaderNormal(g: Graph, r: Graph, ps: set<Block>, h: Block, t: Block, l: Info)
    requires Redirected(g, r, ps, h) && EntriesTo(g, ps, h, t) && LoopOk(g, l)
    requires l.header == h && l.backEdges == [t] && l.reducible && l.preHeader == |g|
    ensures NormalHeader(r, l)
  {
    SameLoop(g, r, ps, h, t, l);
    forall u: Block ensures Edge(r, u, h) <==> u == t || u == |g| {
      HeaderNormal(g, r, ps, h, t, u);
    }
    HeaderNormal(g, r, ps, h, t, 0);
  }

  // ---- How the loops nest after splitting --------------------------------------------------------------

  /** What dominates in `g` dominates in `r`, which has more blocks. */
  ghost predicate DomKept(g: Graph, r: Graph) {
    |g| <= |r| && forall a: nat, b: nat :: a < |g| && b < |g| && Dominates(g, a, b) ==> Dominates(r, a, b)
  }

  /** The loops `ks` have the back edges `bs`, one each, the first one has header `h`, and the header of every
      loop dominates the headers of those before it. */
  ghost predicate Nested(g: Graph, ls: seq<Info>, ks: seq<nat>, h: Block, bs: seq<Block>) {
    && |ks| == |bs| > 0
    && (forall j :: 0 <= j < |ks| ==> 0 < ks[j] < |ls| && ls[ks[j]].header < |g| && ls[ks[j]].backEdges == [bs[j]])
    && ls[ks[0]].header == h
    && forall i, j :: 0 <= i < j < |ks| ==> Dominates(g, ls[ks[j]].header, ls[ks[i]].header)
  }

  ghost predicate HasNest(g: Graph, ls: seq<Info>, h: Block, bs: seq<Block>) {
    exists ks :: Nested(g, ls, ks, h, bs)
  }

  /** Loop `j` of `ls` has become a nest with its back edges in order, or it is as it was if it is not
      reducible. */
  ghost predicate Nests(g: Graph, ls: seq<Info>, now: seq<Info>, idx: map<Block, nat>, j: nat)
    requires j < |ls|
  {
    if ls[j].reducible then HasNest(g, now, ls[j].header, SortBy(ls[j].backEdges, idx))
    else j < |now| && now[j].header == ls[j].header && now[j].backEdges == ls[j].backEdges
  }

  ghost predicate NestsUpTo(g: Graph, ls: seq<Info>, now: seq<Info>, idx: map<Block, nat>, k: nat) {
    forall j :: 0 < j < |ls| && j < k ==> Nests(g, ls, now, idx, j)
  }

  /** Headers and back edges are the same. */
  ghost predicate SameEdges(ls: seq<Info>, now: seq<Info>) {
    && |ls| == |now|
    && forall k :: 0 <= k < |ls| ==> now[k].header == ls[k].header && now[k].backEdges == ls[k].backEdges
  }

  ghost predicate NoPreHeaders(ls: seq<Info>) {
    forall k :: 0 <= k < |ls| ==> ls[k].preHeader == NULL
  }

  /** Block `b` is a header or a pre-header. */
  ghost predicate HasRole(ls: seq<Info>, b: Block) {
    exists k :: 0 <= k < |ls| && (ls[k].header == b || ls[k].preHeader == b)
  }

  /** All blocks from `n0` on have a role. */
  ghost predicate AllRoles(ls: seq<Info>, n0: nat, n: nat) {
    forall b: Block :: n0 <= b < n ==> HasRole(ls, b)
  }

  /** Of the loops before `k` only the reducible ones have a pre-header, of the others none. */
  ghost predicate PreHeadersUpTo(ls: seq<Info>, k: nat) {
    forall j :: 0 <= j < |ls| && (j >= k || !ls[j].reducible) ==> ls[j].preHeader == NULL
  }

  /** Nothing has been added but the new headers and a pre-header for each reducible loop; the graph had `n0`
      blocks and has `n` now. */
  ghost predicate Accounted(ls: seq<Info>, n0: nat, n: nat) {
    AllRoles(ls, n0, n) && PreHeadersUpTo(ls, |ls|)
  }

  /** So far there are no pre-headers. */
  ghost predicate Tidy(ls: seq<Info>, n0: nat, n: nat) {
    NoPreHeaders(ls) && AllRoles(ls, n0, n)
  }

  lemma TidySplit(ls: seq<Info>, k: nat, edges: seq<Block>, n0: nat, n: nat)
    requires k < |ls| && |edges| > 0 && Tidy(ls, n0, n)
    ensures Tidy(SplitLoops(ls, k, edges, n, |edges| - 1), n0, n + |edges| - 1)
  {
    var now := SplitLoops(ls, k, edges, n, |edges| - 1);
    SplitLoopsAt(ls, k, edges, n, |edges| - 1);
    hide SplitLoops;
    forall b: Block | n0 <= b < n + |edges| - 1 ensures HasRole(now, b) {
      if b < n {
        assert HasRole(ls, b);
        var j :| 0 <= j < |ls| && (ls[j].header == b || ls[j].preHeader == b);
        assert now[j].header == b;
      } else {
        assert now[|ls| + b - n].header == b;
      }
    }
  }

  /** Only the flags differ. */
  ghost predicate SameFrames(ls: seq<Info>, now: seq<Info>) {
    |now| == |ls| && forall k :: 0 <= k < |ls| ==> now[k] == ls[k].(reducible := now[k].reducible)
  }

  lemma TidyKept(ls: seq<Info>, now: seq<Info>, n0: nat, n: nat)
    requires Tidy(ls, n0, n) && SameFrames(ls, now)
    ensures Tidy(now, n0, n)
  {
    forall b: Block | n0 <= b < n ensures HasRole(now, b) {
      assert HasRole(ls, b);
      var j :| 0 <= j < |ls| && (ls[j].header == b || ls[j].preHeader == b);
      assert now[j].header == b;
    }
  }

  /** The pre-headers up to loop `k` have been added. */
  ghost predicate TidyUpTo(ls: seq<Info>, n0: nat, n: nat, k: nat) {
    AllRoles(ls, n0, n) && PreHeadersUpTo(ls, k)
  }

  lemma PreHeaderTidy(ls: seq<Info>, n0: nat, n: nat, k: nat)
    requires TidyUpTo(ls, n0, n, k) && k < |ls|
    ensures !ls[k].reducible ==> TidyUpTo(ls, n0, n, k + 1)
    ensures ls[k].reducible ==> TidyUpTo(ls[k := ls[k].(preHeader := n)], n0, n + 1, k + 1)
  {
    var now := ls[k := ls[k].(preHeader := n)];
    forall b: Block | n0 <= b < n + 1 ensures HasRole(now, b) {
      if b < n {
        assert HasRole(ls, b);
        var j :| 0 <= j < |ls| && (ls[j].header == b || ls[j].preHeader == b);
        assert j != k || now[j].header == b;
        assert now[j].header == b || now[j].preHeader == b;
      } else {
        assert now[k].preHeader == b;
      }
    }
  }

  lemma NestKept(g: Graph, r: Graph, ls: seq<Info>, now: seq<Info>, ks: seq<nat>, h: Block, bs: seq<Block>)
    requires Nested(g, ls, ks, h, bs) && DomKept(g, r) && |ls| <= |now|
    requires forall k :: 0 <= k < |ls| && k in ks ==>
               now[k].header == ls[k].header && now[k].backEdges == ls[k].backEdges
    ensures Nested(r, now, ks, h, bs)
  {
    hide Dominates;
    forall j | 0 <= j < |ks| ensures ks[j] in ks {}
  }

  lemma NestsKept(g: Graph, r: Graph, ls: seq<Info>, now: seq<Info>, later: seq<Info>, idx: map<Block, nat>, k: nat)
    requires NestsUpTo(g, ls, now, idx, k) && DomKept(g, r) && SameEdges(now, later)
    ensures NestsUpTo(r, ls, later, idx, k)
  {
    hide DomKept, Nested, SortBy;
    forall j | 0 < j < |ls| && j < k ensures Nests(r, ls, later, idx, j) {
      assert Nests(g, ls, now, idx, j);
      if ls[j].reducible {
        var ks :| Nested(g, now, ks, ls[j].header, SortBy(ls[j].backEdges, idx));
        NestKept(g, r, now, later, ks, ls[j].header, SortBy(ls[j].backEdges, idx));
      }
    }
  }

  lemma DomKeptTrans(g: Graph, m: Graph, r: Graph)
    requires DomKept(g, m) && DomKept(m, r)
    ensures DomKept(g, r)
  {
    hide Dominates;
  }

  lemma DomKeptSelf(g: Graph)
    ensures DomKept(g, g)
  {
    hide Dominates;
  }

  /** The new block of `r` dominates what `h` dominates. */
  ghost predicate NewAbove(g: Graph, r: Graph, h: Block) {
    forall x: nat :: x < |g| && Dominates(g, h, x) ==> Dominates(r, |g|, x)
  }

  /** A redirection keeps dominance, and the new block dominates what the header does. */
  lemma ChangedDoms(e: Flow, r: Flow, h: Block, t: Block)
    requires Changed(e, r, h, t)
    ensures |r.succs| == |e.succs| + 1 && DomKept(e.succs, r.succs)
    ensures Dominates(e.succs, h, t) ==> NewAbove(e.succs, r.succs, h)
  {
    var ps := Others(e.preds[h], t);
    RedirectedLength(e.succs, r.succs, ps, h);
    hide Redirected, EntriesTo, Others;
    forall a: nat, b: nat | a < |e.succs| && b < |e.succs| && Dominates(e.succs, a, b)
      ensures Dominates(r.succs, a, b)
    {
      DominanceUnchanged(e.succs, r.succs, ps, h, a, b);
    }
    if Dominates(e.succs, h, t) {
      forall x: nat | x < |e.succs| && Dominates(e.succs, h, x) ensures Dominates(r.succs, |e.succs|, x) {
        NewDominates(e.succs, r.succs, ps, h, t, x);
      }
    }
  }

  /** The header of loop `k` and the first `i` new ones: each dominates those before it. */
  ghost predicate Rising(g0: Graph, g: Graph, ls: seq<Info>, k: nat, i: nat) {
    && 0 < k < |ls| && ls[k].header < |g0| && |g| == |g0| + i && DomKept(g0, g)
    && forall a, b :: 0 <= a < b <= i ==> Dominates(g, PrevHead(ls, k, |g0|, b), PrevHead(ls, k, |g0|, a))
  }

  lemma RisingStart(g: Graph, ls: seq<Info>, k: nat)
    requires 0 < k < |ls| && ls[k].header < |g|
    ensures Rising(g, g, ls, k, 0)
  {
    DomKeptSelf(g);
  }

  lemma RisingNext(g0: Graph, g: Graph, r: Graph, ls: seq<Info>, k: nat, i: nat)
    requires Rising(g0, g, ls, k, i) && |r| == |g| + 1 && DomKept(g, r)
    requires NewAbove(g, r, PrevHead(ls, k, |g0|, i))
    ensures Rising(g0, r, ls, k, i + 1)
  {
    DomKeptTrans(g0, g, r);
    DT.SelfDominates(g, PrevHead(ls, k, |g0|, i));
    hide Dominates;
    forall a, b | 0 <= a < b <= i + 1 ensures Dominates(r, PrevHead(ls, k, |g0|, b), PrevHead(ls, k, |g0|, a)) {
      assert a < i ==> Dominates(g, PrevHead(ls, k, |g0|, i), PrevHead(ls, k, |g0|, a));
    }
  }

  /** The loops that come from loop `k` when it is split, `n` being the number of loops before. */
  function SplitId(k: nat, n: nat, j: nat): nat {
    if j == 0 then k else n + j - 1
  }

  lemma SplitIdAt(ls: seq<Info>, k: nat, edges: seq<Block>, n: Block, j: nat)
    requires 0 < k < |ls| && j < |edges|
    ensures var now := SplitLoops(ls, k, edges, n, |edges| - 1);
      && 0 < SplitId(k, |ls|, j) < |now|
      && now[SplitId(k, |ls|, j)].header == PrevHead(ls, k, n, j)
      && now[SplitId(k, |ls|, j)].backEdges == [edges[j]]
  {
    SplitLoopsAt(ls, k, edges, n, |edges| - 1);
    hide SplitLoops;
  }

  function SplitIds(k: nat, n: nat, m: nat): (r: seq<nat>)
    ensures |r| == m && forall j :: 0 <= j < m ==> r[j] == SplitId(k, n, j)
  {
    seq(m, j requires 0 <= j < m => SplitId(k, n, j))
  }

  /** Loops whose headers are `hs` make a nest if these dominate each other. */
  lemma NestOf(g: Graph, ls: seq<Info>, ks: seq<nat>, hs: seq<Block>, bs: seq<Block>)
    requires |ks| == |hs| == |bs| > 0
    requires forall j :: 0 <= j < |ks| ==>
               0 < ks[j] < |ls| && ls[ks[j]].header == hs[j] < |g| && ls[ks[j]].backEdges == [bs[j]]
    requires forall i, j :: 0 <= i < j < |hs| ==> Dominates(g, hs[j], hs[i])
    ensures HasNest(g, ls, hs[0], bs)
  {
    hide Dominates;
    assert Nested(g, ls, ks, hs[0], bs);
  }

  lemma RisenHeads(g0: Graph, g: Graph, ls: seq<Info>, k: nat, m: nat) returns (hs: seq<Block>)
    requires m > 0 && Rising(g0, g, ls, k, m - 1)
    ensures |hs| == m && hs[0] == ls[k].header
    ensures forall j :: 0 <= j < m ==> hs[j] == PrevHead(ls, k, |g0|, j) && hs[j] < |g|
    ensures forall i, j :: 0 <= i < j < m ==> Dominates(g, hs[j], hs[i])
  {
    hide Dominates;
    hs := seq(m, j requires 0 <= j < m => PrevHead(ls, k, |g0|, j));
  }

  /** The loops of one split are a nest. */
  lemma SplitNested(g0: Graph, g: Graph, ls: seq<Info>, k: nat, edges: seq<Block>)
    requires |edges| > 0 && Rising(g0, g, ls, k, |edges| - 1)
    ensures HasNest(g, SplitLoops(ls, k, edges, |g0|, |edges| - 1), ls[k].header, edges)
  {
    var now := SplitLoops(ls, k, edges, |g0|, |edges| - 1);
    var hs := RisenHeads(g0, g, ls, k, |edges|);
    var ks := SplitIds(k, |ls|, |edges|);
    hide Dominates, SplitLoops, DomKept, SplitId, SplitIds, HasNest, PrevHead;
    forall j | 0 <= j < |edges|
      ensures 0 < ks[j] < |now| && now[ks[j]].header == hs[j] < |g| && now[ks[j]].backEdges == [edges[j]]
    {
      SplitIdAt(ls, k, edges, |g0|, j);
    }
    NestOf(g, now, ks, hs, edges);
  }

  /** Splitting loop `k` makes a nest of it and leaves the other nests. */
  lemma NestsSplit(g: Graph, r: Graph, ls: seq<Info>, now: seq<Info>, idx: map<Block, nat>, k: nat)
    requires 0 < k < |ls| <= |now| && now[k] == ls[k] && ls[k].reducible && |ls[k].backEdges| > 1
    requires NestsUpTo(g, ls, now, idx, k) && Rising(g, r, now, k, |ls[k].backEdges| - 1)
    ensures NestsUpTo(r, ls, SplitLoops(now, k, SortBy(ls[k].backEdges, idx), |g|, |ls[k].backEdges| - 1), idx, k + 1)
  {
    var edges := SortBy(ls[k].backEdges, idx);
    var later := SplitLoops(now, k, edges, |g|, |edges| - 1);
    SplitNested(g, r, now, k, edges);
    SplitLoopsAt(now, k, edges, |g|, |edges| - 1);
    hide SplitLoops, SortBy, Dominates, DomKept;
    forall j | 0 < j < |ls| && j < k + 1 ensures Nests(r, ls, later, idx, j) {
      if j < k {
        assert Nests(g, ls, now, idx, j);
        if ls[j].reducible {
          var bs := SortBy(ls[j].backEdges, idx);
          var ks :| Nested(g, now, ks, ls[j].header, bs);
          assert k !in ks;
          NestKept(g, r, now, later, ks, ls[j].header, bs);
        }
      }
    }
  }

  /** A loop that is not split is a nest by itself. */
  lemma NestsStay(g: Graph, ls: seq<Info>, now: seq<Info>, idx: map<Block, nat>, k: nat)
    requires NestsUpTo(g, ls, now, idx, k) && |ls| <= |now|
    requires 0 < k < |ls| ==> now[k] == ls[k] && LoopOk(g, now[k]) && (ls[k].reducible ==> |ls[k].backEdges| <= 1)
    ensures NestsUpTo(g, ls, now, idx, k + 1)
  {
    hide Nested, TrulyReducible;
    if 0 < k < |ls| {
      if ls[k].reducible {
        var bs := ls[k].backEdges;
        assert bs == [bs[0]] && bs[1..] == [];
        assert SortBy(bs, idx) == bs;
        OneNested(g, now, k);
      }
      assert Nests(g, ls, now, idx, k);
    }
  }

  lemma OneNested(g: Graph, ls: seq<Info>, k: nat)
    requires 0 < k < |ls| && LoopOk(g, ls[k]) && |ls[k].backEdges| == 1
    ensures HasNest(g, ls, ls[k].header, ls[k].backEdges)
  {
    assert Nested(g, ls, [k], ls[k].header, ls[k].backEdges);
  }

  /** Every reducible loop has one back edge left. */
  ghost predicate AllSingle(ls: seq<Info>) {
    forall k :: 0 <= k < |ls| && ls[k].reducible ==> |ls[k].backEdges| <= 1
  }

  ghost predicate NormalUpTo(g: Graph, ls: seq<Info>, j: nat) {
    forall k :: 0 < k < |ls| && k < j && ls[k].reducible ==> NormalHeader(g, ls[k])
  }

  /** The entries of `ps`: all blocks that are not in `bck`. */
  function Outside(ps: seq<Block>, bck: seq<Block>): (r: seq<Block>)
    ensures forall x :: x in r <==> x in ps && x !in bck
  {
    if ps == [] then []
    else Outside(ps[..|ps| - 1], bck) + if ps[|ps| - 1] in bck then [] else [ps[|ps| - 1]]
  }

  lemma {:induction false} OutsideDistinct(ps: seq<Block>, bck: seq<Block>)
    requires NoRepeats(ps)
    ensures NoRepeats(Outside(ps, bck))
    decreases |ps|
  {
    if ps != [] {
      OutsideDistinct(ps[..|ps| - 1], bck);
      assert ps[|ps| - 1] !in ps[..|ps| - 1];
    }
  }

  /** `Loop::CalculateReducibility`, with the dominator tree at hand. */
  method CalculateReducibility(tree: DT.DomTree, l: Info) returns (r: bool)
    requires Valid(tree.g) && DT.IsDominatorTree(tree.g, tree.immDominator) && AllReached(tree.g)
    requires l.backEdges != [] ==> l.header < |tree.g|
    requires forall i :: 0 <= i < |l.backEdges| ==> l.backEdges[i] < |tree.g|
    ensures if l.backEdges == [] then r == l.reducible else r <==> TrulyReducible(tree.g, l)
  {
    if l.backEdges == [] {
      return l.reducible;
    }
    hide DT.IsDominatorTree, Dominates, Reachable;
    r := true;
    for i := 0 to |l.backEdges|
      invariant r <==> forall j :: 0 <= j < i ==> Dominates(tree.g, l.header, l.backEdges[j])
    {
      var d := tree.BlockDominates(l.header, l.backEdges[i]);
      DT.SelfDominates(tree.g, l.header);
      assert Reachable(tree.g, l.backEdges[i]);
      r := r && d;
    }
  }

  /** The transforming part of the pass. */
  class HeaderRewriter {
    const graph: CfgGraph
    const idToDfsIdx: map<Block, nat>
    var body: Code
    var next: Value
    var loops: seq<Info>
    var domValid: bool
    ghost const start: Program
    ghost const base: Value
    ghost var program: Program
    ghost var changes: seq<Change>

    constructor (graph: CfgGraph, body: Code, next: Value, loops: seq<Info>,
                 idToDfsIdx: map<Block, nat>, ghost c: Program)
      requires Symmetric(graph.Abs()) && c.g == graph.succs && c.body == body && Fit(c, next) && AllReached(c.g)
      requires LoopsOk(c.g, loops) && Exact(c.g, loops) && Acyclic(c.g, loops, 0, [])
      ensures Ready() && this.graph == graph && this.start == c && this.base == next && this.loops == loops
      ensures this.idToDfsIdx == idToDfsIdx
    {
      this.graph, this.idToDfsIdx, this.body, this.next, this.loops := graph, idToDfsIdx, body, next, loops;
      domValid := true;
      start, base, program, changes := c, next, c, [];
      new;
      hide Fit, Symmetric, LoopsOk, Exact, AllReached, Acyclic;
    }

    ghost predicate Consistent()
      reads this, graph
    {
      Good(graph.Abs(), program, next, start, changes, base) && HasBody(program, body)
    }

    ghost predicate Ready()
      reads this, graph
    {
      && Consistent() && LoopsOk(graph.succs, loops) && Acyclic(graph.succs, loops, 0, [])
      && (domValid ==> Exact(graph.succs, loops))
    }

    /** `PropagatePhis` for the header `h` with the back edge from `t` and the new block `n`. */
    method PropagatePhis(h: Block, t: Block, n: Block)
      requires h < |body| && n < |body| && h != n && body[n].phis == [] && HaveEntries(body[h].phis, t)
      modifies this`body, this`next
      ensures var phis := old(body[h].phis);
        var m := Move(phis, |phis|, t, n, old(next));
        next == m.next && Moving(old(body), body, |phis|, h, n, m)
    {
      ghost var b0, next0 := body, next;
      ghost var phis := body[h].phis;
      assert Moving(b0, body, 0, h, n, Moved([], [], next)) by {
        assert [] + phis[0..] == phis;
        assert b0[h := BasicBlock(phis, b0[h].insts)][n := BasicBlock([], b0[n].insts)] == b0;
      }
      MovingLength(b0, body, 0, h, n, Moved([], [], next));
      hide Moving, Move, Entries;
      StartMove(phis, t, n, next);
      var i := 0;
      while i < |body[h].phis|
        invariant h < |body| && n < |body| && i <= |phis| == |body[h].phis|
        invariant next == Move(phis, i, t, n, next0).next && Moving(b0, body, i, h, n, Move(phis, i, t, n, next0))
      {
        ghost var b := body;
        MoveStep(phis, i + 1, t, n, next0);
        ThisPhi(b0, b, i, h, n, Move(phis, i, t, n, next0));
        MovePhi(h, i, t, n);
        MovingNext(b0, b, body, i, h, n, Move(phis, i, t, n, next0), t);
        MovingLength(b0, body, i + 1, h, n, Move(phis, i + 1, t, n, next0));
        i := i + 1;
      }
    }

    lemma StartMove(phis: seq<Phi>, t: Block, n: Block, next: Value)
      requires HaveEntries(phis, t)
      ensures Move(phis, 0, t, n, next) == Moved([], [], next)
    {}

    lemma MovingLength(b0: Code, b: Code, i: nat, h: Block, n: Block, m: Moved)
      requires Moving(b0, b, i, h, n, m) && |m.kept| == i
      ensures |b| == |b0| && h < |b| && n < |b| && |b[h].phis| == |b0[h].phis|
    {}

    lemma ThisPhi(b0: Code, b: Code, i: nat, h: Block, n: Block, m: Moved)
      requires Moving(b0, b, i, h, n, m) && |m.kept| == i && i < |b0[h].phis|
      ensures h < |b| && |b[h].phis| == |b0[h].phis| && b[h].phis[i] == b0[h].phis[i]
    {}

    /** One phi: its back-edge input stays, the others are merged in the new block or passed on. */
    method MovePhi(h: Block, i: nat, t: Block, n: Block)
      requires h < |body| && n < |body| && h != n && i < |body[h].phis| && Entries(body[h].phis[i], t) != []
      modifies this`body, this`next
      ensures var a := Alone(old(body)[h].phis[i], t, n, old(next));
        && body == old(body)[h := BasicBlock(old(body)[h].phis[i := a.kept[0]], old(body)[h].insts)]
                     [n := BasicBlock(old(body)[n].phis + a.added, old(body)[n].insts)]
        && next == a.next
    {
      var phi := body[h].phis[i];
      var j := 0;
      while j < |phi.inputs| && phi.inputs[j].source != t
        invariant j <= |phi.inputs| && forall k :: 0 <= k < j ==> phi.inputs[k].source != t
      {
        j := j + 1;
      }
      AloneIs(phi, t, n, next, j);
      if j < |phi.inputs| {
        var bckInput := phi.inputs[j];
        var inputs := WithoutInput(phi.inputs, bckInput);
        var source: Value;
        if |inputs| > 1 {
          body := body[n := BasicBlock(body[n].phis + [Phi(next, inputs)], body[n].insts)];
          source, next := next, next + 1;
        } else {
          source := inputs[0].value;
          assert body[n].phis + [] == body[n].phis;
        }
        var kept := Phi(phi.id, [bckInput, PhiInput(source, n)]);
        body := body[h := BasicBlock(body[h].phis[i := kept], body[h].insts)];
      } else {
        Unchanged(body, h, n, i);
      }
    }

    lemma Unchanged(b: Code, h: Block, n: Block, i: nat)
      requires h < |b| && n < |b| && i < |b[h].phis|
      ensures b[h := BasicBlock(b[h].phis[i := b[h].phis[i]], b[h].insts)]
                [n := BasicBlock(b[n].phis + [], b[n].insts)] == b
    {
      assert b[h].phis[i := b[h].phis[i]] == b[h].phis && b[n].phis + [] == b[n].phis;
      assert BasicBlock(b[h].phis, b[h].insts) == b[h] && BasicBlock(b[n].phis, b[n].insts) == b[n];
    }

    lemma AloneIs(phi: Phi, t: Block, n: Block, next: Value, j: nat)
      requires Entries(phi, t) != [] && j <= |phi.inputs| && forall k :: 0 <= k < j ==> phi.inputs[k].source != t
      requires j < |phi.inputs| ==> phi.inputs[j].source == t
      ensures var a := Alone(phi, t, n, next);
        if j == |phi.inputs| then a == Moved([phi], [], next)
        else
          var inputs := WithoutInput(phi.inputs, phi.inputs[j]);
          if |inputs| > 1 then a ==
            Moved([Phi(phi.id, [phi.inputs[j], PhiInput(next, n)])], [Phi(next, inputs)], next + 1)
          else |inputs| == 1 && a == Moved([Phi(phi.id, [phi.inputs[j], PhiInput(inputs[0].value, n)])], [], next)
    {
      if j < |phi.inputs| {
        FirstSource(phi.inputs, t, j);
        assert BackInput(phi, t) == phi.inputs[j];
      }
    }

    /** A new header in front of `h`: all edges to `h` but the one from `t` go through it. */
    method SplitEdge(h: Block, t: Block) returns (n: Block)
      requires Consistent() && 0 < h < |graph.succs| && t < |graph.succs|
      requires Edge(graph.succs, t, h) && Dominates(graph.succs, h, t)
      modifies this`body, this`next, this`domValid, this`program, this`changes, graph
      ensures Consistent() && !domValid && n == |old(graph.succs)| && Changed(old(graph.Abs()), graph.Abs(), h, t)
    {
      ghost var e := graph.Abs();
      hide Good, Changed, Dominates, Symmetric, SplitFlow, InRange, Edge, Prepared, HasBody;
      SplitFacts(e, program, next, start, changes, base, h, t);
      n := InsertHeader(h, t);
      assert Prepared(e, graph.Abs(), program, next, start, changes, base, h, t);
      domValid := false;
      MovePhis(h, t, n, e);
    }

    /** The phis of `h` move to the new block, which is already in the graph. */
    method MovePhis(h: Block, t: Block, n: Block, ghost e: Flow)
      requires Prepared(e, graph.Abs(), program, next, start, changes, base, h, t) && HasBody(program, body)
      requires n == |e.succs|
      modifies this`body, this`next, this`program, this`changes
      ensures Consistent() && Changed(e, graph.Abs(), h, t)
    {
      ghost var c, next0 := program, next;
      hide Good, Changed, Move, HaveEntries, Moving, Rewriting;
      body := body + [BasicBlock([], [])];
      PropagatePhis(h, t, n);
      ghost var m := Move(c.body[h].phis, |c.body[h].phis|, t, n, next0);
      MovedBody(c.body, body, h, m);
      RewritingBody(c, graph.succs, h, t, next0);
      program := Rewriting(c, graph.succs, h, t, next0);
      changes := changes + [ChangeOf(c, graph.succs, Others(e.preds[h], t), h, t, next0)];
    }

    lemma RewritingBody(c: Program, r: Graph, h: Block, t: Block, bound: Value)
      requires h < |c.body| && HaveEntries(c.body[h].phis, t)
      ensures var m := Move(c.body[h].phis, |c.body[h].phis|, t, |c.g|, bound);
        Rewriting(c, r, h, t, bound).body ==
          c.body[h := BasicBlock(m.kept, c.body[h].insts)] + [BasicBlock(m.added, [])]
    {}

    /** All facts about one split of a header. */
    lemma SplitFacts(e: Flow, c: Program, next: Value, c0: Program, cs: seq<Change>, base: Value, h: Block, t: Block)
      requires Good(e, c, next, c0, cs, base) && 0 < h < |e.succs| && t < |e.succs|
      requires Edge(e.succs, t, h) && Dominates(e.succs, h, t)
      ensures Symmetric(e) && h < |e.preds| && t in e.preds[h] && InRange(e.succs, e.preds[h])
      ensures |c.g| == |e.succs| == |e.preds|
      ensures Prepared(e, SplitFlow(e, h, t), c, next, c0, cs, base, h, t)
    {
      GoodShape(e, c, next, c0, cs, base, h);
      var ps := Others(e.preds[h], t);
      HeaderEntries(e, h, t);
      hide Good, EntriesTo, Redirected, Dominates, Symmetric, Move, HaveEntries, SplitFlow, InFront, NoRepeats, Edge;
      SplitLists(e, h, t, ps);
      GoodNext(e, SplitFlow(e, h, t), c, next, c0, cs, base, ps, h, t);
      InFrontIs(e, SplitFlow(e, h, t), ps, h);
    }

    /** The graph part of a split. */
    method InsertHeader(h: Block, t: Block) returns (n: Block)
      requires Symmetric(graph.Abs()) && 0 < h < |graph.succs| == |graph.preds| && t < |graph.succs|
      requires t in graph.preds[h]
      requires InRange(graph.succs, graph.preds[h])
      modifies graph
      ensures n == |old(graph.succs)| && h < |old(graph.preds)| == n && t < n
      ensures InRange(old(graph.succs), old(graph.preds)[h])
      ensures graph.Abs() == SplitFlow(old(graph.Abs()), h, t)
    {
      ghost var e := graph.Abs();
      assert NoRepeats(e.preds[h]);
      ReadyToRedirect(e, e.preds[h], h);
      ReadyToReturn(e, h, t);
      WithBlockRange(e, e.preds[h]);
      hide Redirectable, Symmetric, RedirectAll, Redirect;
      n := graph.NewBasicBlock(Plain);
      graph.InsertBasicBlockBefore(n, h);
      graph.RedirectEdge(t, n, h);
    }

    lemma GoodShape(e: Flow, c: Program, next: Value, c0: Program, cs: seq<Change>, base: Value, h: Block)
      requires Good(e, c, next, c0, cs, base) && h < |e.succs|
      ensures Symmetric(e) && AllReached(e.succs) && c.g == e.succs && |c.body| == |c.g| == |e.preds|
      ensures InRange(e.succs, e.preds[h]) && NoRepeats(e.preds[h])
    {}

    lemma InFrontIs(e: Flow, r: Flow, ps: set<Block>, h: Block)
      requires InFront(e, r, ps, h)
      ensures Redirected(e.succs, r.succs, ps, h)
    {}

    /** Splits the back edges of loop `k` into nested loops, one back edge each. */
    method SplitBackEdge(k: nat)
      requires Ready() && 0 < k < |loops| && loops[k].reducible && |loops[k].backEdges| > 1
      modifies this`body, this`next, this`domValid, this`program, this`changes, this`loops, graph
      ensures Ready() && !domValid
      ensures var edges := SortBy(old(loops)[k].backEdges, idToDfsIdx);
        loops == SplitLoops(old(loops), k, edges, |old(graph.succs)|, |edges| - 1)
      ensures Rising(old(graph.succs), graph.succs, old(loops), k, |old(loops)[k].backEdges| - 1)
    {
      var edges := SortBy(loops[k].backEdges, idToDfsIdx);
      ghost var ls, n0 := loops, |graph.succs|;
      ghost var g0 := graph.succs;
      LoopFacts(graph.succs, loops, k);
      RisingStart(g0, loops, k);
      hide Good, SplitState, LoopsOk, SortBy, SplitLoops, HasBody, Acyclic, Exact, Rising, DomKept, NewAbove;
      StartSplit(graph.succs, loops, k, idToDfsIdx);
      var prevHead := loops[k].header;
      loops := loops[k := loops[k].(backEdges := [edges[0]])];
      domValid := false;
      for i := 0 to |edges| - 1
        invariant Consistent() && !domValid && SplitState(graph.succs, ls, k, edges, n0, i, loops, prevHead)
        invariant Rising(g0, graph.succs, ls, k, i)
      {
        SplitHead(graph.succs, ls, k, edges, n0, i, loops, prevHead);
        ghost var g := graph.succs;
        prevHead := NewHeader(prevHead, edges[i], edges[i + 1], ls, k, edges, n0, i);
        RisingNext(g0, g, graph.succs, ls, k, i);
      }
      EndSplit(graph.succs, ls, k, edges, n0, loops, prevHead);
    }

    /** A new header for the back edge from `t'`; the one from `t` stays with `h`. */
    method NewHeader(h: Block, t: Block, t': Block, ghost ls: seq<Info>, ghost k: nat, ghost edges: seq<Block>,
                     ghost n0: Block, ghost i: nat) returns (n: Block)
      requires Consistent() && !domValid && SplitState(graph.succs, ls, k, edges, n0, i, loops, h)
      requires i + 1 < |edges| && t == edges[i] && t' == edges[i + 1]
      modifies this`body, this`next, this`domValid, this`program, this`changes, this`loops, graph
      ensures Consistent() && !domValid && SplitState(graph.succs, ls, k, edges, n0, i + 1, loops, n)
      ensures n == |old(graph.succs)| && |graph.succs| == n + 1 && DomKept(old(graph.succs), graph.succs)
      ensures NewAbove(old(graph.succs), graph.succs, h)
    {
      ghost var e := graph.Abs();
      hide Good, SplitState, Changed, Dominates, Edge, HasBody, DomKept, NewAbove;
      FirstOfRest(graph.succs, ls, k, edges, n0, i, loops, h);
      n := SplitEdge(h, t);
      SplitChanged(e, graph.Abs(), ls, k, edges, n0, i, loops, h);
      ChangedDoms(e, graph.Abs(), h, t);
      loops := loops + [Info(n, [t'], false, NULL)];
    }

    lemma FirstOfRest(g: Graph, ls: seq<Info>, k: nat, edges: seq<Block>, n: Block, i: nat, now: seq<Info>, h: Block)
      requires SplitState(g, ls, k, edges, n, i, now, h)
      ensures 0 < h < |g| && edges[i] < |g| && Edge(g, edges[i], h) && Dominates(g, h, edges[i])
    {
      assert edges[i..][0] == edges[i];
    }

    lemma SplitHead(g: Graph, ls: seq<Info>, k: nat, edges: seq<Block>, n: Block, i: nat, now: seq<Info>, h: Block)
      requires SplitState(g, ls, k, edges, n, i, now, h)
      ensures k < |ls| && h == PrevHead(ls, k, n, i)
    {}

    lemma EndSplit(g: Graph, ls: seq<Info>, k: nat, edges: seq<Block>, n: Block, now: seq<Info>, h: Block)
      requires |edges| > 0 && SplitState(g, ls, k, edges, n, |edges| - 1, now, h)
      ensures k < |ls| && now == SplitLoops(ls, k, edges, n, |edges| - 1) && LoopsOk(g, now) && Acyclic(g, now, 0, [])
    {
      hide SplitLoops, LoopsOk, Splitting, Acyclic, IsBack;
      LastIsBack(g, ls, k, edges, n, now, h);
      AcyclicWith(g, now, h, edges[|edges| - 1..], now, 0, []);
    }

    lemma LastIsBack(g: Graph, ls: seq<Info>, k: nat, edges: seq<Block>, n: Block, now: seq<Info>, h: Block)
      requires |edges| > 0 && SplitState(g, ls, k, edges, n, |edges| - 1, now, h)
      ensures forall u: Block :: u in edges[|edges| - 1..] ==> IsBack(now, u, h)
    {
      var i := |edges| - 1;
      SplitLoopsAt(ls, k, edges, n, i);
      var at := if i == 0 then k else |ls| + i - 1;
      assert now[at].header == h && now[at].backEdges == [edges[i]];
    }

    lemma SplitChanged(e: Flow, r: Flow, ls: seq<Info>, k: nat, edges: seq<Block>, n: Block, i: nat, now: seq<Info>,
                       h: Block)
      requires i + 1 < |edges| && SplitState(e.succs, ls, k, edges, n, i, now, h) && Changed(e, r, h, edges[i])
      ensures SplitState(r.succs, ls, k, edges, n, i + 1,
                         now + [Info(|e.succs|, [edges[i + 1]], false, NULL)], |e.succs|)
    {
      hide SplitState, EntriesTo, Redirected;
      SplitMore(e.succs, r.succs, Others(e.preds[h], edges[i]), ls, k, edges, n, i, now, h);
    }

    /** Every reducible loop of the list is split.  The list grows on the way; the loops that are added are
        reached as well, but they are not marked reducible yet. */
    method SplitBackEdges()
      requires Ready()
      modifies this`body, this`next, this`domValid, this`program, this`changes, this`loops, graph
      ensures Ready() && AllSingle(loops) && SameHeaders(old(loops), loops)
      ensures NestsUpTo(graph.succs, old(loops), loops, idToDfsIdx, |old(loops)|)
      ensures Tidy(old(loops), |start.g|, |old(graph.succs)|) ==> Tidy(loops, |start.g|, |graph.succs|)
    {
      ghost var ls, size := loops, |graph.succs|;
      hide *;
      LoopsAreOk();
      NothingSplit(graph.succs, ls, idToDfsIdx, |start.g|);
      var k: nat := 0;
      while k < |loops|
        invariant Ready() && k <= |loops| && Progress(graph.succs, ls, loops, idToDfsIdx, k, |start.g|, size)
        decreases if k < |ls| then |ls| - k else 0, |loops| - k
      {
        if loops[k].reducible && |loops[k].backEdges| > 1 {
          SplitOne(k, ls, size);
        } else {
          LoopsAreOk();
          StayDone(graph.succs, ls, loops, idToDfsIdx, k, |start.g|, size);
        }
        k := k + 1;
      }
      AllSplit(graph.succs, ls, loops, idToDfsIdx, k, |start.g|, size);
    }

    lemma LoopsAreOk()
      requires Ready()
      ensures LoopsOk(graph.succs, loops)
    {}

    /** One loop of the list. */
    method SplitOne(k: nat, ghost ls: seq<Info>, ghost size: nat)
      requires Ready() && k < |loops| && loops[k].reducible && |loops[k].backEdges| > 1
      requires Progress(graph.succs, ls, loops, idToDfsIdx, k, |start.g|, size)
      modifies this`body, this`next, this`domValid, this`program, this`changes, this`loops, graph
      ensures Ready() && k < |ls| && k < |loops|
      ensures Progress(graph.succs, ls, loops, idToDfsIdx, k + 1, |start.g|, size)
    {
      hide Good, LoopsOk, Exact, HasBody, Acyclic, Progress, SplitLoops, SortBy, Rising;
      NotRoot(graph.succs, loops, k);
      ghost var g, now := graph.succs, loops;
      SplitBackEdge(k);
      SplitDone(g, graph.succs, ls, now, idToDfsIdx, k, |start.g|, size);
    }

    /** What has been done to the loops before `k`. */
    ghost predicate Progress(g: Graph, ls: seq<Info>, now: seq<Info>, idx: map<Block, nat>, k: nat,
                             n0: nat, size: nat) {
      SplitUpTo(ls, now, k) && NestsUpTo(g, ls, now, idx, k) && (Tidy(ls, n0, size) ==> Tidy(now, n0, |g|))
    }

    lemma NothingSplit(g: Graph, ls: seq<Info>, idx: map<Block, nat>, n0: nat)
      requires LoopsOk(g, ls)
      ensures Progress(g, ls, ls, idx, 0, n0, |g|)
    {}

    lemma SplitDone(g: Graph, r: Graph, ls: seq<Info>, now: seq<Info>, idx: map<Block, nat>, k: nat, n0: nat, size: nat)
      requires 0 < k < |now| && Progress(g, ls, now, idx, k, n0, size) && now[k].reducible && |now[k].backEdges| > 1
      requires Rising(g, r, now, k, |now[k].backEdges| - 1)
      ensures k < |ls|
      ensures var later := SplitLoops(now, k, SortBy(now[k].backEdges, idx), |g|, |now[k].backEdges| - 1);
        Progress(r, ls, later, idx, k + 1, n0, size)
    {
      var edges := SortBy(now[k].backEdges, idx);
      SplitAt(ls, now, k, edges, |g|);
      hide SplitLoops, SortBy, NestsUpTo, Tidy;
      NestsSplit(g, r, ls, now, idx, k);
      RisenSize(g, r, now, k, |edges| - 1);
      if Tidy(now, n0, |g|) {
        TidySplit(now, k, edges, n0, |g|);
      }
    }

    lemma StayDone(g: Graph, ls: seq<Info>, now: seq<Info>, idx: map<Block, nat>, k: nat, n0: nat, size: nat)
      requires k < |now| && Progress(g, ls, now, idx, k, n0, size) && LoopsOk(g, now)
      requires now[k].reducible ==> |now[k].backEdges| <= 1
      ensures Progress(g, ls, now, idx, k + 1, n0, size)
    {
      hide NestsUpTo, LoopOk, Tidy;
      NestsStay(g, ls, now, idx, k);
    }

    lemma AllSplit(g: Graph, ls: seq<Info>, now: seq<Info>, idx: map<Block, nat>, k: nat, n0: nat, size: nat)
      requires Progress(g, ls, now, idx, k, n0, size) && |now| <= k
      ensures AllSingle(now) && SameHeaders(ls, now) && NestsUpTo(g, ls, now, idx, |ls|)
      ensures Tidy(ls, n0, size) ==> Tidy(now, n0, |g|)
    {}

    lemma RisenSize(g0: Graph, g: Graph, ls: seq<Info>, k: nat, i: nat)
      requires Rising(g0, g, ls, k, i)
      ensures |g| == |g0| + i
    {}

    lemma NotRoot(g: Graph, ls: seq<Info>, k: nat)
      requires LoopsOk(g, ls) && k < |ls| && |ls[k].backEdges| > 1
      ensures k > 0
    {}

    /** The flags are computed again from a new dominator tree, unless the graph has not changed. */
    method RecalculateLoopsReducibility()
      requires Ready() && AllSingle(loops)
      modifies this`loops, this`domValid
      ensures Ready() && Exact(graph.succs, loops) && AllSingle(loops) && SameEdges(old(loops), loops)
      ensures SameFrames(old(loops), loops)
    {
      if domValid {
        return;
      }
      ghost var ls := loops;
      GoodGraph(graph.Abs(), program, next, start, changes, base);
      hide Good, LoopsOk, Exact, LoopOk, AllSingle, DT.IsDominatorTree, Valid, AllReached, Checked, TrulyReducible,
           HasBody, Acyclic;
      StartChecking(graph.succs, loops);
      var tree := new DT.DomTree(graph.succs);
      tree.Run();
      for k := 0 to |loops|
        invariant |loops| == |ls| && Checked(tree.g, ls, loops, k)
        invariant tree.g == graph.succs && DT.IsDominatorTree(tree.g, tree.immDominator)
      {
        LoopInRange(graph.succs, ls, loops, k);
        var r := CalculateReducibility(tree, loops[k]);
        CheckedNext(graph.succs, ls, loops, k, r);
        loops := loops[k := loops[k].(reducible := r)];
      }
      AllChecked(graph.succs, ls, loops);
      SameBacks(graph.succs, ls, loops);
      domValid := true;
    }

    lemma StartChecking(g: Graph, ls: seq<Info>)
      ensures Checked(g, ls, ls, 0)
    {}

    lemma CheckedNext(g: Graph, ls: seq<Info>, now: seq<Info>, k: nat, r: bool)
      requires Checked(g, ls, now, k) && k < |ls| == |now|
      requires if ls[k].backEdges == [] then r == now[k].reducible else r <==> TrulyReducible(g, now[k])
      ensures Checked(g, ls, now[k := now[k].(reducible := r)], k + 1)
    {}

    lemma GoodGraph(e: Flow, c: Program, next: Value, c0: Program, cs: seq<Change>, base: Value)
      requires Good(e, c, next, c0, cs, base)
      ensures Valid(e.succs) && AllReached(e.succs)
    {}

    lemma LoopInRange(g: Graph, ls: seq<Info>, now: seq<Info>, k: nat)
      requires LoopsOk(g, ls) && k < |ls| && Checked(g, ls, now, k)
      ensures |now| == |ls| && now[k] == ls[k] && (ls[k].backEdges != [] ==> ls[k].header < |g|)
      ensures forall i :: 0 <= i < |ls[k].backEdges| ==> ls[k].backEdges[i] < |g|
    {
      assert k > 0 ==> LoopOk(g, ls[k]);
    }

    /** `AddPreHeader`: the entries of the header of loop `k` go to a new block. */
    method AddPreHeader(k: nat) returns (n: Block)
      requires k < |loops| && Symmetric(graph.Abs()) && 0 < loops[k].header < |graph.succs|
      requires |graph.preds| == |graph.succs| && InRange(graph.succs, graph.preds[loops[k].header])
      modifies this`loops, this`domValid, graph
      ensures n == |old(graph.succs)| && !domValid && loops == old(loops)[k := old(loops)[k].(preHeader := n)]
      ensures EntriesMoved(old(graph.Abs()), graph.Abs(), old(loops)[k])
    {
      ghost var e := graph.Abs();
      var head, bck := loops[k].header, loops[k].backEdges;
      var pred := Entering(graph.preds[head], bck);
      OutsideReady(e, head, bck);
      hide Symmetric, RedirectAll, Redirectable, Outside, InRange;
      n := graph.NewBasicBlock(Plain);
      loops := loops[k := loops[k].(preHeader := n)];
      graph.RedirectEdges(pred, head, n);
      NothingFrom(e, pred, head);
      graph.AddEdge(n, head);
      domValid := false;
    }

    /** The predecessors that are no back edges. */
    method Entering(preds: seq<Block>, bck: seq<Block>) returns (pred: seq<Block>)
      ensures pred == Outside(preds, bck)
    {
      pred := [];
      for i := 0 to |preds|
        invariant pred == Outside(preds[..i], bck)
      {
        assert preds[..i + 1][..i] == preds[..i];
        if preds[i] !in bck {
          pred := pred + [preds[i]];
        }
      }
      assert preds[..|preds|] == preds;
    }

    lemma OutsideReady(e: Flow, h: Block, bck: seq<Block>)
      requires Symmetric(e) && h < |e.succs| && InRange(e.succs, e.preds[h])
      ensures var us := Outside(e.preds[h], bck);
        && InRange(e.succs, us) && NoRepeats(us) && Redirectable(WithBlock(e, Plain), us, h, |e.succs|)
    {
      var us := Outside(e.preds[h], bck);
      OutsideDistinct(e.preds[h], bck);
      forall i | 0 <= i < |us| ensures us[i] < |e.succs| {
        assert us[i] in us;
      }
      ReadyToRedirect(e, us, h);
    }

    lemma NothingFrom(e: Flow, us: seq<Block>, h: Block)
      requires Symmetric(e) && h < |e.succs| && InRange(e.succs, us) && InRange(WithBlock(e, Plain).succs, us)
      requires Redirectable(WithBlock(e, Plain), us, h, |e.succs|)
      ensures var r := RedirectAll(WithBlock(e, Plain), us, h, |e.succs|);
        r.succs[|e.succs|] == [] && |e.succs| !in r.preds[h]
    {
      RedirectAllLists(WithBlock(e, Plain), us, h, |e.succs|);
      assert InRange(e.succs, e.preds[h]);
      assert |e.succs| !in us;
    }

    lemma PreHeaderFacts(e: Flow, r: Flow, c: Program, next: Value, c0: Program, cs: seq<Change>, base: Value, l: Info)
      requires Good(e, c, next, c0, cs, base) && LoopOk(e.succs, l) && l.reducible && |l.backEdges| == 1
      requires EntriesMoved(e, r, l)
      ensures Prepared(e, r, c, next, c0, cs, base, l.header, l.backEdges[0])
    {
      var h, t := l.header, l.backEdges[0];
      GoodShape(e, c, next, c0, cs, base, h);
      var ps, us := Others(e.preds[h], t), Outside(e.preds[h], l.backEdges);
      OutsideReady(e, h, l.backEdges);
      HeaderEntries(e, h, t);
      assert l.backEdges == [t];
      hide Good, EntriesTo, Redirected, Dominates, Symmetric, Move, HaveEntries, PreHeaderFlow, InFront, NoRepeats,
           Edge;
      PreHeaderLists(e, us, h, ps);
      GoodNext(e, r, c, next, c0, cs, base, ps, h, t);
      InFrontIs(e, r, ps, h);
    }

    /** A pre-header for loop `k`, and phis in it. */
    method NormalizeLoop(k: nat)
      requires Ready() && 0 < k < |loops| && loops[k].reducible && |loops[k].backEdges| == 1
      modifies this`body, this`next, this`domValid, this`program, this`changes, this`loops, graph
      ensures Consistent() && !domValid
      ensures Changed(old(graph.Abs()), graph.Abs(), old(loops)[k].header, old(loops)[k].backEdges[0])
      ensures loops == old(loops)[k := old(loops)[k].(preHeader := |old(graph.succs)|)]
    {
      ghost var e := graph.Abs();
      var l := loops[k];
      LoopFacts(graph.succs, loops, k);
      hide Good, Changed, Symmetric, InRange, Prepared, Exact, LoopsOk, LoopOk, EntriesMoved, HasBody;
      GoodShape(e, program, next, start, changes, base, l.header);
      var n := AddPreHeader(k);
      PreHeaderFacts(e, graph.Abs(), program, next, start, changes, base, l);
      MovePhis(l.header, l.backEdges[0], n, e);
    }

    lemma LoopFacts(g: Graph, ls: seq<Info>, k: nat)
      requires LoopsOk(g, ls) && 0 < k < |ls|
      ensures LoopOk(g, ls[k]) && 0 < ls[k].header < |g|
    {}

    method AddPreHeaders()
      requires Ready() && Exact(graph.succs, loops) && AllSingle(loops)
      modifies this`body, this`next, this`domValid, this`program, this`changes, this`loops, graph
      ensures Ready() && Exact(graph.succs, loops) && NormalUpTo(graph.succs, loops, |loops|)
      ensures SameEdges(old(loops), loops) && DomKept(old(graph.succs), graph.succs)
      ensures Tidy(old(loops), |start.g|, |old(graph.succs)|) ==> Accounted(loops, |start.g|, |graph.succs|)
    {
      ghost var ls, g := loops, graph.succs;
      StartTidy(ls, |start.g|, |g|);
      NonEmpty(graph.succs, loops);
      DomKeptSelf(g);
      SameEdgesSelf(ls);
      hide Good, LoopsOk, Exact, AllSingle, NormalHeader, HasBody, Acyclic, DomKept, SameEdges, Changed, SameHeaders,
           Tidy, TidyUpTo, Accounted;
      for k := 1 to |loops|
        invariant Ready() && Exact(graph.succs, loops) && AllSingle(loops) && |loops| == |ls|
        invariant NormalUpTo(graph.succs, loops, k) && SameEdges(ls, loops) && DomKept(g, graph.succs)
        invariant Tidy(ls, |start.g|, |g|) ==> TidyUpTo(loops, |start.g|, |graph.succs|, k)
      {
        if Tidy(ls, |start.g|, |g|) {
          PreHeaderTidy(loops, |start.g|, |graph.succs|, k);
        }
        if loops[k].reducible {
          ghost var e, now := graph.Abs(), loops;
          OneBackEdge(graph.succs, loops, k);
          NormalizeLoop(k);
          PreHeaderStep(e, graph.Abs(), now, k);
          PreHeaderDoms(g, e, graph.Abs(), ls, now, k);
        }
      }
      if Tidy(ls, |start.g|, |g|) {
        AllTidy(loops, |start.g|, |graph.succs|);
      }
    }

    lemma PreHeaderDoms(g: Graph, e: Flow, r: Flow, ls: seq<Info>, now: seq<Info>, k: nat)
      requires k < |now| && |now[k].backEdges| > 0 && Changed(e, r, now[k].header, now[k].backEdges[0])
      requires DomKept(g, e.succs) && SameEdges(ls, now)
      ensures DomKept(g, r.succs) && SameEdges(ls, now[k := now[k].(preHeader := |e.succs|)])
      ensures |r.succs| == |e.succs| + 1
    {
      ChangedDoms(e, r, now[k].header, now[k].backEdges[0]);
      DomKeptTrans(g, e.succs, r.succs);
    }

    lemma StartTidy(ls: seq<Info>, n0: nat, n: nat)
      ensures Tidy(ls, n0, n) ==> TidyUpTo(ls, n0, n, 1)
    {}

    lemma AllTidy(ls: seq<Info>, n0: nat, n: nat)
      requires TidyUpTo(ls, n0, n, |ls|)
      ensures Accounted(ls, n0, n)
    {}

    lemma SameEdgesSelf(ls: seq<Info>)
      ensures SameEdges(ls, ls)
    {}

    /** Back edges are split and pre-headers are added; what the program computes does not change. */
    method Run()
      requires Ready()
      modifies this`body, this`next, this`domValid, this`program, this`changes, this`loops, graph
      ensures Ready() && SameHeaders(old(loops), loops)
      ensures Normalized(graph.succs, loops) && NestsUpTo(graph.succs, old(loops), loops, idToDfsIdx, |old(loops)|)
      ensures Preserved(start, program, changes, base) && program.g == graph.succs && program.body == body
      ensures NoPreHeaders(old(loops)) && |old(graph.succs)| == |start.g| ==> Accounted(loops, |start.g|, |graph.succs|)
    {
      hide Good, LoopsOk, Exact, AllSingle, NormalHeader, Acyclic, NestsUpTo, DomKept, AllRoles, Accounted;
      ghost var ls := loops;
      if NoPreHeaders(ls) {
        NothingNew(ls, |graph.succs|);
      }
      hide Tidy, NoPreHeaders, SameFrames;
      SplitBackEdges();
      ghost var split := loops;
      RecalculateLoopsReducibility();
      ghost var g := graph.succs;
      if Tidy(split, |start.g|, |g|) {
        TidyKept(split, loops, |start.g|, |g|);
      }
      AddPreHeaders();
      NestsKept(g, graph.succs, ls, split, loops, idToDfsIdx, |ls|);
      Conclude(graph.Abs(), program, next, start, changes, base);
    }

    lemma NothingNew(ls: seq<Info>, n: nat)
      requires NoPreHeaders(ls)
      ensures Tidy(ls, n, n)
    {}

    lemma Conclude(e: Flow, c: Program, next: Value, c0: Program, cs: seq<Change>, base: Value)
      requires Good(e, c, next, c0, cs, base)
      ensures c.g == e.succs && Preserved(c0, c, cs, base)
    {
      hide Preserved;
      ChainPreserves(c0, cs, base);
    }
  }

  /** Exactly the loops whose header dominates their back edges are marked reducible, and these have one
      back edge and a pre-header; without the back edges the graph is acyclic. */
  ghost predicate Normalized(g: Graph, ls: seq<Info>) {
    LoopsOk(g, ls) && Exact(g, ls) && NormalUpTo(g, ls, |ls|) && Acyclic(g, ls, 0, [])
  }

  /** The loops of `ls` have kept their headers; more may have been added. */
  ghost predicate SameHeaders(ls: seq<Info>, now: seq<Info>) {
    |ls| <= |now| && forall k :: 0 <= k < |ls| ==> now[k].header == ls[k].header
  }

  /** The first `k` loops of `ls` have been split. */
  ghost predicate SplitUpTo(ls: seq<Info>, now: seq<Info>, k: nat) {
    && SameHeaders(ls, now)
    && (forall j :: 0 <= j < |now| && (j < k || j >= |ls|) && now[j].reducible ==> |now[j].backEdges| <= 1)
    && (forall j :: k <= j < |ls| ==> now[j] == ls[j])
  }

  lemma SplitAt(ls: seq<Info>, now: seq<Info>, k: nat, edges: seq<Block>, n: Block)
    requires SplitUpTo(ls, now, k) && k < |ls| && |edges| > 0
    ensures SplitUpTo(ls, SplitLoops(now, k, edges, n, |edges| - 1), k + 1)
  {
    SplitLoopsAt(now, k, edges, n, |edges| - 1);
    hide SplitLoops;
  }

  /** The first `k` flags have been computed. */
  ghost predicate Checked(g: Graph, ls: seq<Info>, now: seq<Info>, k: nat) {
    && |now| == |ls|
    && (forall j :: 0 <= j < |ls| ==> now[j] == ls[j].(reducible := now[j].reducible))
    && (forall j :: 0 <= j < |ls| && j < k && ls[j].backEdges != [] ==>
          (now[j].reducible <==> TrulyReducible(g, ls[j])))
    && (forall j :: 0 <= j < |ls| && (j >= k || ls[j].backEdges == []) ==> now[j] == ls[j])
  }

  lemma AllChecked(g: Graph, ls: seq<Info>, now: seq<Info>)
    requires LoopsOk(g, ls) && AllSingle(ls) && Checked(g, ls, now, |ls|)
    ensures LoopsOk(g, now) && Exact(g, now) && AllSingle(now) && SameHeaders(ls, now) && SameFrames(ls, now)
    ensures forall k :: 0 <= k < |ls| ==> now[k].header == ls[k].header && now[k].backEdges == ls[k].backEdges
  {
    forall k | 0 < k < |now| ensures LoopOk(g, now[k]) && (now[k].reducible <==> TrulyReducible(g, now[k])) {
      assert LoopOk(g, ls[k]) && (TrulyReducible(g, now[k]) <==> TrulyReducible(g, ls[k]));
    }
    forall k | 0 <= k < |now| && now[k].reducible ensures |now[k].backEdges| <= 1 {
      assert k > 0 ==> LoopOk(g, ls[k]);
    }
  }

  lemma SameBacks(g: Graph, ls: seq<Info>, now: seq<Info>)
    requires Acyclic(g, ls, 0, []) && |ls| == |now|
    requires forall k :: 0 <= k < |ls| ==> now[k].header == ls[k].header && now[k].backEdges == ls[k].backEdges
    ensures Acyclic(g, now, 0, [])
  {
    forall u: Block, v: Block | IsBack(ls, u, v) ensures IsBack(now, u, v) {
      var k :| 0 < k < |ls| && ls[k].header == v && u in ls[k].backEdges;
      assert now[k].header == v;
    }
    AcyclicWith(g, ls, 0, [], now, 0, []);
  }

  lemma NonEmpty(g: Graph, ls: seq<Info>)
    requires LoopsOk(g, ls)
    ensures |ls| > 0
  {}

  lemma OneBackEdge(g: Graph, ls: seq<Info>, k: nat)
    requires LoopsOk(g, ls) && AllSingle(ls) && 0 < k < |ls| && ls[k].reducible
    ensures |ls[k].backEdges| == 1
  {
    assert LoopOk(g, ls[k]);
  }

  lemma OnlyLoop(g: Graph, ls: seq<Info>, k: nat)
    requires LoopsOk(g, ls) && 0 < k < |ls| && |ls[k].backEdges| == 1
    ensures LoopOk(g, ls[k]) && IsBack(ls, ls[k].backEdges[0], ls[k].header) && ls[k].backEdges == [ls[k].backEdges[0]]
    ensures forall j :: 0 < j < |ls| && ls[j].header == ls[k].header ==> ls[j].backEdges == [ls[k].backEdges[0]]
  {}

  lemma AcyclicKept(g: Graph, r: Graph, ps: set<Block>, h: Block, t: Block, ls: seq<Info>)
    requires Redirected(g, r, ps, h) && EntriesTo(g, ps, h, t) && Acyclic(g, ls, 0, []) && IsBack(ls, t, h)
    requires forall j :: 0 < j < |ls| && ls[j].header == h ==> ls[j].backEdges == [t]
    ensures Acyclic(r, ls, 0, [])
  {
    hide Redirected, EntriesTo, Acyclic, IsBack;
    AcyclicWith(g, ls, 0, [], ls, h, [t] + []);
    AcyclicNext(g, r, ps, h, t, ls, []);
    AcyclicWith(r, ls, |g|, [], ls, 0, []);
  }

  /** The pre-header of loop `k` makes that loop normal and leaves the others as they are. */
  lemma PreHeaderStep(e: Flow, r: Flow, ls: seq<Info>, k: nat)
    requires LoopsOk(e.succs, ls) && Exact(e.succs, ls) && AllSingle(ls) && NormalUpTo(e.succs, ls, k)
    requires 0 < k < |ls| && ls[k].reducible && |ls[k].backEdges| == 1
    requires Changed(e, r, ls[k].header, ls[k].backEdges[0]) && Acyclic(e.succs, ls, 0, [])
    ensures Acyclic(r.succs, ls[k := ls[k].(preHeader := |e.succs|)], 0, [])
    ensures var now := ls[k := ls[k].(preHeader := |e.succs|)];
      && LoopsOk(r.succs, now) && Exact(r.succs, now) && AllSingle(now) && NormalUpTo(r.succs, now, k + 1)
      && SameHeaders(ls, now)
  {
    var h, t := ls[k].header, ls[k].backEdges[0];
    var ps := Others(e.preds[h], t);
    var now := ls[k := ls[k].(preHeader := |e.succs|)];
    hide NormalHeader, LoopOk, LoopsOk, Exact, NormalUpTo, Redirected, EntriesTo, Acyclic, IsBack, TrulyReducible;
    OnlyLoop(e.succs, ls, k);
    SameLoopOk(e.succs, ls[k], |e.succs|);
    PreHeaderNormal(e.succs, r.succs, ps, h, t, now[k]);
    NotRedirected(e.succs, ps, h, t);
    LoopsNext(e.succs, r.succs, ps, h, t, ls);
    AcyclicKept(e.succs, r.succs, ps, h, t, ls);
    SameBacks(r.succs, ls, now);
    SamePreHeader(e.succs, r.succs, ls, now, k);
  }

  lemma SameLoopOk(g: Graph, l: Info, p: int)
    requires LoopOk(g, l)
    ensures LoopOk(g, l.(preHeader := p))
  {}

  /** The pre-header of a loop has no part in the other properties. */
  lemma SamePreHeader(g: Graph, r: Graph, ls: seq<Info>, now: seq<Info>, k: nat)
    requires LoopsOk(r, ls) && Exact(g, ls) && NormalUpTo(g, ls, k) && 0 < k < |ls|
    requires |now| == |ls| && now == ls[k := ls[k].(preHeader := now[k].preHeader)] && NormalHeader(r, now[k])
    requires forall j :: 0 < j < |ls| ==> (TrulyReducible(r, ls[j]) <==> TrulyReducible(g, ls[j]))
    requires forall j :: 0 < j < |ls| && j != k && NormalHeader(g, ls[j]) ==> NormalHeader(r, ls[j])
    ensures LoopsOk(r, now) && Exact(r, now) && NormalUpTo(r, now, k + 1)
  {
    hide NormalHeader;
    forall j | 0 < j < |now| ensures LoopOk(r, now[j]) && (TrulyReducible(r, now[j]) <==> TrulyReducible(r, ls[j])) {
      assert LoopOk(r, ls[j]);
    }
  }
}
