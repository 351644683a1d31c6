/** Collecting back edges by depth-first colouring (pass/loop_analysis.cpp:30-58). */
module BackEdges {
  import opened Cfg
  import opened Traversal
  import opened Orders

  type EdgeList = seq<(Block, Block)>

  /** The edges recorded by the visit of `b`; `vis` are the black blocks, `grey` those on the stack. */
  function Back(g: Graph, b: Block, vis: set<Block>, grey: set<Block>): EdgeList
    requires Valid(g) && b < |g|
    decreases All(g) - vis, 0
  {
    if b in vis then [] else BackList(g, b, g[b], vis + {b}, grey + {b})
  }

  function BackList(g: Graph, b: Block, ss: seq<Block>, vis: set<Block>, grey: set<Block>): EdgeList
    requires Valid(g) && InRange(g, ss)
    decreases All(g) - vis, |ss|
  {
    if ss == [] then []
    else
      (if ss[0] in grey then [(b, ss[0])] else [])
      + Back(g, ss[0], vis, grey)
      + BackList(g, b, ss[1..], vis + Elems(Pre(g, ss[0], vis)), grey)
  }

  // ---- Ancestors in the depth-first tree -----------------------------------------------------------

  /** `v` is an ancestor of `u` or `u` itself: it comes no later in preorder and no earlier in
      postorder. */
  ghost predicate Above(pre: seq<Block>, post: seq<Block>, v: Block, u: Block) {
    Ordered(pre, v, u) && Ordered(post, u, v)
  }

  lemma OrderedConcatIff(p: seq<Block>, q: seq<Block>, a: Block, b: Block)
    requires Distinct(p + q)
    ensures Ordered(p + q, a, b) <==> Ordered(p, a, b) || Ordered(q, a, b) || (a in p && b in q)
  {
    var r := p + q;
    if Ordered(p, a, b) || Ordered(q, a, b) {
      OrderedInConcat(p, q, a, b);
    }
    if a in p && b in q {
      var i :| 0 <= i < |p| && p[i] == a;
      var j :| 0 <= j < |q| && q[j] == b;
      assert r[i] == a && r[|p| + j] == b;
    }
    if Ordered(r, a, b) {
      var i, j :| 0 <= i <= j < |r| && r[i] == a && r[j] == b;
      if j < |p| {
        assert p[i] == a && p[j] == b;
      } else if i >= |p| {
        assert q[i - |p|] == a && q[j - |p|] == b;
      } else {
        assert p[i] == a && q[j - |p|] == b;
      }
    }
  }

  lemma OrderedMembers(r: seq<Block>, a: Block, b: Block)
    ensures Ordered(r, a, b) ==> a in r && b in r
  {}

  lemma DisjointParts(p: seq<Block>, q: seq<Block>, x: Block)
    requires Distinct(p + q) && x in p
    ensures x !in q
  {
    var i :| 0 <= i < |p| && p[i] == x;
    forall j | 0 <= j < |q| ensures q[j] != x {
      assert (p + q)[i] == x && (p + q)[|p| + j] == q[j];
    }
  }

  /** In two consecutive visits nothing in one is above anything in the other. */
  lemma AboveConcat(p: seq<Block>, q: seq<Block>, p': seq<Block>, q': seq<Block>, v: Block, u: Block)
    requires Distinct(p + q) && Distinct(p' + q') && Elems(p) == Elems(p') && Elems(q) == Elems(q')
    ensures u in p ==> (Above(p + q, p' + q', v, u) <==> Above(p, p', v, u))
    ensures u in q ==> (Above(p + q, p' + q', v, u) <==> Above(q, q', v, u))
  {
    OrderedConcatIff(p, q, v, u);
    OrderedConcatIff(p', q', u, v);
    Transfer(p, p');
    Transfer(q, q');
    OrderedMembers(p, v, u);
    OrderedMembers(q, v, u);
    OrderedMembers(p', u, v);
    OrderedMembers(q', u, v);
    if u in p {
      DisjointParts(p, q, u);
    }
    if v in p {
      DisjointParts(p, q, v);
    }
  }

  lemma Transfer(p: seq<Block>, q: seq<Block>)
    requires Elems(p) == Elems(q)
    ensures forall x :: x in p <==> x in q
  {
    forall x ensures x in p <==> x in q {
      assert x in p <==> x in Elems(p);
      assert x in q <==> x in Elems(q);
    }
  }

  /** Around a visit of the successors, `b` itself is above everything. */
  lemma AboveRoot(b: Block, p: seq<Block>, p': seq<Block>, v: Block, u: Block)
    requires Distinct([b] + p) && Distinct(p' + [b]) && Elems(p) == Elems(p')
    ensures u in p ==> (Above([b] + p, p' + [b], v, u) <==> v == b || Above(p, p', v, u))
    ensures Above([b] + p, p' + [b], v, b) <==> v == b
  {
    OrderedConcatIff([b], p, v, u);
    OrderedConcatIff(p', [b], u, v);
    OrderedConcatIff([b], p, v, b);
    OrderedConcatIff(p', [b], b, v);
    Transfer(p, p');
    DisjointParts([b], p, b);
    OrderedMembers(p, v, u);
    OrderedMembers(p', u, v);
    OrderedMembers(p, v, b);
    OrderedMembers(p', b, v);
    assert Ordered([b], b, b) by { assert [b][0] == b; }
  }

  // ---- What is recorded ----------------------------------------------------------------------------

  /** The visit order without repetition, and its two orders over the same blocks. */
  lemma VisitOrders(g: Graph, b: Block, vis: set<Block>)
    requires Valid(g) && b < |g|
    ensures Distinct(Pre(g, b, vis)) && Distinct(Post(g, b, vis)) && Elems(Pre(g, b, vis)) == Elems(Post(g, b, vis))
  {
    PreExplores(g, b, vis);
    PostExplores(g, b, vis);
  }

  lemma ListOrders(g: Graph, ss: seq<Block>, vis: set<Block>)
    requires Valid(g) && InRange(g, ss)
    ensures Distinct(PreList(g, ss, vis)) && Distinct(PostList(g, ss, vis))
    ensures Elems(PreList(g, ss, vis)) == Elems(PostList(g, ss, vis))
    ensures forall x :: x in PreList(g, ss, vis) ==> x !in vis && x < |g|
  {
    PreListExplores(g, ss, vis);
    PostListExplores(g, ss, vis);
  }

  /** During the visit of `b` exactly the edges to a block on the stack, or to an ancestor within the
      visit, are recorded. */
  lemma {:induction false} BackIff(g: Graph, b: Block, vis: set<Block>, grey: set<Block>, u: Block, v: Block)
    requires Valid(g) && b < |g| && grey <= vis && u < |g|
    ensures (u, v) in Back(g, b, vis, grey) <==>
      u in Pre(g, b, vis) && v in g[u] && (v in grey || Above(Pre(g, b, vis), Post(g, b, vis), v, u))
    decreases All(g) - vis, 0
  {
    if b !in vis {
      var vis', grey' := vis + {b}, grey + {b};
      BackListIff(g, b, g[b], vis', grey', u, v);
      VisitOrders(g, b, vis);
      ListOrders(g, g[b], vis');
      AboveRoot(b, PreList(g, g[b], vis'), PostList(g, g[b], vis'), v, u);
    }
  }

  lemma {:induction false} BackListIff(g: Graph, b: Block, ss: seq<Block>, vis: set<Block>, grey: set<Block>,
                                       u: Block, v: Block)
    requires Valid(g) && InRange(g, ss) && grey <= vis && b in vis && u < |g|
    ensures (u, v) in BackList(g, b, ss, vis, grey) <==>
      || (u == b && v in ss && v in grey)
      || (u in PreList(g, ss, vis) && v in g[u]
          && (v in grey || Above(PreList(g, ss, vis), PostList(g, ss, vis), v, u)))
    decreases All(g) - vis, |ss|
  {
    if ss != [] {
      var p, p' := Pre(g, ss[0], vis), Post(g, ss[0], vis);
      VisitOrders(g, ss[0], vis);
      var q, q' := PreList(g, ss[1..], vis + Elems(p)), PostList(g, ss[1..], vis + Elems(p));
      BackIff(g, ss[0], vis, grey, u, v);
      BackListIff(g, b, ss[1..], vis + Elems(p), grey, u, v);
      ListOrders(g, ss[1..], vis + Elems(p));
      ListOrders(g, ss, vis);
      AboveConcat(p, q, p', q', v, u);
      assert v in ss <==> v == ss[0] || v in ss[1..];
      hide Above, Pre, Post, PreList, PostList, Back;
      if u in p {
        DisjointParts(p, q, u);
      }
    }
  }

  // ---- Every cycle has a back edge -------------------------------------------------------------------

  /** An edge that is not recorded leads to a block that is finished earlier. */
  lemma {:induction false} NotBackIsForward(g: Graph, b: Block, vis: set<Block>, grey: set<Block>, u: Block, v: Block)
    requires Valid(g) && b < |g| && grey <= vis && u in Post(g, b, vis) && u < |g| && v in g[u]
    ensures v in vis || (u, v) in Back(g, b, vis, grey) || Ordered(Post(g, b, vis), v, u)
    decreases All(g) - vis, 0
  {
    var vis', grey' := vis + {b}, grey + {b};
    var l := PostList(g, g[b], vis');
    BackIff(g, b, vis, grey, u, v);
    VisitOrders(g, b, vis);
    Transfer(Pre(g, b, vis), Post(g, b, vis));
    ListOrders(g, g[b], vis');
    AboveRoot(b, PreList(g, g[b], vis'), l, v, u);
    if v == b {
      assert u == b || u in l;
      Transfer(PreList(g, g[b], vis'), l);
    } else if u == b {
      PreListExplores(g, g[b], vis');
      Transfer(PreList(g, g[b], vis'), l);
      if v !in vis {
        OrderedConcatIff(l, [b], v, b);
      }
    } else {
      NotBackInList(g, b, g[b], vis', grey', u, v);
      OrderedInConcatIf(l, [b], v, u);
    }
  }

  lemma OrderedInConcatIf(p: seq<Block>, q: seq<Block>, a: Block, b: Block)
    ensures Ordered(p, a, b) || Ordered(q, a, b) ==> Ordered(p + q, a, b)
  {
    if Ordered(p, a, b) || Ordered(q, a, b) {
      OrderedInConcat(p, q, a, b);
    }
  }

  lemma {:induction false} NotBackInList(g: Graph, b: Block, ss: seq<Block>, vis: set<Block>, grey: set<Block>,
                                         u: Block, v: Block)
    requires Valid(g) && InRange(g, ss) && grey <= vis && b in vis && u < |g| && v in g[u]
    requires u in PostList(g, ss, vis)
    ensures v in vis || (u, v) in BackList(g, b, ss, vis, grey) || Ordered(PostList(g, ss, vis), v, u)
    decreases All(g) - vis, |ss|
  {
    var p, p' := Pre(g, ss[0], vis), Post(g, ss[0], vis);
    VisitOrders(g, ss[0], vis);
    Transfer(p, p');
    var q' := PostList(g, ss[1..], vis + Elems(p'));
    ListOrders(g, ss, vis);
    OrderedConcatIff(p', q', v, u);
    if u in p' {
      NotBackIsForward(g, ss[0], vis, grey, u, v);
    } else {
      NotBackInList(g, b, ss[1..], vis + Elems(p), grey, u, v);
    }
  }

  /** The back edges of the graph. */
  function Recorded(g: Graph): EdgeList
    requires Valid(g)
  {
    Back(g, START, {}, {})
  }

  /** Colouring is complete: an edge is recorded exactly when it can be reached and leads to an ancestor
      in the depth-first tree, or to its own source. */
  lemma RecordedIff(g: Graph, u: Block, v: Block)
    requires Valid(g) && u < |g|
    ensures (u, v) in Recorded(g) <==>
      Reachable(g, u) && Edge(g, u, v) && Above(Pre(g, START, {}), Post(g, START, {}), v, u)
  {
    BackIff(g, START, {}, {}, u, v);
    PreorderComplete(g);
  }

  lemma StepDown(g: Graph, u: Block, v: Block)
    requires Valid(g) && Reachable(g, u) && u < |g| && Edge(g, u, v) && (u, v) !in Recorded(g)
    ensures var post := Post(g, START, {});
      u in post && v in post && IndexOf(post, v) < IndexOf(post, u)
  {
    var post := Post(g, START, {});
    PostorderComplete(g);
    assert u in post;
    NotBackIsForward(g, START, {}, {}, u, v);
    RecordedIff(g, u, v);
    PreorderComplete(g);
    var i, j :| 0 <= i <= j < |post| && post[i] == v && post[j] == u;
    IndexDistinct(post, i);
    IndexDistinct(post, j);
  }

  lemma IndexDistinct(post: seq<Block>, i: nat)
    requires Distinct(post) && i < |post|
    ensures IndexOf(post, post[i]) == i
  {}

  /** The `k`-th step of the path is a back edge. */
  ghost predicate BackAt(g: Graph, p: seq<Block>, k: nat)
    requires Valid(g) && k + 1 < |p|
  {
    (p[k], p[k + 1]) in Recorded(g)
  }

  lemma {:induction false} AllStepsDown(g: Graph, p: seq<Block>, i: nat)
    requires Valid(g) && IsPath(g, p) && Reachable(g, p[0]) && i < |p|
    requires forall k :: 0 <= k < i ==> !BackAt(g, p, k)
    ensures Reachable(g, p[i]) && p[0] in Post(g, START, {}) && p[i] in Post(g, START, {})
    ensures IndexOf(Post(g, START, {}), p[i]) + i <= IndexOf(Post(g, START, {}), p[0])
    decreases i
  {
    PostorderComplete(g);
    if i > 0 {
      AllStepsDown(g, p, i - 1);
      assert EdgeAt(g, p, i - 1) && !BackAt(g, p, i - 1);
      var q :| PathFromTo(g, q, START, p[i - 1]);
      PathExtend(g, q, p[i]);
      StepDown(g, p[i - 1], p[i]);
    }
  }

  /** Every cycle that can be reached contains a back edge, so without them the graph is acyclic. */
  lemma CycleHasBackEdge(g: Graph, p: seq<Block>)
    requires Valid(g) && IsPath(g, p) && |p| > 1 && p[0] == p[|p| - 1] && Reachable(g, p[0])
    ensures exists i :: 0 <= i < |p| - 1 && BackAt(g, p, i)
  {
    if forall i :: 0 <= i < |p| - 1 ==> !BackAt(g, p, i) {
      AllStepsDown(g, p, |p| - 1);
    }
  }

  // ---- Grouping by header ----------------------------------------------------------------------------

  datatype LoopInfo = LoopInfo(header: Block, backEdges: seq<Block>)

  /** `loopOf` points to the loop of a header; loop 0 is the root. */
  datatype Found = Found(loops: seq<LoopInfo>, loopOf: seq<int>)

  function Record(s: Found, u: Block, v: Block): (r: Found)
    requires v < |s.loopOf| && s.loopOf[v] < |s.loops|
    ensures |r.loopOf| == |s.loopOf|
  {
    var k := s.loopOf[v];
    if k < 0 then Found(s.loops + [LoopInfo(v, [u])], s.loopOf[v := |s.loops|])
    else s.(loops := s.loops[k := LoopInfo(s.loops[k].header, s.loops[k].backEdges + [u])])
  }

  ghost predicate Sane(s: Found) {
    && |s.loops| > 0 && s.loops[0].backEdges == []
    && (forall k :: 0 < k < |s.loops| ==> s.loops[k].backEdges != [])
    && (forall v :: 0 <= v < |s.loopOf| ==>
          s.loopOf[v] == NULL || (0 < s.loopOf[v] < |s.loops| && s.loops[s.loopOf[v]].header == v))
    && (forall k :: 0 < k < |s.loops| ==> s.loops[k].header < |s.loopOf| && s.loopOf[s.loops[k].header] == k)
  }

  /** The edges to a header, in the order of the list. */
  function EdgesTo(es: EdgeList, v: Block): seq<Block> {
    if es == [] then []
    else EdgesTo(es[..|es| - 1], v) + if es[|es| - 1].1 == v then [es[|es| - 1].0] else []
  }

  /** The loops hold exactly the recorded edges, grouped by header. */
  ghost predicate Groups(s: Found, es: EdgeList) {
    && Sane(s)
    && forall v :: 0 <= v < |s.loopOf| ==>
         if s.loopOf[v] == NULL then EdgesTo(es, v) == [] else s.loops[s.loopOf[v]].backEdges == EdgesTo(es, v)
  }

  lemma EdgesToSnoc(es: EdgeList, u: Block, v: Block, x: Block)
    ensures EdgesTo(es + [(u, v)], x) == EdgesTo(es, x) + if v == x then [u] else []
  {
    assert (es + [(u, v)])[..|es + [(u, v)]| - 1] == es;
  }

  lemma RecordSane(s: Found, u: Block, v: Block)
    requires Sane(s) && v < |s.loopOf|
    ensures Sane(Record(s, u, v))
  {}

  lemma RecordAt(s: Found, es: EdgeList, u: Block, v: Block, x: Block)
    requires Groups(s, es) && v < |s.loopOf| && x < |s.loopOf|
    ensures var r := Record(s, u, v);
      if r.loopOf[x] == NULL then EdgesTo(es + [(u, v)], x) == []
      else r.loopOf[x] < |r.loops| && r.loops[r.loopOf[x]].backEdges == EdgesTo(es + [(u, v)], x)
  {
    EdgesToSnoc(es, u, v, x);
    assert EdgesTo(es, x) + [] == EdgesTo(es, x);
    assert [] + [u] == [u];
    hide EdgesTo;
  }

  lemma RecordGroups(s: Found, es: EdgeList, u: Block, v: Block)
    requires Groups(s, es) && v < |s.loopOf|
    ensures Groups(Record(s, u, v), es + [(u, v)])
  {
    RecordSane(s, u, v);
    hide Sane, Record, EdgesTo;
    forall x | 0 <= x < |s.loopOf|
      ensures var r := Record(s, u, v);
        if r.loopOf[x] == NULL then EdgesTo(es + [(u, v)], x) == []
        else r.loopOf[x] < |r.loops| && r.loops[r.loopOf[x]].backEdges == EdgesTo(es + [(u, v)], x)
    {
      RecordAt(s, es, u, v, x);
    }
  }

  /** A block is a header exactly when an edge to it was recorded, and its loop lists the sources. */
  lemma {:induction false} EdgesToMembers(es: EdgeList, u: Block, v: Block)
    ensures u in EdgesTo(es, v) <==> (u, v) in es
    decreases |es|
  {
    if es != [] {
      EdgesToMembers(es[..|es| - 1], u, v);
      assert es == es[..|es| - 1] + [es[|es| - 1]];
    }
  }

  lemma BackListStep(g: Graph, b: Block, ss: seq<Block>, i: nat, vis: set<Block>, grey: set<Block>, before: EdgeList)
    requires Valid(g) && InRange(g, ss) && i < |ss|
    ensures var e := if ss[i] in grey then [(b, ss[i])] else [];
      && before + BackList(g, b, ss[i..], vis, grey)
           == (before + e + Back(g, ss[i], vis, grey)) +
               BackList(g, b, ss[i + 1..], vis + Elems(Pre(g, ss[i], vis)), grey)
      && (ss[i] in vis ==> Back(g, ss[i], vis, grey) == [] && Pre(g, ss[i], vis) == [])
  {
    assert ss[i..][1..] == ss[i + 1..];
    var e := if ss[i] in grey then [(b, ss[i])] else [];
    Assoc(before, e, Back(g, ss[i], vis, grey), BackList(g, b, ss[i + 1..], vis + Elems(Pre(g, ss[i], vis)), grey));
  }

  lemma Assoc(a: EdgeList, b: EdgeList, c: EdgeList, d: EdgeList)
    ensures a + (b + c + d) == (a + b + c) + d
  {}

  /** Blocks are numbered in the order in which they are visited. */
  function Number(m: map<Block, nat>, s: seq<Block>): map<Block, nat>
    decreases |s|
  {
    if s == [] then m else Number(m[s[0] := |m|], s[1..])
  }

  lemma {:induction false} NumberConcat(m: map<Block, nat>, s: seq<Block>, q: seq<Block>)
    ensures Number(m, s + q) == Number(Number(m, s), q)
    decreases |s|
  {
    if s == [] {
      assert s + q == q;
    } else {
      assert (s + q)[1..] == s[1..] + q;
      NumberConcat(m[s[0] := |m|], s[1..], q);
    }
  }

  /** The number of a block is its place in the order. */
  lemma {:induction false} NumberIsIndex(m: map<Block, nat>, s: seq<Block>, i: nat)
    requires Distinct(s) && i < |s| && forall j :: 0 <= j < |s| ==> s[j] !in m
    ensures s[i] in Number(m, s) && Number(m, s)[s[i]] == |m| + i
    ensures forall x :: x in m ==> x in Number(m, s) && Number(m, s)[x] == m[x]
    decreases |s|
  {
    var m' := m[s[0] := |m|];
    assert m'.Keys == m.Keys + {s[0]};
    forall j | 0 <= j < |s| - 1 ensures s[1..][j] == s[j + 1] && s[1..][j] !in m' {}
    if |s| > 1 {
      NumberIsIndex(m', s[1..], if i == 0 then 0 else i - 1);
    }
  }

  /** The collecting part of the pass.  `grey` and `black` are the two marks. */
  class BackEdgeCollector {
    const g: Graph
    var idToDfsIdx: map<Block, nat>
    var loops: seq<LoopInfo>
    var loopOf: seq<int>
    var grey: set<Block>
    var black: set<Block>
    ghost var recorded: EdgeList

    /** Blocks start without a loop. */
    constructor (g: Graph)
      ensures this.g == g && Fresh()
    {
      this.g := g;
      loopOf := seq(|g|, _ => NULL);
      loops, grey, black, recorded, idToDfsIdx := [], {}, {}, [], map[];
    }

    /** No block points to a loop.  The pass clears its own lists, but not these pointers, and nothing else
        clears them: this is what it needs of the blocks. */
    ghost predicate Fresh()
      reads this
    {
      |loopOf| == |g| && forall b :: 0 <= b < |loopOf| ==> loopOf[b] == NULL
    }

    ghost function State(): Found
      reads this
    {
      Found(loops, loopOf)
    }

    method Run()
      requires Valid(g) && Fresh()
      modifies this
      ensures recorded == Recorded(g) && Groups(State(), Recorded(g)) && |loopOf| == |g|
      ensures idToDfsIdx == Number(map[], Pre(g, START, {}))
    {
      loops := [LoopInfo(START, [])];
      grey, black, recorded, idToDfsIdx := {}, {}, [], map[];
      CollectBackEdges(START);
      assert [] + Recorded(g) == Recorded(g);
    }

    /** The visit of a block that is not black yet. */
    method CollectBackEdges(b: Block)
      requires Valid(g) && b < |g| == |loopOf| && b !in black && grey <= black && Groups(State(), recorded)
      modifies this
      ensures |loopOf| == |g| && Groups(State(), recorded)
      ensures recorded == old(recorded) + Back(g, b, old(black), old(grey))
      ensures grey == old(grey) && black == old(black) + Elems(Pre(g, b, old(black)))
      ensures idToDfsIdx == Number(old(idToDfsIdx), Pre(g, b, old(black)))
      decreases All(g) - (black + {b}), 1
    {
      ElemsConcat([b], PreList(g, g[b], black + {b}));
      NumberVisit(b);
      grey, black := grey + {b}, black + {b};
      idToDfsIdx := idToDfsIdx[b := |idToDfsIdx|];
      CollectFrom(b, g[b]);
      grey := grey - {b};
    }

    lemma NumberVisit(b: Block)
      requires Valid(g) && b < |g| && b !in black
      ensures Number(idToDfsIdx, Pre(g, b, black))
           == Number(idToDfsIdx[b := |idToDfsIdx|], PreList(g, g[b], black + {b}))
    {
      var rest := PreList(g, g[b], black + {b});
      assert ([b] + rest)[0] == b && ([b] + rest)[1..] == rest;
    }

    /** The loop over the successors. */
    method CollectFrom(b: Block, ss: seq<Block>)
      requires Valid(g) && b < |g| == |loopOf| && InRange(g, ss) && grey <= black && Groups(State(), recorded)
      modifies this
      ensures |loopOf| == |g| && Groups(State(), recorded)
      ensures recorded == old(recorded) + BackList(g, b, ss, old(black), old(grey))
      ensures grey == old(grey) && black == old(black) + Elems(PreList(g, ss, old(black)))
      ensures idToDfsIdx == Number(old(idToDfsIdx), PreList(g, ss, old(black)))
      decreases All(g) - black, 0
    {
      ghost var all, vis := recorded + BackList(g, b, ss, black, grey), black + Elems(PreList(g, ss, black));
      ghost var idx := Number(idToDfsIdx, PreList(g, ss, black));
      assert ss[0..] == ss;
      hide Groups, Back, BackList, PreList, Pre, Valid, Number;
      for i := 0 to |ss|
        invariant |loopOf| == |g| && Groups(State(), recorded) && old(black) <= black && grey == old(grey)
        invariant recorded + BackList(g, b, ss[i..], black, grey) == all
        invariant black + Elems(PreList(g, ss[i..], black)) == vis
        invariant Number(idToDfsIdx, PreList(g, ss[i..], black)) == idx
      {
        CollectStep(b, ss, i);
        NumberStep(ss, i);
        if ss[i] in grey {
          AddBackEdge(b, ss[i]);
        }
        if ss[i] !in black {
          CollectBackEdges(ss[i]);
        }
      }
      CollectEnd(b, ss);
    }

    lemma NumberStep(ss: seq<Block>, i: nat)
      requires Valid(g) && InRange(g, ss) && i < |ss|
      ensures var p := Pre(g, ss[i], black);
        && Number(idToDfsIdx, PreList(g, ss[i..], black))
             == Number(Number(idToDfsIdx, p), PreList(g, ss[i + 1..], black + Elems(p)))
        && (ss[i] in black ==> Number(idToDfsIdx, p) == idToDfsIdx)
    {
      assert ss[i..][1..] == ss[i + 1..];
      var p := Pre(g, ss[i], black);
      NumberConcat(idToDfsIdx, p, PreList(g, ss[i + 1..], black + Elems(p)));
    }

    lemma CollectStep(b: Block, ss: seq<Block>, i: nat)
      requires Valid(g) && InRange(g, ss) && i < |ss|
      ensures var e := if ss[i] in grey then [(b, ss[i])] else [];
        var p := Pre(g, ss[i], black);
        && ss[i] < |g| && ss[i] in All(g)
        && recorded + BackList(g, b, ss[i..], black, grey)
             == (recorded + e + Back(g, ss[i], black, grey)) + BackList(g, b, ss[i + 1..], black + Elems(p), grey)
        && recorded + [] + [] == recorded && recorded + e + [] == recorded + e
        && (ss[i] in black ==> Back(g, ss[i], black, grey) == [] && p == [] && black + Elems(p) == black)
        && black + Elems(PreList(g, ss[i..], black)) ==
               black + Elems(p) + Elems(PreList(g, ss[i + 1..], black + Elems(p)))
    {
      BackListStep(g, b, ss, i, black, grey, recorded);
      assert g[ss[i]] == g[ss[i]];
      assert ss[i..][1..] == ss[i + 1..];
      var p := Pre(g, ss[i], black);
      ElemsConcat(p, PreList(g, ss[i + 1..], black + Elems(p)));
    }

    lemma CollectEnd(b: Block, ss: seq<Block>)
      requires Valid(g) && InRange(g, ss)
      ensures recorded + BackList(g, b, ss[|ss|..], black, grey) == recorded
      ensures black + Elems(PreList(g, ss[|ss|..], black)) == black
      ensures Number(idToDfsIdx, PreList(g, ss[|ss|..], black)) == idToDfsIdx
    {
      assert ss[|ss|..] == [];
    }

    /** A new loop for a new header, or one more back edge for a known one. */
    method AddBackEdge(u: Block, v: Block)
      requires v < |loopOf| && Groups(State(), recorded)
      modifies this`loops, this`loopOf, this`recorded
      ensures |loopOf| == |old(loopOf)| && recorded == old(recorded) + [(u, v)] && Groups(State(), recorded)
      ensures State() == Record(old(State()), u, v)
    {
      RecordGroups(State(), recorded, u, v);
      var k := loopOf[v];
      if k == NULL {
        loops, loopOf := loops + [LoopInfo(v, [u])], loopOf[v := |loops|];
      } else {
        loops := loops[k := LoopInfo(loops[k].header, loops[k].backEdges + [u])];
      }
      recorded := recorded + [(u, v)];
    }
  }
}
