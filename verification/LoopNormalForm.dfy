/** The phases of loop analysis together (pass/loop_analysis.cpp:10-28): what collecting back edges finds
    is what splitting needs, and what splitting, pre-headers and population leave behind is the normal
    form that liveness analysis starts from. */
module LoopNormalForm {
  import opened Cfg
  import opened Coverage
  import opened Traversal
  import opened NaturalLoops
  import opened HeaderShape
  import BE = BackEdges
  import HR = HeaderRewriter
  import LP = LoopPopulation
  import LT = LoopTree
  import DT = DominatorTree

  // ---- From collecting to splitting ------------------------------------------------------------------

  ghost predicate DistinctEdges(es: BE.EdgeList) {
    forall i, j :: 0 <= i < j < |es| ==> es[i] != es[j]
  }

  ghost predicate From(es: BE.EdgeList, xs: set<Block>) {
    forall e :: e in es ==> e.0 in xs
  }

  lemma DistinctAppend(es: BE.EdgeList, fs: BE.EdgeList)
    requires DistinctEdges(es) && DistinctEdges(fs) && forall e :: e in es ==> e !in fs
    ensures DistinctEdges(es + fs)
  {
    var r := es + fs;
    forall i, j | 0 <= i < j < |r| ensures r[i] != r[j] {
      if i < |es| <= j {
        assert es[i] in es && fs[j - |es|] in fs;
      }
    }
  }

  /** No edge is recorded twice. */
  lemma {:induction false} BackDistinct(g: Graph, b: Block, vis: set<Block>, grey: set<Block>)
    requires Valid(g) && b < |g| && forall x :: 0 <= x < |g| ==> NoRepeats(g[x])
    ensures DistinctEdges(BE.Back(g, b, vis, grey)) && From(BE.Back(g, b, vis, grey), Elems(Pre(g, b, vis)))
    decreases All(g) - vis, 0
  {
    if b !in vis {
      BackListDistinct(g, b, g[b], vis + {b}, grey + {b});
      ElemsConcat([b], PreList(g, g[b], vis + {b}));
    }
  }

  /** The edges recorded by the loop over `ss` start in `b`, and then lead into `ss`, or in new blocks. */
  ghost predicate FromOrInto(es: BE.EdgeList, b: Block, ss: seq<Block>, xs: set<Block>) {
    forall e :: e in es ==> (e.0 == b && e.1 in ss) || e.0 in xs
  }

  lemma {:induction false} BackListDistinct(g: Graph, b: Block, ss: seq<Block>, vis: set<Block>, grey: set<Block>)
    requires Valid(g) && InRange(g, ss) && b in vis && NoRepeats(ss) && forall x :: 0 <= x < |g| ==> NoRepeats(g[x])
    ensures DistinctEdges(BE.BackList(g, b, ss, vis, grey))
    ensures FromOrInto(BE.BackList(g, b, ss, vis, grey), b, ss, Elems(PreList(g, ss, vis)))
    ensures From(BE.BackList(g, b, ss, vis, grey), Elems(PreList(g, ss, vis)) + {b})
    decreases All(g) - vis, |ss|
  {
    if ss != [] {
      var p := Pre(g, ss[0], vis);
      var rest := ss[1..];
      RestRange(g, ss);
      BackDistinct(g, ss[0], vis, grey);
      BackListDistinct(g, b, rest, vis + Elems(p), grey);
      PreExplores(g, ss[0], vis);
      PreListExplores(g, rest, vis + Elems(p));
      ElemsConcat(p, PreList(g, rest, vis + Elems(p)));
      var first: BE.EdgeList := if ss[0] in grey then [(b, ss[0])] else [];
      var mid, last := BE.Back(g, ss[0], vis, grey), BE.BackList(g, b, rest, vis + Elems(p), grey);
      hide Pre, PreList, BE.Back, BE.BackList, Explored;
      PartsDistinct(first, mid, last, b, ss, Elems(p), Elems(PreList(g, rest, vis + Elems(p))), vis);
    }
  }

  lemma RestRange(g: Graph, ss: seq<Block>)
    requires InRange(g, ss) && NoRepeats(ss) && ss != []
    ensures InRange(g, ss[1..]) && NoRepeats(ss[1..]) && ss[0] !in ss[1..]
  {
    forall i | 0 <= i < |ss| - 1 ensures ss[1..][i] == ss[i + 1] {}
  }

  lemma PartsDistinct(first: BE.EdgeList, mid: BE.EdgeList, last: BE.EdgeList, b: Block, ss: seq<Block>,
                      xs: set<Block>, ys: set<Block>, vis: set<Block>)
    requires ss != [] && (first == [] || first == [(b, ss[0])]) && ss[0] !in ss[1..] && b in vis
    requires DistinctEdges(mid) && From(mid, xs) && DistinctEdges(last) && FromOrInto(last, b, ss[1..], ys)
    requires xs !! vis && ys !! vis && xs !! ys
    ensures DistinctEdges(first + mid + last) && FromOrInto(first + mid + last, b, ss, xs + ys)
    ensures From(first + mid + last, xs + ys + {b})
  {
    DistinctAppend(first, mid);
    DistinctAppend(first + mid, last);
  }

  lemma {:induction false} EdgesToDistinct(es: BE.EdgeList, v: Block)
    requires DistinctEdges(es)
    ensures NoRepeats(BE.EdgesTo(es, v))
    decreases |es|
  {
    if es != [] {
      var front, x := es[..|es| - 1], es[|es| - 1];
      EdgesToDistinct(front, v);
      BE.EdgesToMembers(front, x.0, v);
      if x.1 == v {
        assert x == (x.0, v) && x !in front;
        AppendDistinct(BE.EdgesTo(front, v), x.0);
      } else {
        assert BE.EdgesTo(front, v) + [] == BE.EdgesTo(front, v);
      }
    }
  }

  /** The loops that the back edges give.  The flag is what the dominator tree says at that time. */
  ghost function Collected(g: Graph, s: BE.Found): (r: seq<Info>)
    ensures |r| == |s.loops|
  {
    seq(|s.loops|, k requires 0 <= k < |s.loops| =>
      var l := Info(s.loops[k].header, s.loops[k].backEdges, false, NULL);
      l.(reducible := TrulyReducible(g, l)))
  }

  ghost predicate Collects(g: Graph, s: BE.Found)
    requires Valid(g)
  {
    BE.Groups(s, BE.Recorded(g)) && |s.loopOf| == |g|
  }

  lemma RecordedEdge(g: Graph, u: Block, v: Block)
    requires Valid(g) && (u, v) in BE.Recorded(g)
    ensures u < |g| && Edge(g, u, v)
  {
    BackSource(g, u, v);
    BE.RecordedIff(g, u, v);
  }

  lemma BackSource(g: Graph, u: Block, v: Block)
    requires Valid(g) && (u, v) in BE.Recorded(g)
    ensures u < |g|
  {
    BackFrom(g, START, {}, {}, u, v);
  }

  lemma {:induction false} BackFrom(g: Graph, b: Block, vis: set<Block>, grey: set<Block>, u: Block, v: Block)
    requires Valid(g) && b < |g| && (u, v) in BE.Back(g, b, vis, grey)
    ensures u < |g|
    decreases All(g) - vis, 0
  {
    BackListFrom(g, b, g[b], vis + {b}, grey + {b}, u, v);
  }

  lemma {:induction false} BackListFrom(g: Graph, b: Block, ss: seq<Block>, vis: set<Block>, grey: set<Block>,
                                        u: Block, v: Block)
    requires Valid(g) && b < |g| && InRange(g, ss) && (u, v) in BE.BackList(g, b, ss, vis, grey)
    ensures u < |g|
    decreases All(g) - vis, |ss|
  {
    if (u, v) in BE.Back(g, ss[0], vis, grey) {
      BackFrom(g, ss[0], vis, grey, u, v);
    } else if u != b {
      BackListFrom(g, b, ss[1..], vis + Elems(Pre(g, ss[0], vis)), grey, u, v);
    }
  }

  lemma CollectedLoop(g: Graph, s: BE.Found, k: nat)
    requires Valid(g) && Collects(g, s) && 0 < k < |s.loops|
    requires (forall u :: 0 <= u < |g| ==> NoRepeats(g[u])) && forall u: Block :: !Edge(g, u, START)
    ensures LoopOk(g, Collected(g, s)[k])
  {
    var l := Collected(g, s)[k];
    var es, v := BE.Recorded(g), s.loops[k].header;
    assert s.loopOf[v] == k && l.backEdges == BE.EdgesTo(es, v);
    BackDistinct(g, START, {}, {});
    EdgesToDistinct(es, v);
    hide BE.Recorded, BE.EdgesTo, Dominates;
    forall i | 0 <= i < |l.backEdges| ensures l.backEdges[i] < |g| && Edge(g, l.backEdges[i], v) {
      BE.EdgesToMembers(es, l.backEdges[i], v);
      RecordedEdge(g, l.backEdges[i], v);
    }
    assert Edge(g, l.backEdges[0], v);
  }

  /** What collecting back edges finds is what splitting starts from: apart from the recorded edges the
      graph is acyclic. */
  lemma CollectedIsReady(g: Graph, s: BE.Found)
    requires Valid(g) && Collects(g, s) && HR.AllReached(g)
    requires (forall u :: 0 <= u < |g| ==> NoRepeats(g[u])) && forall u: Block :: !Edge(g, u, START)
    ensures LoopsOk(g, Collected(g, s)) && HR.Exact(g, Collected(g, s)) && Acyclic(g, Collected(g, s), 0, [])
  {
    var ls := Collected(g, s);
    CollectedFlags(g, s);
    CollectedAcyclic(g, s);
    hide LoopOk, TrulyReducible, Acyclic, Edge;
    forall k | 0 < k < |ls| ensures LoopOk(g, ls[k]) {
      CollectedLoop(g, s, k);
    }
    forall j, k | 0 < j < k < |ls| ensures ls[j].header != ls[k].header {
      assert s.loopOf[s.loops[j].header] == j && s.loopOf[s.loops[k].header] == k;
    }
  }

  lemma CollectedFlags(g: Graph, s: BE.Found)
    ensures HR.Exact(g, Collected(g, s))
  {
    var ls := Collected(g, s);
    forall k | 0 < k < |ls| ensures ls[k].reducible <==> TrulyReducible(g, ls[k]) {
      hide Dominates;
    }
  }

  function Rank(g: Graph): (r: seq<nat>)
    requires Valid(g)
    ensures |r| == |g|
  {
    var post := Post(g, START, {});
    seq(|g|, b requires 0 <= b < |g| => if b in post then |post| - IndexOf(post, b) else 0)
  }

  lemma CollectedAcyclic(g: Graph, s: BE.Found)
    requires Valid(g) && Collects(g, s) && HR.AllReached(g)
    ensures Acyclic(g, Collected(g, s), 0, [])
  {
    var ls := Collected(g, s);
    forall u: Block, v: Block | Edge(g, u, v) ensures v < |g| && (Rank(g)[u] < Rank(g)[v] || IsBack(ls, u, v)) {
      assert InRange(g, g[u]) && Reachable(g, u);
      if (u, v) in BE.Recorded(g) {
        RecordedIsBack(g, s, u, v);
      } else {
        hide Collects, BE.Recorded;
        BE.StepDown(g, u, v);
      }
    }
    hide IsBack;
    assert Ranked(g, ls, 0, [], Rank(g));
  }

  lemma RecordedIsBack(g: Graph, s: BE.Found, u: Block, v: Block)
    requires Valid(g) && Collects(g, s) && v < |g| && (u, v) in BE.Recorded(g)
    ensures IsBack(Collected(g, s), u, v)
  {
    BE.EdgesToMembers(BE.Recorded(g), u, v);
    var k := s.loopOf[v];
    assert u in BE.EdgesTo(BE.Recorded(g), v);
    assert k > 0 && Collected(g, s)[k].header == v;
  }

  // ---- From pre-headers to the normal form -----------------------------------------------------------

  /** The loops as population sees them. */
  function HeadersOf(ls: seq<Info>): (l: LP.Headers)
    ensures |l.header| == |l.latch| == |l.reducible| == |ls|
  {
    LP.Headers(seq(|ls|, k requires 0 <= k < |ls| => ls[k].header),
               seq(|ls|, k requires 0 <= k < |ls| => if ls[k].backEdges == [] then START else ls[k].backEdges[0]),
               seq(|ls|, k requires 0 <= k < |ls| => ls[k].reducible))
  }

  function PreHeadersOf(ls: seq<Info>): (r: seq<nat>)
    ensures |r| == |ls|
  {
    seq(|ls|, k requires 0 <= k < |ls| => if ls[k].preHeader < 0 then 0 else ls[k].preHeader)
  }

  ghost predicate NoSelfLoops(ls: seq<Info>) {
    forall k :: 0 < k < |ls| && ls[k].reducible && |ls[k].backEdges| > 0 ==> ls[k].header != ls[k].backEdges[0]
  }

  /** The loops that splitting and pre-headers leave behind are what population starts from. */
  lemma SourcedHeaders(g: Graph, ls: seq<Info>)
    requires Valid(g) && HR.AllReached(g) && HR.Normalized(g, ls)
    ensures LP.Sourced(g, HeadersOf(ls))
    ensures LP.NoSelfLoop(HeadersOf(ls)) <==> NoSelfLoops(ls)
  {
    var l := HeadersOf(ls);
    hide HR.NormalUpTo, Acyclic, Dominates, Reachable, Edge;
    forall k | 0 < k < |ls|
      ensures 0 < l.header[k] < |g| && l.latch[k] < |g| && Edge(g, l.latch[k], l.header[k])
      ensures l.latch[k] == ls[k].backEdges[0] && (l.reducible[k] ==> Dominates(g, l.header[k], l.latch[k]))
    {
      assert LoopOk(g, ls[k]);
    }
    forall b | 0 <= b < |g| ensures Reachable(g, b) {}
  }

  /** What is known of loop `k` in the end. */
  ghost predicate Normal(g: Graph, l: LP.Headers, k: nat, p: Block)
    requires |l.header| == |l.latch| == |l.reducible|
  {
    && 0 < k < |l.header| && p < |g| && l.header[k] != START && p != l.latch[k] && g[p] == [l.header[k]]
    && Edge(g, l.latch[k], l.header[k]) && Dominates(g, l.header[k], l.latch[k])
    && forall u: Block :: Edge(g, u, l.header[k]) <==> u == l.latch[k] || u == p
  }

  lemma LoopIsNormal(g: Graph, ls: seq<Info>, k: nat)
    requires HR.Normalized(g, ls) && 0 < k < |ls| && ls[k].reducible
    ensures Normal(g, HeadersOf(ls), k, PreHeadersOf(ls)[k])
  {
    assert LoopOk(g, ls[k]) && NormalHeader(g, ls[k]);
  }

  /** A pre-header is no header of its own loop and no latch of another. */
  lemma PreHeaderApart(g: Graph, l: LP.Headers, k: nat, p: Block)
    requires LP.Proper(g, l) && LP.AllReducible(l) && Normal(g, l, k, p)
    ensures p != l.header[k]
    ensures forall j :: 0 < j < |l.header| && j != k ==> p != l.latch[j]
  {
    assert Reachable(g, l.header[k]);
    var u := EntryBeyond(g, l.header[k]);
    assert u == p;
    DT.SelfDominates(g, p);
    forall j | 0 < j < |l.header| && j != k ensures p != l.latch[j] {
      assert Edge(g, l.latch[j], l.header[j]);
      assert j < k || k < j;
    }
  }

  /** From the pre-header every path goes on through the header. */
  lemma ThroughHeader(g: Graph, h: Block, p: Block, q: seq<Block>)
    requires p < |g| && g[p] == [h] && IsPath(g, q) && q[0] == p && |q| > 1
    ensures q[1] == h && PathFromTo(g, q[1..|q|], h, q[|q| - 1])
  {
    assert EdgeAt(g, q, 0);
    PathSlice(g, q, 1, |q|);
  }

  lemma NotInOwnLoop(g: Graph, l: LP.Headers, k: nat, p: Block)
    requires LP.Proper(g, l) && LP.AllReducible(l) && Normal(g, l, k, p)
    ensures !InNaturalLoop(g, l.header[k], l.latch[k], p)
  {
    PreHeaderApart(g, l, k, p);
    var h, t := l.header[k], l.latch[k];
    forall q | PathFromTo(g, q, p, t) ensures h in q {
      assert |q| > 1;
      ThroughHeader(g, h, p, q);
      assert q[1] in q;
    }
  }

  /** The pre-header is in the same other loops as the header. */
  lemma SameOtherLoops(g: Graph, l: LP.Headers, k: nat, p: Block, j: nat)
    requires LP.Proper(g, l) && LP.AllReducible(l) && Normal(g, l, k, p) && 0 < j < |l.header| && j != k
    ensures InNaturalLoop(g, l.header[j], l.latch[j], p) <==> InNaturalLoop(g, l.header[j], l.latch[j], l.header[k])
  {
    var h, t := l.header[j], l.latch[j];
    assert h != l.header[k] by { assert j < k || k < j; }
    assert IsLoop(g, h, t) && Edge(g, p, l.header[k]) && Reachable(g, t);
    PreHeaderApart(g, l, k, p);
    if InNaturalLoop(g, h, t, l.header[k]) {
      PredInLoop(g, h, t, p, l.header[k]);
    }
    if InNaturalLoop(g, h, t, p) {
      hide LP.Proper, LP.AllReducible, Normal, Dominates;
      LeadsOn(g, h, t, p, l.header[k]);
    }
  }

  lemma LeadsOn(g: Graph, h: Block, t: Block, p: Block, x: Block)
    requires IsLoop(g, h, t) && Reachable(g, t) && p < |g| && g[p] == [x] && p != t && x != h
    requires InNaturalLoop(g, h, t, p)
    ensures InNaturalLoop(g, h, t, x)
  {
    if p == h {
      LatchInLoop(g, h, t);
      var q := HeaderLeadsTo(g, h, t, t);
      ThroughHeader(g, x, p, q);
      assert InNaturalLoop(g, h, t, q[1]) by { assert q[1] in q; }
    } else {
      var q :| PathFromTo(g, q, p, t) && h !in q;
      ThroughHeader(g, x, p, q);
      forall y | y in q[1..|q|] ensures y != h {
        assert y in q;
      }
    }
  }

  /** The innermost loop is unique. */
  lemma InnermostUnique(g: Graph, l: LP.Headers, p: Block, v: int, x: Block, but: nat, w: int)
    requires LP.Proper(g, l) && LP.AllReducible(l) && 0 <= v < |l.header| && 0 <= w < |l.header|
    requires LP.InnermostWith(g, l, p, NULL, v) && LP.InnermostWith(g, l, x, but, w)
    requires forall k: nat :: LP.Has(g, l, k, p) <==> LP.Has(g, l, k, x) && k != but
    ensures v == w
  {
    if v != w {
      assert v > 0 && w > 0;
      assert LP.Has(g, l, w, l.header[v]) && LP.Has(g, l, v, l.header[w]);
      hide LP.InnermostWith, Dominates, InNaturalLoop;
      HeadersDominate(g, l, v, w);
      HeadersDominate(g, l, w, v);
      assert l.header[v] != l.header[w] by { assert v < w || w < v; }
      assert Reachable(g, l.header[v]);
      var q :| PathFromTo(g, q, START, l.header[v]);
      DT.DominanceAntisymmetric(g, l.header[v], l.header[w], q);
    }
  }

  lemma HeadersDominate(g: Graph, l: LP.Headers, v: nat, w: nat)
    requires LP.Proper(g, l) && v < |l.header| && LP.Has(g, l, w, l.header[v])
    ensures Dominates(g, l.header[w], l.header[v])
  {
    LatchReached(g, l.header[w], l.latch[w], l.header[v]);
  }

  /** The pre-header is in the outer loop. */
  lemma PreHeaderOutside(g: Graph, l: LP.Headers, s: LP.Tree, k: nat, p: Block)
    requires LP.Built(g, l, s) && LP.AllReducible(l) && Normal(g, l, k, p)
    ensures s.loopOf[p] == s.outer[k]
  {
    assert LP.InnermostWith(g, l, p, NULL, s.loopOf[p]) && LP.InnermostWith(g, l, l.header[k], k, s.outer[k]);
    NotInOwnLoop(g, l, k, p);
    hide Normal, Dominates, InNaturalLoop, LP.InnermostWith;
    forall j: nat ensures LP.Has(g, l, j, p) <==> LP.Has(g, l, j, l.header[k]) && j != k {
      if 0 < j < |l.header| && j != k {
        SameOtherLoops(g, l, k, p, j);
      }
    }
    InnermostRange(g, l, p, NULL, s.loopOf[p]);
    InnermostRange(g, l, l.header[k], k, s.outer[k]);
    InnermostUnique(g, l, p, s.loopOf[p], l.header[k], k, s.outer[k]);
  }

  lemma InnermostRange(g: Graph, l: LP.Headers, x: Block, but: int, v: int)
    requires |l.latch| == |l.reducible| == |l.header| > 0 && LP.InnermostWith(g, l, x, but, v)
    ensures 0 <= v < |l.header|
  {}

  lemma HeadersAreNormal(g: Graph, ls: seq<Info>, s: LP.Tree, t: LT.Loops)
    requires Valid(g) && HR.Normalized(g, ls) && LP.Built(g, HeadersOf(ls), s) && LP.AllReducible(HeadersOf(ls))
    requires LT.WellFormed(g, t) && t.outer == s.outer && t.header == HeadersOf(ls).header
    requires t.latch == HeadersOf(ls).latch
    requires t.preHeader == PreHeadersOf(ls) && forall x :: 0 <= x < |g| ==> t.loopOf[x] == s.loopOf[x]
    requires forall k :: 0 < k < |ls| ==> s.loopOf[ls[k].header] == k
    ensures LT.HeadersNormal(g, t)
  {
    var l := HeadersOf(ls);
    forall k | 0 < k < |ls| ensures Normal(g, l, k, t.preHeader[k]) && s.loopOf[t.preHeader[k]] == s.outer[k] {
      LoopIsNormal(g, ls, k);
      PreHeaderOutside(g, l, s, k, t.preHeader[k]);
    }
    hide HR.Normalized, LP.Built, LP.AllReducible, Dominates;
  }

  lemma ForwardOrBack(g: Graph, ls: seq<Info>, s: LP.Tree, t: LT.Loops, rank: seq<nat>)
    requires Valid(g) && HR.Normalized(g, ls) && LP.AllReducible(HeadersOf(ls)) && Ranked(g, ls, 0, [], rank)
    requires LT.WellFormed(g, t) && t.header == HeadersOf(ls).header && t.latch == HeadersOf(ls).latch
    requires forall k :: 0 < k < |ls| ==> ls[k].header < |g| && t.loopOf[ls[k].header] == k
    ensures LT.Reducible(g, t, rank)
  {
    forall u: nat, v: nat | Edge(g, u, v) ensures v < |g| && (rank[u] < rank[v] || LT.BackEdge(g, t, u, v)) {
      if rank[u] >= rank[v] {
        assert IsBack(ls, u, v);
        var k :| 0 < k < |ls| && ls[k].header == v && u in ls[k].backEdges;
        OneLatch(g, ls, k, u);
        assert t.loopOf[v] == k;
      }
    }
  }

  lemma OneLatch(g: Graph, ls: seq<Info>, k: nat, u: Block)
    requires HR.Normalized(g, ls) && 0 < k < |ls| && LP.AllReducible(HeadersOf(ls)) && u in ls[k].backEdges
    ensures u == HeadersOf(ls).latch[k]
  {
    assert HeadersOf(ls).reducible[k] && NormalHeader(g, ls[k]);
  }

  /** Loop analysis establishes what liveness analysis assumes: if all loops are reducible and none is a
      single block, the graph with its loop tree is in normal form. */
  lemma AnalysisGivesNormalForm(g: Graph, ls: seq<Info>, po: seq<Block>, s: LP.Tree)
    requires Valid(g) && HR.AllReached(g) && (forall b :: 0 <= b < |g| ==> NoRepeats(g[b]))
    requires HR.Normalized(g, ls) && NoSelfLoops(ls) && LP.AllReducible(HeadersOf(ls))
    requires LP.Postorder(g, po) && LP.Built(g, HeadersOf(ls), s)
    ensures |PreHeadersOf(ls)| == |ls| && forall k :: 0 < k < |ls| ==> PreHeadersOf(ls)[k] < |g|
    ensures exists rank :: LT.NormalForm(g, LP.AsTree(g, HeadersOf(ls), po, s, PreHeadersOf(ls)), rank)
  {
    var l, pre := HeadersOf(ls), PreHeadersOf(ls);
    forall k | 0 < k < |ls| ensures pre[k] < |g| && ls[k].header < |g| {
      assert l.reducible[k];
      LoopIsNormal(g, ls, k);
      assert LoopOk(g, ls[k]);
    }
    var t := LP.AsTree(g, l, po, s, pre);
    LP.BuiltIsInnermost(g, l, po, s, pre);
    hide LP.Built, LP.Postorder, LP.AllReducible, LP.AsTree, NoSelfLoops, LT.Innermost;
    HeadersAreNormal(g, ls, s, t);
    RankOf(g, ls);
    hide HR.Normalized;
    var rank :| Ranked(g, ls, 0, [], rank);
    ForwardOrBack(g, ls, s, t, rank);
    hide Ranked, LT.HeadersNormal, LT.Reducible;
    RankLength(g, ls, rank);
    assert LT.NormalForm(g, t, rank);
  }

  lemma RankLength(g: Graph, ls: seq<Info>, rank: seq<nat>)
    requires Ranked(g, ls, 0, [], rank)
    ensures |rank| == |g|
  {}

  lemma RankOf(g: Graph, ls: seq<Info>)
    requires HR.Normalized(g, ls)
    ensures exists rank :: Ranked(g, ls, 0, [], rank)
  {}
}
