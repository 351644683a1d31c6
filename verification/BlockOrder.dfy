/** The linear order of the liveness pass (pass/liveness_analysis.cpp:22-87): a work list that
    keeps blocks of inner loops in front of blocks of the loops around them. */
module BlockOrder {
  import opened Cfg
  import opened Coverage
  import opened CoverageLimit
  import opened LiveRanges
  import opened LoopTree
  import opened Ssa

  datatype Work = Work(done: seq<Block>, queue: seq<Block>)

  /** `AllForwardEdgesVisited`. */
  ghost predicate Ready(g: Graph, t: Loops, done: seq<Block>, s: Block)
    requires WellFormed(g, t) && s < |g|
  {
    forall p: nat :: Edge(g, p, s) ==> p in done || (IsHeader(g, t, s) && Dominates(g, s, p))
  }

  /** `Loop::Inside`: strictly nested. */
  ghost predicate Inside(g: Graph, t: Loops, a: nat, b: nat)
    requires WellFormed(g, t) && a < |t.outer|
  {
    a != b && In(g, t, a, b)
  }

  ghost predicate Blocks(g: Graph, s: seq<Block>) {
    forall i :: 0 <= i < |s| ==> s[i] < |g|
  }

  /** The first queued block that is not in a loop strictly inside the loop of `s`. */
  ghost function InsertAt(g: Graph, t: Loops, queue: seq<Block>, s: Block): (k: nat)
    requires WellFormed(g, t) && s < |g| && Blocks(g, queue)
    ensures k <= |queue|
    ensures forall i :: 0 <= i < k ==> Inside(g, t, t.loopOf[queue[i]], t.loopOf[s])
    ensures k < |queue| ==> !Inside(g, t, t.loopOf[queue[k]], t.loopOf[s])
  {
    if queue == [] || !Inside(g, t, t.loopOf[queue[0]], t.loopOf[s]) then 0
    else 1 + InsertAt(g, t, queue[1..], s)
  }

  ghost function Insert(g: Graph, t: Loops, queue: seq<Block>, s: Block): seq<Block>
    requires WellFormed(g, t) && s < |g| && Blocks(g, queue)
  {
    var k := InsertAt(g, t, queue, s);
    queue[..k] + [s] + queue[k..]
  }

  ghost function Consider(g: Graph, t: Loops, w: Work, s: Block): (r: Work)
    requires WellFormed(g, t) && s < |g| && Blocks(g, w.queue)
    ensures r.done == w.done && Blocks(g, r.queue)
  {
    if s in w.done || !Ready(g, t, w.done, s) then w
    else Work(w.done, Insert(g, t, w.queue, s))
  }

  /** The successors `ss[..k]`, last one first. */
  ghost function ConsiderAll(g: Graph, t: Loops, w: Work, ss: seq<Block>, k: nat): (r: Work)
    requires WellFormed(g, t) && InRange(g, ss) && k <= |ss| && Blocks(g, w.queue)
    ensures r.done == w.done && Blocks(g, r.queue)
    decreases k
  {
    if k == 0 then w else ConsiderAll(g, t, Consider(g, t, w, ss[k - 1]), ss, k - 1)
  }

  /** One round of the work list. */
  ghost function Round(g: Graph, t: Loops, w: Work): (r: Work)
    requires Valid(g) && WellFormed(g, t) && Blocks(g, w.queue) && w.queue != []
    ensures r.done == w.done + [w.queue[0]] && Blocks(g, r.queue)
  {
    var b := w.queue[0];
    ConsiderAll(g, t, Work(w.done + [b], w.queue[1..]), g[b], |g[b]|)
  }

  // ---- What every round keeps -------------------------------------------------------------

  ghost predicate FwdReady(g: Graph, rank: seq<nat>, done: seq<Block>, s: Block)
    requires |rank| == |g|
  {
    forall p: nat :: Forward(g, rank, p, s) ==> p in done
  }

  ghost predicate Chain(g: Graph, t: Loops, queue: seq<Block>)
    requires WellFormed(g, t) && Blocks(g, queue)
  {
    forall i, j :: 0 <= i < j < |queue| ==> In(g, t, t.loopOf[queue[i]], t.loopOf[queue[j]])
  }

  /** Forward predecessors come first. */
  ghost predicate ForwardFirst(g: Graph, rank: seq<nat>, done: seq<Block>)
    requires |rank| == |g| && Blocks(g, done)
  {
    forall i :: 0 <= i < |done| ==> FwdReady(g, rank, done[..i], done[i])
  }

  /** Loop `k` has been entered and is not finished after the first `i` blocks. */
  ghost predicate Open(g: Graph, t: Loops, done: seq<Block>, i: nat, k: nat)
    requires WellFormed(g, t) && 0 < k < |t.outer| && i <= |done|
  {
    && t.header[k] in done[..i]
    && exists x :: 0 <= x < |g| && In(g, t, t.loopOf[x], k) && x !in done[..i]
  }

  /** While a loop is open only its blocks are emitted. */
  ghost predicate Contiguous(g: Graph, t: Loops, done: seq<Block>)
    requires WellFormed(g, t) && Blocks(g, done)
  {
    forall i, k :: 0 <= i < |done| && 0 < k < |t.outer| && Open(g, t, done, i, k) ==>
      In(g, t, t.loopOf[done[i]], k)
  }

  /** The queue holds exactly the blocks whose forward predecessors have all been emitted. */
  ghost predicate QueueExact(g: Graph, rank: seq<nat>, w: Work)
    requires |rank| == |g|
  {
    forall s :: 0 <= s < |g| && s !in w.done ==> (s in w.queue <==> FwdReady(g, rank, w.done, s))
  }

  ghost predicate Inv(g: Graph, t: Loops, rank: seq<nat>, w: Work)
    requires NormalForm(g, t, rank)
  {
    && Blocks(g, w.done) && Blocks(g, w.queue)
    && NoRepeats(w.done) && NoRepeats(w.queue) && (forall s :: s in w.queue ==> s !in w.done)
    && QueueExact(g, rank, w) && Chain(g, t, w.queue)
    && ForwardFirst(g, rank, w.done) && Contiguous(g, t, w.done)
  }

  // ---- The chain of loops in the queue --------------------------------------------------------

  /** Element `j` of `q` with `s` put in at `k`. */
  function Inserted(q: seq<nat>, k: nat, s: nat, j: nat): nat
    requires k <= |q| && j <= |q|
  {
    if j < k then q[j] else if j == k then s else q[j - 1]
  }

  lemma InsertedAt(q: seq<nat>, k: nat, s: nat, j: nat)
    requires k <= |q| && j <= |q|
    ensures (q[..k] + [s] + q[k..])[j] == Inserted(q, k, s, j)
  {}

  lemma InsertMembers(g: Graph, t: Loops, queue: seq<Block>, s: Block)
    requires WellFormed(g, t) && s < |g| && Blocks(g, queue) && NoRepeats(queue) && s !in queue
    ensures NoRepeats(Insert(g, t, queue, s))
    ensures forall x :: x in Insert(g, t, queue, s) <==> x in queue || x == s
  {
    var k := InsertAt(g, t, queue, s);
    hide InsertAt, WellFormed;
    var r := queue[..k] + [s] + queue[k..];
    assert queue == queue[..k] + queue[k..];
    forall i, j | 0 <= i < j < |r| ensures r[i] != r[j] {
      InsertedAt(queue, k, s, i);
      InsertedAt(queue, k, s, j);
      assert i != k ==> Inserted(queue, k, s, i) in queue;
      assert j != k ==> Inserted(queue, k, s, j) in queue;
    }
  }

  lemma InsertChain(g: Graph, t: Loops, queue: seq<Block>, s: Block)
    requires WellFormed(g, t) && s < |g| && Blocks(g, queue) && Chain(g, t, queue)
    requires forall x :: x in queue ==>
               In(g, t, t.loopOf[x], t.loopOf[s]) || In(g, t, t.loopOf[s], t.loopOf[x])
    ensures Chain(g, t, Insert(g, t, queue, s))
  {
    var k := InsertAt(g, t, queue, s);
    hide InsertAt;
    var r := queue[..k] + [s] + queue[k..];
    forall j | k <= j < |queue| ensures In(g, t, t.loopOf[s], t.loopOf[queue[j]]) {
      assert queue[k] in queue;
      if k < j {
        InTransitive(g, t, t.loopOf[s], t.loopOf[queue[k]], t.loopOf[queue[j]]);
      }
    }
    hide In;
    forall i, j | 0 <= i < j < |r| ensures In(g, t, t.loopOf[r[i]], t.loopOf[r[j]]) {
      InsertedAt(queue, k, s, i);
      InsertedAt(queue, k, s, j);
    }
  }

  ghost predicate Comparable(g: Graph, t: Loops, xs: set<Block>)
    requires WellFormed(g, t)
  {
    forall x, y :: x in xs && y in xs && x < |g| && y < |g| ==>
      In(g, t, t.loopOf[x], t.loopOf[y]) || In(g, t, t.loopOf[y], t.loopOf[x])
  }

  ghost predicate Eligible(g: Graph, t: Loops, done: seq<Block>, s: Block)
    requires WellFormed(g, t)
  {
    s < |g| && s !in done && Ready(g, t, done, s)
  }

  lemma ConsiderFacts(g: Graph, t: Loops, w: Work, s: Block, xs: set<Block>)
    requires WellFormed(g, t) && s < |g| && Blocks(g, w.queue)
    requires NoRepeats(w.queue) && Chain(g, t, w.queue) && Comparable(g, t, xs)
    requires forall x :: x in w.queue ==> x in xs
    requires Eligible(g, t, w.done, s) ==> s in xs && s !in w.queue
    ensures var r := Consider(g, t, w, s);
      && NoRepeats(r.queue) && Chain(g, t, r.queue)
      && forall x :: x in r.queue <==> x in w.queue || (x == s && Eligible(g, t, w.done, s))
  {
    if Eligible(g, t, w.done, s) {
      InsertMembers(g, t, w.queue, s);
      InsertChain(g, t, w.queue, s);
    }
  }

  /** Considering successors whose loops are comparable with those in the queue keeps the chain and
      queues exactly the eligible ones. */
  lemma {:induction false} ConsiderAllFacts(g: Graph, t: Loops, w: Work, ss: seq<Block>, k: nat, xs: set<Block>)
    requires WellFormed(g, t) && InRange(g, ss) && k <= |ss| && Blocks(g, w.queue)
    requires NoRepeats(ss) && NoRepeats(w.queue) && Chain(g, t, w.queue) && Comparable(g, t, xs)
    requires forall x :: x in w.queue ==> x in xs
    requires forall j :: 0 <= j < k && Eligible(g, t, w.done, ss[j]) ==> ss[j] in xs && ss[j] !in w.queue
    ensures var r := ConsiderAll(g, t, w, ss, k);
      && NoRepeats(r.queue) && Chain(g, t, r.queue)
      && forall x :: x in r.queue <==> x in w.queue || (x in ss[..k] && Eligible(g, t, w.done, x))
    decreases k
  {
    if k > 0 {
      var s := ss[k - 1];
      assert ss[..k] == ss[..k - 1] + [s];
      hide WellFormed, Eligible, Chain, Comparable, Consider;
      ConsiderFacts(g, t, w, s, xs);
      ConsiderAllFacts(g, t, Consider(g, t, w, s), ss, k - 1, xs);
    }
  }

  lemma ReadyIff(g: Graph, t: Loops, rank: seq<nat>, done: seq<Block>, s: Block)
    requires NormalForm(g, t, rank) && s < |g|
    ensures Ready(g, t, done, s) <==> FwdReady(g, rank, done, s)
  {
    if Ready(g, t, done, s) {
      forall p: nat | Forward(g, rank, p, s) ensures p in done {
        if IsHeader(g, t, s) && Dominates(g, s, p) {
          DominatorRank(g, t, rank, s, p);
        }
      }
    }
    if FwdReady(g, rank, done, s) {
      forall p: nat | Edge(g, p, s) ensures p in done || (IsHeader(g, t, s) && Dominates(g, s, p)) {
        assert Forward(g, rank, p, s) || BackEdge(g, t, p, s);
        assert BackEdge(g, t, p, s) ==> Dominates(g, s, p);
      }
    }
  }

  lemma DoneIsReady(g: Graph, rank: seq<nat>, done: seq<Block>, b: Block)
    requires |rank| == |g| && Blocks(g, done) && ForwardFirst(g, rank, done) && b in done
    ensures FwdReady(g, rank, done, b)
  {
    var i :| 0 <= i < |done| && done[i] == b;
    assert FwdReady(g, rank, done[..i], done[i]);
  }

  lemma StartDominator(g: Graph, d: Block)
    requires |g| > 0 && Dominates(g, d, START)
    ensures d == START
  {
    SinglePath(g, START);
    assert d in [START];
  }

  /** Dominators of a block whose forward predecessors are done are done. */
  lemma {:induction false} DominatorsDone(g: Graph, t: Loops, rank: seq<nat>, done: seq<Block>, d: Block, b: Block)
    requires NormalForm(g, t, rank) && Blocks(g, done) && ForwardFirst(g, rank, done)
    requires b < |g| && FwdReady(g, rank, done, b) && Dominates(g, d, b) && d != b
    ensures d in done
    decreases rank[b]
  {
    if b == START {
      StartDominator(g, d);
    } else {
      var q := ForwardPred(g, t, rank, b);
      forall p | PathFromTo(g, p, START, q) ensures d in p {
        PathExtend(g, p, b);
        assert d in p + [b];
      }
      if d != q {
        DoneIsReady(g, rank, done, q);
        hide NormalForm, ForwardFirst;
        DominatorsDone(g, t, rank, done, d, q);
      }
    }
  }

  /** A successor that is not done yet is reached over a forward edge, and is not queued yet. */
  lemma NewSuccessor(g: Graph, t: Loops, rank: seq<nat>, w: Work, s: Block)
    requires NormalForm(g, t, rank) && Inv(g, t, rank, w) && w.queue != []
    requires Edge(g, w.queue[0], s) && s !in w.done + [w.queue[0]]
    ensures s < |g| && Forward(g, rank, w.queue[0], s) && s !in w.queue
  {
    var b := w.queue[0];
    assert b in w.queue && b !in w.done;
    if BackEdge(g, t, b, s) {
      assert Dominates(g, s, b);
      assert FwdReady(g, rank, w.done, b);
      DominatorsDone(g, t, rank, w.done, s, b);
    }
    assert s in w.done + [b] <==> s in w.done || s == b;
  }

  /** The loop of a new successor contains the current block, or is entered through the pre-header,
      which has no other successor. */
  lemma SuccessorLoop(g: Graph, t: Loops, rank: seq<nat>, b: Block, s: Block)
    requires NormalForm(g, t, rank) && Forward(g, rank, b, s)
    ensures In(g, t, t.loopOf[b], t.loopOf[s]) || (g[b] == [s] && In(g, t, t.loopOf[s], t.loopOf[b]))
  {
    var k := t.loopOf[s];
    if k == 0 {
      InRoot(g, t, t.loopOf[b]);
    } else if IsHeader(g, t, s) {
      if b == t.latch[k] {
        HeaderFirstRank(g, t, rank, k);
      }
      assert b == t.preHeader[k];
      assert t.outer[k] == t.loopOf[b];
    } else {
      assert In(g, t, k, k);
      PredInLoop(g, t.header[k], t.latch[k], b, s);
    }
  }

  lemma HeaderFirstRank(g: Graph, t: Loops, rank: seq<nat>, k: nat)
    requires NormalForm(g, t, rank) && 0 < k < |t.outer|
    ensures rank[t.header[k]] <= rank[t.latch[k]]
  {
    assert Dominates(g, t.header[k], t.latch[k]);
    DominatorRank(g, t, rank, t.header[k], t.latch[k]);
  }

  /** A member of an open loop that is not done leads back to a queued member. */
  lemma {:induction false} QueuedMember(g: Graph, t: Loops, rank: seq<nat>, w: Work, k: nat, x: Block)
    returns (q: Block)
    requires NormalForm(g, t, rank) && Inv(g, t, rank, w) && 0 < k < |t.outer|
    requires t.header[k] in w.done && x < |g| && In(g, t, t.loopOf[x], k) && x !in w.done
    ensures q < |g| && q in w.queue && In(g, t, t.loopOf[q], k)
    decreases rank[x]
  {
    if FwdReady(g, rank, w.done, x) {
      q := x;
    } else {
      var p: nat :| Forward(g, rank, p, x) && p !in w.done;
      assert InNaturalLoop(g, t.header[k], t.latch[k], x);
      PredInLoop(g, t.header[k], t.latch[k], p, x);
      hide Inv;
      q := QueuedMember(g, t, rank, w, k, p);
    }
  }

  /** While a loop is open the front of the queue belongs to it. */
  lemma FrontInOpenLoop(g: Graph, t: Loops, rank: seq<nat>, w: Work, k: nat)
    requires NormalForm(g, t, rank) && Inv(g, t, rank, w) && 0 < k < |t.outer|
    requires w.queue != [] && Open(g, t, w.done, |w.done|, k)
    ensures In(g, t, t.loopOf[w.queue[0]], k)
  {
    assert w.done[..|w.done|] == w.done;
    var x :| 0 <= x < |g| && In(g, t, t.loopOf[x], k) && x !in w.done;
    var q := QueuedMember(g, t, rank, w, k, x);
    var j :| 0 <= j < |w.queue| && w.queue[j] == q;
    assert Chain(g, t, w.queue);
    if j > 0 {
      InTransitive(g, t, t.loopOf[w.queue[0]], t.loopOf[q], k);
    }
  }

  lemma DoneGrows(g: Graph, t: Loops, rank: seq<nat>, w: Work)
    requires NormalForm(g, t, rank) && Inv(g, t, rank, w) && w.queue != []
    ensures var done := w.done + [w.queue[0]];
      && Blocks(g, done) && NoRepeats(done) && ForwardFirst(g, rank, done) && Contiguous(g, t, done)
  {
    var b := w.queue[0];
    var done := w.done + [b];
    assert b in w.queue;
    assert forall i :: 0 <= i <= |w.done| ==> done[..i] == w.done[..i];
    assert w.done[..|w.done|] == w.done;
    assert FwdReady(g, rank, w.done, b);
    forall i | 0 <= i < |done| ensures FwdReady(g, rank, done[..i], done[i]) {
      if i < |w.done| {
        assert FwdReady(g, rank, w.done[..i], w.done[i]);
      }
    }
    forall i, k | 0 <= i < |done| && 0 < k < |t.outer| && Open(g, t, done, i, k)
      ensures In(g, t, t.loopOf[done[i]], k)
    {
      assert Open(g, t, w.done, i, k);
      if i == |w.done| {
        FrontInOpenLoop(g, t, rank, w, k);
      }
    }
  }

  /** Everything a round can have in its queue has pairwise nested loops. */
  lemma RoundComparable(g: Graph, t: Loops, rank: seq<nat>, w: Work)
    requires NormalForm(g, t, rank) && Inv(g, t, rank, w) && w.queue != []
    ensures Comparable(g, t, RoundBlocks(g, t, w))
  {
    var b := w.queue[0];
    var done := w.done + [b];
    forall x, y | x in RoundBlocks(g, t, w) && y in RoundBlocks(g, t, w) && x < |g| && y < |g|
      ensures In(g, t, t.loopOf[x], t.loopOf[y]) || In(g, t, t.loopOf[y], t.loopOf[x])
    {
      RoundLoop(g, t, rank, w, x);
      RoundLoop(g, t, rank, w, y);
      if g[b] == [x] && In(g, t, t.loopOf[x], t.loopOf[b]) {
        if In(g, t, t.loopOf[b], t.loopOf[y]) {
          InTransitive(g, t, t.loopOf[x], t.loopOf[b], t.loopOf[y]);
        } else {
          assert x == y;
        }
      } else if g[b] == [y] && In(g, t, t.loopOf[y], t.loopOf[b]) {
        InTransitive(g, t, t.loopOf[y], t.loopOf[b], t.loopOf[x]);
      } else {
        InComparable(g, t, t.loopOf[b], t.loopOf[x], t.loopOf[y]);
      }
    }
  }

  ghost function RoundBlocks(g: Graph, t: Loops, w: Work): set<Block>
    requires WellFormed(g, t) && Valid(g) && Blocks(g, w.queue) && w.queue != []
  {
    Elems(w.queue[1..])
      + (set s | s in g[w.queue[0]] && Eligible(g, t, w.done + [w.queue[0]], s))
  }

  lemma RoundLoop(g: Graph, t: Loops, rank: seq<nat>, w: Work, x: Block)
    requires NormalForm(g, t, rank) && Inv(g, t, rank, w) && w.queue != []
    requires x in RoundBlocks(g, t, w) && x < |g|
    ensures var b := w.queue[0];
      || In(g, t, t.loopOf[b], t.loopOf[x])
      || (g[b] == [x] && In(g, t, t.loopOf[x], t.loopOf[b]))
  {
    var b := w.queue[0];
    if x in w.queue[1..] {
      var j :| 0 <= j < |w.queue[1..]| && w.queue[1..][j] == x;
      assert w.queue[j + 1] == x;
      assert Chain(g, t, w.queue);
    } else {
      assert Edge(g, b, x);
      NewSuccessor(g, t, rank, w, x);
      SuccessorLoop(g, t, rank, b, x);
    }
  }

  lemma RoundQueue(g: Graph, t: Loops, rank: seq<nat>, w: Work)
    requires NormalForm(g, t, rank) && Inv(g, t, rank, w) && w.queue != []
    ensures var r := Round(g, t, w);
      && NoRepeats(r.queue) && Chain(g, t, r.queue)
      && forall x :: x in r.queue <==>
           x in w.queue[1..] || (x in g[w.queue[0]] && Eligible(g, t, r.done, x))
  {
    var b := w.queue[0];
    var w1 := Work(w.done + [b], w.queue[1..]);
    var ss := g[b];
    assert ss[..|ss|] == ss;
    RoundComparable(g, t, rank, w);
    forall j | 0 <= j < |ss| && Eligible(g, t, w1.done, ss[j])
      ensures ss[j] in RoundBlocks(g, t, w) && ss[j] !in w1.queue
    {
      assert Edge(g, b, ss[j]);
      NewSuccessor(g, t, rank, w, ss[j]);
    }
    assert InRange(g, ss) && NoRepeats(ss) && Chain(g, t, w1.queue);
    hide NormalForm, Comparable, Inv, Chain, Eligible, ConsiderAll;
    ConsiderAllFacts(g, t, w1, ss, |ss|, RoundBlocks(g, t, w));
  }

  lemma RoundExact(g: Graph, t: Loops, rank: seq<nat>, w: Work, s: Block)
    requires NormalForm(g, t, rank) && Inv(g, t, rank, w) && w.queue != [] && s < |g|
    requires s !in w.done + [w.queue[0]]
    ensures FwdReady(g, rank, w.done + [w.queue[0]], s) <==>
      s in w.queue[1..] || (s in g[w.queue[0]] && Eligible(g, t, w.done + [w.queue[0]], s))
  {
    var b := w.queue[0];
    var done := w.done + [b];
    ReadyIff(g, t, rank, done, s);
    assert w.queue == [b] + w.queue[1..];
    assert s in w.queue <==> FwdReady(g, rank, w.done, s);
    if FwdReady(g, rank, done, s) && !FwdReady(g, rank, w.done, s) {
      var p: nat :| Forward(g, rank, p, s) && p !in w.done;
      assert p == b;
    }
  }

  /** Every round keeps the invariant. */
  lemma RoundKeepsInv(g: Graph, t: Loops, rank: seq<nat>, w: Work)
    requires NormalForm(g, t, rank) && Inv(g, t, rank, w) && w.queue != []
    ensures Inv(g, t, rank, Round(g, t, w))
  {
    var b := w.queue[0];
    var r := Round(g, t, w);
    assert r.done == w.done + [b];
    DoneGrows(g, t, rank, w);
    RoundQueue(g, t, rank, w);
    forall s | 0 <= s < |g| && s !in r.done ensures s in r.queue <==> FwdReady(g, rank, r.done, s) {
      RoundExact(g, t, rank, w, s);
    }
    forall s | s in w.queue[1..] ensures s !in r.done {
      var j :| 0 <= j < |w.queue[1..]| && w.queue[1..][j] == s;
      assert w.queue[j + 1] == s && s in w.queue;
    }
    hide Chain, Contiguous, ForwardFirst, FwdReady, NormalForm, Round;
  }

  lemma StartInv(g: Graph, t: Loops, rank: seq<nat>)
    requires NormalForm(g, t, rank)
    ensures Inv(g, t, rank, Work([], [START]))
  {
    var w := Work([], [START]);
    forall s | 0 <= s < |g| ensures s in w.queue <==> FwdReady(g, rank, w.done, s) {
      if s == START {
        forall p: nat | Forward(g, rank, p, s) ensures false {
          StartDominates(g, p);
          DominatorRank(g, t, rank, START, p);
        }
      } else {
        var q := ForwardPred(g, t, rank, s);
      }
    }
  }

  lemma StartDominates(g: Graph, b: Block)
    ensures Dominates(g, START, b)
  {}

  // ---- What the finished order looks like --------------------------------------------------

  lemma {:induction false} NothingLeft(g: Graph, t: Loops, rank: seq<nat>, w: Work, b: Block)
    requires NormalForm(g, t, rank) && Inv(g, t, rank, w) && w.queue == [] && b < |g|
    ensures b in w.done
    decreases rank[b]
  {
    hide *;
    if b !in w.done {
      var p := MissingPred(g, t, rank, w, b);
      NothingLeft(g, t, rank, w, p);
    }
  }

  lemma MissingPred(g: Graph, t: Loops, rank: seq<nat>, w: Work, b: Block) returns (p: Block)
    requires NormalForm(g, t, rank) && Inv(g, t, rank, w) && w.queue == [] && b < |g| && b !in w.done
    ensures |rank| == |g| && p < |g| && rank[p] < rank[b] && p !in w.done
  {
    p :| Forward(g, rank, p, b) && p !in w.done;
  }

  /** The back edges in the shape the sweep looks them up. */
  ghost function Latches(g: Graph, t: Loops): map<Block, Block>
    requires WellFormed(g, t)
  {
    map b | 0 <= b < |g| && IsHeader(g, t, b) :: t.latch[t.loopOf[b]]
  }

  ghost predicate Finished(g: Graph, t: Loops, rank: seq<nat>, order: seq<Block>) {
    && NormalForm(g, t, rank) && Blocks(g, order) && NoRepeats(order)
    && (forall b :: 0 <= b < |g| ==> b in order)
    && ForwardFirst(g, rank, order) && Contiguous(g, t, order)
  }

  lemma WorkFinished(g: Graph, t: Loops, rank: seq<nat>, w: Work)
    requires NormalForm(g, t, rank) && Inv(g, t, rank, w) && w.queue == []
    ensures Finished(g, t, rank, w.done)
  {
    forall b | 0 <= b < |g| ensures b in w.done {
      NothingLeft(g, t, rank, w, b);
    }
  }

  lemma IndexAt(order: seq<Block>, i: nat)
    requires NoRepeats(order) && i < |order|
    ensures IndexOf(order, order[i]) == i
    ensures forall x :: x in order[..i] <==> x in order && IndexOf(order, x) < i
  {
    forall x | x in order[..i] ensures x in order && IndexOf(order, x) < i {
      var j :| 0 <= j < i && order[..i][j] == x;
      assert order[j] == x;
    }
    forall x | x in order && IndexOf(order, x) < i ensures x in order[..i] {
      assert order[..i][IndexOf(order, x)] == x;
    }
  }

  lemma PrefixForwardFirst(g: Graph, rank: seq<nat>, order: seq<Block>, i: nat)
    requires |rank| == |g| && Blocks(g, order) && ForwardFirst(g, rank, order) && i <= |order|
    ensures Blocks(g, order[..i]) && ForwardFirst(g, rank, order[..i])
  {
    var pre := order[..i];
    forall j | 0 <= j < |pre| ensures FwdReady(g, rank, pre[..j], pre[j]) {
      assert pre[..j] == order[..j];
      assert FwdReady(g, rank, order[..j], order[j]);
    }
  }

  lemma DominatorsFirst(g: Graph, t: Loops, rank: seq<nat>, order: seq<Block>, d: Block, b: Block)
    requires Finished(g, t, rank, order) && b in order && d in order && Dominates(g, d, b)
    ensures Before(order, d, b)
  {
    var i := IndexOf(order, b);
    IndexAt(order, i);
    if d != b {
      PrefixForwardFirst(g, rank, order, i);
      assert FwdReady(g, rank, order[..i], order[i]);
      DominatorsDone(g, t, rank, order[..i], d, b);
    }
  }

  lemma EdgesForward(g: Graph, t: Loops, rank: seq<nat>, order: seq<Block>, b: Block, s: Block)
    requires Finished(g, t, rank, order) && b in order && Edge(g, b, s)
    ensures s in order
    ensures IndexOf(order, b) < IndexOf(order, s) || (s in Latches(g, t) && Latches(g, t)[s] == b)
  {
    assert s < |g|;
    if !BackEdge(g, t, b, s) {
      assert Forward(g, rank, b, s);
      var i := IndexOf(order, s);
      IndexAt(order, i);
      assert FwdReady(g, rank, order[..i], order[i]);
    }
  }

  /** The finished order is as the sweep requires it, for every code over the graph. */
  lemma OrderIsTopological(g: Graph, t: Loops, rank: seq<nat>, order: seq<Block>, body: Code)
    requires Finished(g, t, rank, order) && |body| == |g|
    ensures Topological(Layout(g, body, order, Latches(g, t)))
  {
    var l := Layout(g, body, order, Latches(g, t));
    forall b, s | b in l.order && Edge(l.g, b, s)
      ensures s in l.order && (IndexOf(l.order, b) < IndexOf(l.order, s) || (s in l.latch && l.latch[s] == b))
    {
      EdgesForward(g, t, rank, order, b, s);
    }
    forall d, b | b in l.order && d in l.order && Dominates(l.g, d, b) ensures Before(l.order, d, b) {
      DominatorsFirst(g, t, rank, order, d, b);
    }
    hide ForwardFirst, Contiguous, Innermost;
  }

  lemma OrderPreHeaders(g: Graph, t: Loops, rank: seq<nat>, order: seq<Block>, body: Code)
    returns (pre: map<Block, Block>)
    requires Finished(g, t, rank, order) && |body| == |g|
    ensures WellFormed(g, t) && WellPlaced(Layout(g, body, order, Latches(g, t)))
    ensures HasPreHeaders(Layout(g, body, order, Latches(g, t)), pre)
  {
    hide ForwardFirst, Contiguous, Innermost;
    assert forall k :: 0 < k < |t.outer| ==> t.outer[k] != k;
    pre := map b | 0 <= b < |g| && IsHeader(g, t, b) :: t.preHeader[t.loopOf[b]];
  }

  /** Loops are laid out contiguously: between two blocks of a loop there are only its blocks. */
  lemma LoopsContiguous(g: Graph, t: Loops, rank: seq<nat>, order: seq<Block>, k: nat, x: Block, y: Block, i: nat)
    requires Finished(g, t, rank, order) && 0 < k < |t.outer| && x in order && y in order
    requires In(g, t, t.loopOf[x], k) && In(g, t, t.loopOf[y], k)
    requires IndexOf(order, x) <= i <= IndexOf(order, y)
    ensures In(g, t, t.loopOf[order[i]], k)
  {
    var h := t.header[k];
    assert InNaturalLoop(g, h, t.latch[k], x);
    HeaderDominatesLoop(g, h, t.latch[k], x);
    DominatorsFirst(g, t, rank, order, h, x);
    IndexAt(order, i);
    if order[i] == h {
      assert In(g, t, t.loopOf[h], k);
    } else if order[i] != y {
      assert y !in order[..i];
      assert Open(g, t, order, i, k);
    }
  }

  /** Every loop between the innermost loop of a latch and the loop of that latch has the same
      latch.  In particular a latch that lies directly in its own loop satisfies this. */
  ghost predicate LatchesShared(g: Graph, t: Loops)
    requires WellFormed(g, t)
  {
    forall k, k2 :: 0 < k < |t.outer| && 0 < k2 < |t.outer| ==>
      In(g, t, t.loopOf[t.latch[k]], k2) && In(g, t, k2, k) ==> t.latch[k2] == t.latch[k]
  }

  lemma LatchIsMember(g: Graph, t: Loops, rank: seq<nat>, k: nat)
    requires NormalForm(g, t, rank) && 0 < k < |t.outer|
    ensures In(g, t, t.loopOf[t.latch[k]], k)
  {
    LatchInLoop(g, t.header[k], t.latch[k]);
  }

  /** A loop whose members all precede its latch shares the latch with the loops in between. */
  lemma SharedFromOrder(g: Graph, t: Loops, rank: seq<nat>, order: seq<Block>, k: nat, k2: nat)
    requires Finished(g, t, rank, order) && 0 < k < |t.outer| && 0 < k2 < |t.outer|
    requires In(g, t, t.loopOf[t.latch[k]], k2) && In(g, t, k2, k)
    requires forall j, x :: 0 < j < |t.outer| && x in order && In(g, t, t.loopOf[x], j) ==>
               Before(order, x, t.latch[j])
    ensures t.latch[k2] == t.latch[k]
  {
    LatchIsMember(g, t, rank, k2);
    InTransitive(g, t, t.loopOf[t.latch[k2]], k2, k);
    assert Before(order, t.latch[k], t.latch[k2]) && Before(order, t.latch[k2], t.latch[k]);
  }

  /** Inside a loop with shared latches, predecessors of what has been emitted before the latch, or
      of the latch itself, have been emitted too. */
  lemma NothingLeftBehind(g: Graph, t: Loops, rank: seq<nat>, order: seq<Block>, k: nat, i: nat, u: Block, v: Block)
    requires Finished(g, t, rank, order) && LatchesShared(g, t) && 0 < k < |t.outer|
    requires i < |order| && order[i] == t.latch[k]
    requires Edge(g, u, v) && v != t.header[k] && (v in order[..i] || v == t.latch[k])
    requires InNaturalLoop(g, t.header[k], t.latch[k], v)
    ensures u in order[..i] || u == t.latch[k]
  {
    IndexAt(order, i);
    EdgesForward(g, t, rank, order, u, v);
    if !(u in order[..i]) {
      var k2 := t.loopOf[v];
      assert v == t.header[k2] && u == t.latch[k2] && 0 < k2;
      assert In(g, t, k2, k);
      if v != t.latch[k] {
        LatchIsMember(g, t, rank, k2);
        assert Open(g, t, order, i, k2);
      }
      assert In(g, t, t.loopOf[t.latch[k]], k2);
    }
  }

  lemma {:induction false} PathEmitted(g: Graph, t: Loops, rank: seq<nat>, order: seq<Block>, k: nat, i: nat,
                                       p: seq<Block>)
    requires Finished(g, t, rank, order) && LatchesShared(g, t) && 0 < k < |t.outer|
    requires i < |order| && order[i] == t.latch[k]
    requires IsPath(g, p) && p[|p| - 1] == t.latch[k] && t.header[k] !in p
    ensures p[0] in order[..i] || p[0] == t.latch[k]
    decreases |p|
  {
    if |p| > 1 {
      PathSlice(g, p, 1, |p|);
      var q := p[1..|p|];
      assert forall j :: 0 <= j < |q| ==> q[j] == p[j + 1];
      assert p[1] in p && EdgeAt(g, p, 0);
      assert InNaturalLoop(g, t.header[k], t.latch[k], q[0]);
      hide Finished, LatchesShared;
      PathEmitted(g, t, rank, order, k, i, q);
      NothingLeftBehind(g, t, rank, order, k, i, p[0], p[1]);
    }
  }

  /** When the latch of `k` is emitted the whole loop has been emitted, provided the loops around
      the latch inside `k` share it. */
  lemma LatchIsLast(g: Graph, t: Loops, rank: seq<nat>, order: seq<Block>, k: nat, x: Block)
    requires Finished(g, t, rank, order) && LatchesShared(g, t) && 0 < k < |t.outer| && x < |g|
    requires InNaturalLoop(g, t.header[k], t.latch[k], x)
    ensures Before(order, x, t.latch[k])
  {
    var h, l := t.header[k], t.latch[k];
    var i := IndexOf(order, l);
    IndexAt(order, i);
    if x == h {
      DominatorsFirst(g, t, rank, order, h, l);
    } else {
      var p :| PathFromTo(g, p, x, l) && h !in p;
      PathEmitted(g, t, rank, order, k, i, p);
    }
  }

  /** A loop header of the finished order, seen through the latch map. */
  lemma LatchLookup(g: Graph, t: Loops, rank: seq<nat>, order: seq<Block>, j: nat, x: Block)
    requires Finished(g, t, rank, order) && 0 < j < |t.outer| && x in order && In(g, t, t.loopOf[x], j)
    ensures t.header[j] in order && t.header[j] in Latches(g, t)
    ensures Latches(g, t)[t.header[j]] == t.latch[j]
    ensures InNaturalLoop(g, t.header[j], t.latch[j], x)
  {}

  /** The layout ends every loop with its latch exactly when latches are shared as above. */
  lemma EndsWithLatchIffShared(g: Graph, t: Loops, rank: seq<nat>, order: seq<Block>, body: Code)
    requires Finished(g, t, rank, order) && |body| == |g|
    ensures WellFormed(g, t) && WellPlaced(Layout(g, body, order, Latches(g, t)))
    ensures LoopsEndWithLatch(Layout(g, body, order, Latches(g, t))) <==> LatchesShared(g, t)
  {
    var l := Layout(g, body, order, Latches(g, t));
    OrderIsTopological(g, t, rank, order, body);
    if LatchesShared(g, t) {
      forall h, x | h in l.order && h in l.latch && x in l.order && InNaturalLoop(l.g, h, l.latch[h], x)
        ensures Before(l.order, x, l.latch[h])
      {
        LatchIsLast(g, t, rank, order, t.loopOf[h], x);
      }
    }
    if LoopsEndWithLatch(l) {
      SharedIfEnds(g, t, rank, order, l);
    }
  }

  lemma SharedIfEnds(g: Graph, t: Loops, rank: seq<nat>, order: seq<Block>, l: Layout)
    requires Finished(g, t, rank, order) && WellPlaced(l) && LoopsEndWithLatch(l)
    requires l.g == g && l.order == order && l.latch == Latches(g, t)
    ensures LatchesShared(g, t)
  {
    forall j, x | 0 < j < |t.outer| && x in order && In(g, t, t.loopOf[x], j)
      ensures Before(order, x, t.latch[j])
    {
      LatchLookup(g, t, rank, order, j, x);
    }
    hide LoopsEndWithLatch, WellPlaced, Latches;
    forall k, k2 | 0 < k < |t.outer| && 0 < k2 < |t.outer|
      && In(g, t, t.loopOf[t.latch[k]], k2) && In(g, t, k2, k)
      ensures t.latch[k2] == t.latch[k]
    {
      SharedFromOrder(g, t, rank, order, k, k2);
    }
  }

  /** The sweep over the finished order covers every live point of the program. */
  ghost predicate SoundFor(g: Graph, t: Loops, order: seq<Block>, body: Code)
    requires WellFormed(g, t)
  {
    var l := Layout(g, body, order, Latches(g, t));
    WellPlaced(l) && AllCovered(l)
  }

  /** The whole pass: on a normal-form graph the ranges cover every live point of every strict-SSA
      program if and only if every loop between a latch's innermost loop and the latch's own loop
      has that same latch. */
  lemma LivenessSoundIff(g: Graph, t: Loops, rank: seq<nat>, order: seq<Block>)
    requires Finished(g, t, rank, order)
    ensures (forall body: Code :: |body| == |g| && StrictSsa(g, body) ==> SoundFor(g, t, order, body))
       <==> LatchesShared(g, t)
  {
    hide *;
    var body0: Code := seq(|g|, _ => BasicBlock([], []));
    EndsWithLatchIffShared(g, t, rank, order, body0);
    OrderIsTopological(g, t, rank, order, body0);
    var pre := OrderPreHeaders(g, t, rank, order, body0);
    var l := Layout(g, body0, order, Latches(g, t));
    SoundIffLoopsEndWithLatch(l, pre);
    forall body: Code | |body| == |g|
      ensures WellPlaced(l.(body := body))
      ensures SoundFor(g, t, order, body) <==> AllCovered(l.(body := body))
    {
      SoundForBody(g, t, order, l, body);
    }
  }

  lemma SoundForBody(g: Graph, t: Loops, order: seq<Block>, l: Layout, body: Code)
    requires WellFormed(g, t) && |body| == |g| && WellPlaced(l) && l == Layout(g, l.body, order, Latches(g, t))
    ensures WellPlaced(l.(body := body))
    ensures SoundFor(g, t, order, body) <==> AllCovered(l.(body := body))
  {}
}
