/** Which of the ready blocks comes next in the linear order of the liveness pass
    (pass/liveness_analysis.cpp:68-85): the one in the innermost loop, among these the one that has become ready
    last, and among successors of one block the one in the first slot. */
module OrderChoice {
  import opened Cfg
  import opened Coverage
  import opened LoopTree
  import opened BlockOrder
  import opened Ssa

  /** Block `x` has become ready with the `m`-th block of `done`. */
  ghost predicate Since(g: Graph, t: Loops, done: seq<Block>, x: Block, m: nat)
    requires WellFormed(g, t) && x < |g|
  {
    m <= |done| && Ready(g, t, done[..m], x) && forall k: nat :: k < m ==> !Ready(g, t, done[..k], x)
  }

  ghost predicate FirstSlot(ss: seq<Block>, x: Block, y: Block) {
    exists i, j :: 0 <= i < j < |ss| && ss[i] == x && ss[j] == y
  }

  /** `x` has become ready after `y`, or together with it and from an earlier slot. */
  ghost predicate Later(g: Graph, t: Loops, done: seq<Block>, x: Block, y: Block)
    requires WellFormed(g, t) && x < |g| && y < |g| && Blocks(g, done)
  {
    exists m: nat, n: nat {:trigger Since(g, t, done, x, m), Since(g, t, done, y, n)} ::
      && Since(g, t, done, x, m) && Since(g, t, done, y, n)
      && (n < m || (n == m > 0 && FirstSlot(g[done[m - 1]], x, y)))
  }

  /** Of two ready blocks `x` is taken before `y`. */
  ghost predicate Prefers(g: Graph, t: Loops, done: seq<Block>, x: Block, y: Block)
    requires WellFormed(g, t) && x < |g| && y < |g| && Blocks(g, done)
  {
    || Inside(g, t, t.loopOf[x], t.loopOf[y])
    || (t.loopOf[x] == t.loopOf[y] && Later(g, t, done, x, y))
  }

  /** Every block of the order is preferred to all others that were ready when it was taken. */
  ghost predicate Greedy(g: Graph, t: Loops, order: seq<Block>)
    requires WellFormed(g, t) && Blocks(g, order)
  {
    forall i: nat, y: Block :: i < |order| && Waits(g, t, order, i, y) ==> Prefers(g, t, order[..i], order[i], y)
  }

  /** `y` is ready after the first `i` blocks and is not taken then. */
  ghost predicate Waits(g: Graph, t: Loops, order: seq<Block>, i: nat, y: Block)
    requires WellFormed(g, t) && i < |order|
  {
    y < |g| && y !in order[..i + 1] && Ready(g, t, order[..i], y)
  }

  /** The queue is ordered by preference. */
  ghost predicate QueueOrder(g: Graph, t: Loops, done: seq<Block>, queue: seq<Block>)
    requires WellFormed(g, t) && Blocks(g, done) && Blocks(g, queue)
  {
    forall i, j :: 0 <= i < j < |queue| ==> Prefers(g, t, done, queue[i], queue[j])
  }

  ghost predicate Choice(g: Graph, t: Loops, w: Work)
    requires WellFormed(g, t)
  {
    && Blocks(g, w.done) && Blocks(g, w.queue)
    && Greedy(g, t, w.done) && QueueOrder(g, t, w.done, w.queue)
  }

  // ---- What has been decided stays -------------------------------------------------------------------

  lemma PrefersGrows(g: Graph, t: Loops, done: seq<Block>, b: Block, x: Block, y: Block)
    requires WellFormed(g, t) && x < |g| && y < |g| && Blocks(g, done) && b < |g| && Prefers(g, t, done, x, y)
    ensures Blocks(g, done + [b]) && Prefers(g, t, done + [b], x, y)
  {
    hide Ready, Inside, FirstSlot;
    if t.loopOf[x] == t.loopOf[y] && Later(g, t, done, x, y) {
      var m: nat, n: nat :| Since(g, t, done, x, m) && Since(g, t, done, y, n)
                            && (n < m || (n == m > 0 && FirstSlot(g[done[m - 1]], x, y)));
      SinceGrows(g, t, done, b, x, m);
      SinceGrows(g, t, done, b, y, n);
      assert m > 0 ==> (done + [b])[m - 1] == done[m - 1];
      assert Later(g, t, done + [b], x, y);
    }
  }

  lemma SinceGrows(g: Graph, t: Loops, done: seq<Block>, b: Block, x: Block, m: nat)
    requires WellFormed(g, t) && x < |g| && Since(g, t, done, x, m)
    ensures Since(g, t, done + [b], x, m)
  {
    hide WellFormed, Ready;
    forall k: nat | k <= m ensures (done + [b])[..k] == done[..k] {}
  }

  // ---- Putting a block into the queue ------------------------------------------------------------------

  /** `s` goes behind the blocks of inner loops and before those that became ready earlier. */
  lemma InsertOrder(g: Graph, t: Loops, done: seq<Block>, queue: seq<Block>, s: Block)
    requires WellFormed(g, t) && s < |g| && Blocks(g, done) && Blocks(g, queue) && QueueOrder(g, t, done, queue)
    requires Chain(g, t, queue)
    requires forall q :: q in queue ==>
               (In(g, t, t.loopOf[q], t.loopOf[s]) || In(g, t, t.loopOf[s], t.loopOf[q])) && Later(g, t, done, s, q)
    ensures Blocks(g, Insert(g, t, queue, s)) && QueueOrder(g, t, done, Insert(g, t, queue, s))
  {
    var k := InsertAt(g, t, queue, s);
    var r := queue[..k] + [s] + queue[k..];
    forall j | k <= j < |queue| ensures Prefers(g, t, done, s, queue[j]) {
      BehindInsertion(g, t, queue, s, k, j);
      assert queue[j] in queue;
    }
    hide InsertAt, Later, In, WellFormed, Chain;
    forall i, j | 0 <= i < j < |r| ensures Prefers(g, t, done, r[i], r[j]) {
      InsertedAt(queue, k, s, i);
      InsertedAt(queue, k, s, j);
    }
  }

  lemma BehindInsertion(g: Graph, t: Loops, queue: seq<Block>, s: Block, k: nat, j: nat)
    requires WellFormed(g, t) && s < |g| && Blocks(g, queue) && Chain(g, t, queue) && k <= j < |queue|
    requires !Inside(g, t, t.loopOf[queue[k]], t.loopOf[s])
    requires forall q :: q in queue ==> In(g, t, t.loopOf[q], t.loopOf[s]) || In(g, t, t.loopOf[s], t.loopOf[q])
    ensures In(g, t, t.loopOf[s], t.loopOf[queue[j]])
  {
    assert queue[k] in queue;
    if k < j {
      InTransitive(g, t, t.loopOf[s], t.loopOf[queue[k]], t.loopOf[queue[j]]);
    }
  }

  /** The eligible ones among the successors `ss[..k]` go before everything in the queue. */
  ghost predicate NewOnes(g: Graph, t: Loops, w: Work, ss: seq<Block>, k: nat)
    requires WellFormed(g, t) && k <= |ss| && Blocks(g, w.done) && Blocks(g, w.queue)
  {
    forall j, q :: 0 <= j < k && Eligible(g, t, w.done, ss[j]) && q in w.queue ==> Later(g, t, w.done, ss[j], q)
  }

  /** What is new in the queue is `s`, if that is eligible. */
  ghost predicate OnlyNew(g: Graph, t: Loops, w: Work, r: Work, s: Block)
    requires WellFormed(g, t)
  {
    forall x :: x in r.queue ==> x in w.queue || (x == s && Eligible(g, t, w.done, x))
  }

  lemma NewOnesNext(g: Graph, t: Loops, w: Work, ss: seq<Block>, k: nat, b: Block)
    requires WellFormed(g, t) && InRange(g, ss) && k < |ss| && Blocks(g, w.done) && Blocks(g, w.queue)
    requires NewOnes(g, t, w, ss, k + 1) && w.done != [] && b == w.done[|w.done| - 1] && ss == g[b]
    requires forall j :: 0 <= j < |ss| && Eligible(g, t, w.done, ss[j]) ==> Since(g, t, w.done, ss[j], |w.done|)
    requires OnlyNew(g, t, w, Consider(g, t, w, ss[k]), ss[k])
    ensures NewOnes(g, t, Consider(g, t, w, ss[k]), ss, k)
  {
    var r := Consider(g, t, w, ss[k]);
    hide WellFormed, Eligible, Consider, Since;
    forall j, q | 0 <= j < k && Eligible(g, t, r.done, ss[j]) && q in r.queue ensures Later(g, t, r.done, ss[j], q) {
      if q !in w.queue {
        assert FirstSlot(g[b], ss[j], ss[k]);
        assert Since(g, t, w.done, ss[j], |w.done|) && Since(g, t, w.done, ss[k], |w.done|);
      }
    }
  }

  lemma ConsiderOrder(g: Graph, t: Loops, w: Work, s: Block, xs: set<Block>)
    requires WellFormed(g, t) && s < |g| && Blocks(g, w.done) && Blocks(g, w.queue)
    requires Chain(g, t, w.queue) && Comparable(g, t, xs) && QueueOrder(g, t, w.done, w.queue)
    requires forall x :: x in w.queue ==> x in xs
    requires Eligible(g, t, w.done, s) ==> s in xs && forall q :: q in w.queue ==> Later(g, t, w.done, s, q)
    ensures QueueOrder(g, t, w.done, Consider(g, t, w, s).queue)
  {
    hide Later, QueueOrder;
    if Eligible(g, t, w.done, s) {
      InsertOrder(g, t, w.done, w.queue, s);
    }
  }

  /** The successors `ss[..k]` are still to be considered; `xs` holds all blocks that can be in the queue. */
  ghost predicate Considering(g: Graph, t: Loops, w: Work, ss: seq<Block>, k: nat, xs: set<Block>)
    requires WellFormed(g, t)
  {
    && InRange(g, ss) && k <= |ss| && Blocks(g, w.queue) && Blocks(g, w.done)
    && NoRepeats(ss) && NoRepeats(w.queue) && Chain(g, t, w.queue) && Comparable(g, t, xs)
    && (forall x :: x in w.queue ==> x in xs)
    && forall j :: 0 <= j < k && Eligible(g, t, w.done, ss[j]) ==> ss[j] in xs && ss[j] !in w.queue
  }

  /** They are the successors of the block taken last, and go before everything in the queue. */
  ghost predicate InOrder(g: Graph, t: Loops, w: Work, ss: seq<Block>, k: nat)
    requires WellFormed(g, t)
  {
    && InRange(g, ss) && k <= |ss| && Blocks(g, w.queue) && Blocks(g, w.done)
    && w.done != [] && ss == g[w.done[|w.done| - 1]]
    && (forall j :: 0 <= j < |ss| && Eligible(g, t, w.done, ss[j]) ==> Since(g, t, w.done, ss[j], |w.done|))
    && QueueOrder(g, t, w.done, w.queue) && NewOnes(g, t, w, ss, k)
  }

  lemma ConsideringNext(g: Graph, t: Loops, w: Work, ss: seq<Block>, k: nat, xs: set<Block>)
    requires WellFormed(g, t) && Considering(g, t, w, ss, k, xs) && k > 0
    ensures InRange(g, ss) && k <= |ss| && Blocks(g, w.queue)
    ensures Considering(g, t, Consider(g, t, w, ss[k - 1]), ss, k - 1, xs)
    ensures OnlyNew(g, t, w, Consider(g, t, w, ss[k - 1]), ss[k - 1])
  {
    hide WellFormed, Eligible, Chain, Comparable, Consider;
    ConsiderFacts(g, t, w, ss[k - 1], xs);
  }

  lemma InOrderNext(g: Graph, t: Loops, w: Work, ss: seq<Block>, k: nat, xs: set<Block>)
    requires WellFormed(g, t) && Considering(g, t, w, ss, k, xs) && InOrder(g, t, w, ss, k) && k > 0
    requires OnlyNew(g, t, w, Consider(g, t, w, ss[k - 1]), ss[k - 1])
    ensures InOrder(g, t, Consider(g, t, w, ss[k - 1]), ss, k - 1)
  {
    FirstOfNew(g, t, w, ss, k);
    ConsideringFacts(g, t, w, ss, k, xs);
    hide WellFormed, Eligible, Chain, Comparable, Consider, QueueOrder, NewOnes, Since, Later, NoRepeats, OnlyNew,
         Blocks, InRange;
    ConsiderOrder(g, t, w, ss[k - 1], xs);
    NewOnesNext(g, t, w, ss, k - 1, w.done[|w.done| - 1]);
  }

  ghost predicate Processing(g: Graph, t: Loops, w: Work, ss: seq<Block>, k: nat, xs: set<Block>)
    requires WellFormed(g, t)
  {
    Considering(g, t, w, ss, k, xs) && InOrder(g, t, w, ss, k)
  }

  lemma ProcessingNext(g: Graph, t: Loops, w: Work, ss: seq<Block>, k: nat, xs: set<Block>)
    requires WellFormed(g, t) && InRange(g, ss) && 0 < k <= |ss| && Blocks(g, w.queue)
    requires Processing(g, t, w, ss, k, xs)
    ensures Processing(g, t, Consider(g, t, w, ss[k - 1]), ss, k - 1, xs)
  {
    hide WellFormed, Considering, InOrder, Consider, InRange, Blocks, OnlyNew;
    ConsideringNext(g, t, w, ss, k, xs);
    InOrderNext(g, t, w, ss, k, xs);
  }

  lemma {:induction false} ConsiderAllOrder(g: Graph, t: Loops, w: Work, ss: seq<Block>, k: nat, xs: set<Block>)
    requires WellFormed(g, t) && InRange(g, ss) && k <= |ss| && Blocks(g, w.queue) && Blocks(g, w.done)
    requires Processing(g, t, w, ss, k, xs)
    ensures QueueOrder(g, t, w.done, ConsiderAll(g, t, w, ss, k).queue)
    decreases k
  {
    hide WellFormed, Processing, Consider, QueueOrder, Blocks;
    if k > 0 {
      ProcessingNext(g, t, w, ss, k, xs);
      ConsiderAllOrder(g, t, Consider(g, t, w, ss[k - 1]), ss, k - 1, xs);
    } else {
      ProcessingFacts(g, t, w, ss, k, xs);
    }
  }

  lemma ProcessingFacts(g: Graph, t: Loops, w: Work, ss: seq<Block>, k: nat, xs: set<Block>)
    requires WellFormed(g, t) && Processing(g, t, w, ss, k, xs)
    ensures Blocks(g, w.queue) && Blocks(g, w.done) && QueueOrder(g, t, w.done, w.queue)
  {}

  lemma ConsideringFacts(g: Graph, t: Loops, w: Work, ss: seq<Block>, k: nat, xs: set<Block>)
    requires WellFormed(g, t) && Considering(g, t, w, ss, k, xs) && InOrder(g, t, w, ss, k)
    ensures InRange(g, ss) && k <= |ss| && Blocks(g, w.queue) && Blocks(g, w.done)
    ensures (forall j :: 0 <= j < |ss| ==> ss[j] < |g|) && QueueOrder(g, t, w.done, w.queue)
  {}

  lemma FirstOfNew(g: Graph, t: Loops, w: Work, ss: seq<Block>, k: nat)
    requires WellFormed(g, t) && 0 < k <= |ss| && Blocks(g, w.done) && Blocks(g, w.queue) && NewOnes(g, t, w, ss, k)
    ensures Eligible(g, t, w.done, ss[k - 1]) ==> forall q :: q in w.queue ==> Later(g, t, w.done, ss[k - 1], q)
  {
    hide Later, Eligible;
  }

  // ---- One round ---------------------------------------------------------------------------------------

  /** A new successor becomes ready with the block in front. */
  lemma ReadyNow(g: Graph, t: Loops, rank: seq<nat>, w: Work, s: Block)
    requires NormalForm(g, t, rank) && Inv(g, t, rank, w) && w.queue != []
    requires s in g[w.queue[0]] && Eligible(g, t, w.done + [w.queue[0]], s)
    ensures Since(g, t, w.done + [w.queue[0]], s, |w.done| + 1)
  {
    var b := w.queue[0];
    var done := w.done + [b];
    assert Edge(g, b, s);
    NewSuccessor(g, t, rank, w, s);
    assert b in w.queue && done[..|done|] == done;
    forall k: nat | k < |done| ensures !Ready(g, t, done[..k], s) {
      assert done[..k] == w.done[..k];
      if Ready(g, t, done[..k], s) {
        assert b !in w.done[..k];
        DominatorRank(g, t, rank, s, b);
      }
    }
  }

  lemma {:induction false} SinceExists(g: Graph, t: Loops, done: seq<Block>, x: Block, k: nat) returns (m: nat)
    requires WellFormed(g, t) && x < |g| && k <= |done| && Ready(g, t, done[..k], x)
    ensures m <= k && Since(g, t, done, x, m)
    decreases k
  {
    if j: nat :| j < k && Ready(g, t, done[..j], x) {
      m := SinceExists(g, t, done, x, j);
    } else {
      m := k;
    }
  }

  /** What was in the queue has been ready before. */
  lemma QueuedBefore(g: Graph, t: Loops, rank: seq<nat>, w: Work, q: Block) returns (m: nat)
    requires NormalForm(g, t, rank) && Inv(g, t, rank, w) && q in w.queue
    ensures q < |g| && m <= |w.done| && Since(g, t, w.done, q, m)
  {
    assert q < |g| && FwdReady(g, rank, w.done, q) && q !in w.done;
    ReadyIff(g, t, rank, w.done, q);
    assert w.done[..|w.done|] == w.done;
    m := SinceExists(g, t, w.done, q, |w.done|);
  }

  lemma RoundNewOnes(g: Graph, t: Loops, rank: seq<nat>, w: Work)
    requires NormalForm(g, t, rank) && Inv(g, t, rank, w) && w.queue != []
    ensures var w1 := Work(w.done + [w.queue[0]], w.queue[1..]);
      var ss := g[w.queue[0]];
      && Blocks(g, w1.done) && Blocks(g, w1.queue) && NewOnes(g, t, w1, ss, |ss|)
      && forall j :: 0 <= j < |ss| && Eligible(g, t, w1.done, ss[j]) ==> Since(g, t, w1.done, ss[j], |w1.done|)
  {
    var w1 := Work(w.done + [w.queue[0]], w.queue[1..]);
    var ss := g[w.queue[0]];
    assert w.queue == [w.queue[0]] + w.queue[1..] && w.queue[0] in w.queue;
    forall j | 0 <= j < |ss| && Eligible(g, t, w1.done, ss[j]) ensures Since(g, t, w1.done, ss[j], |w1.done|) {
      ReadyNow(g, t, rank, w, ss[j]);
    }
    forall j, q | 0 <= j < |ss| && Eligible(g, t, w1.done, ss[j]) && q in w1.queue
      ensures Later(g, t, w1.done, ss[j], q)
    {
      hide Inv, NormalForm, Since, Eligible;
      var m := QueuedBefore(g, t, rank, w, q);
      SinceGrows(g, t, w.done, w.queue[0], q, m);
    }
  }

  /** Every round takes the preferred block and keeps the queue in order. */
  lemma RoundKeepsChoice(g: Graph, t: Loops, rank: seq<nat>, w: Work)
    requires NormalForm(g, t, rank) && Inv(g, t, rank, w) && w.queue != [] && Choice(g, t, w)
    ensures Choice(g, t, Round(g, t, w))
  {
    var b := w.queue[0];
    var w1 := Work(w.done + [b], w.queue[1..]);
    RoundGreedy(g, t, rank, w);
    RestOrder(g, t, w);
    RoundNewOnes(g, t, rank, w);
    RoundComparable(g, t, rank, w);
    var ss := g[b];
    forall j | 0 <= j < |ss| && Eligible(g, t, w1.done, ss[j])
      ensures ss[j] in RoundBlocks(g, t, w) && ss[j] !in w1.queue
    {
      assert Edge(g, b, ss[j]);
      NewSuccessor(g, t, rank, w, ss[j]);
    }
    assert InRange(g, ss) && NoRepeats(ss) && Chain(g, t, w1.queue);
    hide NormalForm, Comparable, Inv, Chain, Eligible, ConsiderAll, QueueOrder, NewOnes, Since, Greedy;
    ConsiderAllOrder(g, t, w1, ss, |ss|, RoundBlocks(g, t, w));
  }

  lemma RestOrder(g: Graph, t: Loops, w: Work)
    requires WellFormed(g, t) && Choice(g, t, w) && w.queue != []
    ensures Blocks(g, w.done + [w.queue[0]]) && QueueOrder(g, t, w.done + [w.queue[0]], w.queue[1..])
  {
    hide Prefers, Greedy;
    var b := w.queue[0];
    forall i, j | 0 <= i < j < |w.queue| - 1 ensures Prefers(g, t, w.done + [b], w.queue[1..][i], w.queue[1..][j]) {
      PrefersGrows(g, t, w.done, b, w.queue[i + 1], w.queue[j + 1]);
    }
  }

  lemma RoundGreedy(g: Graph, t: Loops, rank: seq<nat>, w: Work)
    requires NormalForm(g, t, rank) && Inv(g, t, rank, w) && w.queue != [] && Choice(g, t, w)
    ensures Blocks(g, w.done + [w.queue[0]]) && Greedy(g, t, w.done + [w.queue[0]])
  {
    var b := w.queue[0];
    var done := w.done + [b];
    assert done[..|w.done|] == w.done && done[..|done|] == done;
    forall i: nat, y: Block | i < |done| && Waits(g, t, done, i, y) ensures Prefers(g, t, done[..i], done[i], y) {
      assert done[..i] == w.done[..i];
      if i < |w.done| {
        assert done[..i + 1] == w.done[..i + 1];
        assert Waits(g, t, w.done, i, y);
      } else {
        ReadyIff(g, t, rank, w.done, y);
        assert y in w.queue;
        var j :| 0 <= j < |w.queue| && w.queue[j] == y;
        assert j > 0;
      }
    }
  }

  lemma StartChoice(g: Graph, t: Loops)
    requires WellFormed(g, t) && |g| > 0
    ensures Choice(g, t, Work([], [START]))
  {}

  // ---- There is only one such order ----------------------------------------------------------------------

  lemma SinceUnique(g: Graph, t: Loops, done: seq<Block>, x: Block, m: nat, n: nat)
    requires WellFormed(g, t) && x < |g| && Since(g, t, done, x, m) && Since(g, t, done, x, n)
    ensures m == n
  {}

  lemma LaterOneWay(g: Graph, t: Loops, done: seq<Block>, x: Block, y: Block)
    requires WellFormed(g, t) && x < |g| && y < |g| && Blocks(g, done) && forall b :: 0 <= b < |g| ==> NoRepeats(g[b])
    requires Later(g, t, done, x, y)
    ensures !Later(g, t, done, y, x)
  {
    hide Ready;
    if Later(g, t, done, y, x) {
      var m: nat, n: nat :| Since(g, t, done, x, m) && Since(g, t, done, y, n)
                            && (n < m || (n == m > 0 && FirstSlot(g[done[m - 1]], x, y)));
      var p: nat, q: nat :| Since(g, t, done, y, p) && Since(g, t, done, x, q)
                            && (q < p || (q == p > 0 && FirstSlot(g[done[p - 1]], y, x)));
      SinceUnique(g, t, done, x, m, q);
      SinceUnique(g, t, done, y, n, p);
      SlotsOneWay(g[done[m - 1]], x, y);
    }
  }

  lemma SlotsOneWay(ss: seq<Block>, x: Block, y: Block)
    requires NoRepeats(ss) && FirstSlot(ss, x, y)
    ensures !FirstSlot(ss, y, x)
  {}

  lemma PrefersOneWay(g: Graph, t: Loops, done: seq<Block>, x: Block, y: Block)
    requires WellFormed(g, t) && x < |g| && y < |g| && Blocks(g, done) && forall b :: 0 <= b < |g| ==> NoRepeats(g[b])
    requires Prefers(g, t, done, x, y)
    ensures !Prefers(g, t, done, y, x)
  {
    var a, b := t.loopOf[x], t.loopOf[y];
    if In(g, t, a, b) && In(g, t, b, a) {
      InDepth(g, t, a, b);
      InDepth(g, t, b, a);
    }
    hide In;
    if Later(g, t, done, x, y) {
      LaterOneWay(g, t, done, x, y);
    }
  }

  /** The other order has another ready block at position `i`. */
  lemma WaitsThere(g: Graph, t: Loops, rank: seq<nat>, o: seq<Block>, p: seq<Block>, i: nat)
    requires Finished(g, t, rank, p) && Blocks(g, o)
    requires i < |o| && i < |p| && o[..i] == p[..i] && o[i] != p[i]
    ensures Waits(g, t, o, i, p[i])
  {
    assert FwdReady(g, rank, p[..i], p[i]);
    ReadyIff(g, t, rank, p[..i], p[i]);
    assert o[..i + 1] == p[..i] + [o[i]];
    forall k | 0 <= k < i ensures p[..i][k] != p[i] {}
  }

  lemma SameNext(g: Graph, t: Loops, rank: seq<nat>, o: seq<Block>, p: seq<Block>, i: nat)
    requires Finished(g, t, rank, o) && Finished(g, t, rank, p) && Greedy(g, t, o) && Greedy(g, t, p)
    requires i < |o| && i < |p| && o[..i] == p[..i]
    ensures o[i] == p[i]
  {
    if o[i] != p[i] {
      WaitsThere(g, t, rank, o, p, i);
      WaitsThere(g, t, rank, p, o, i);
      hide Waits, Prefers;
      PrefersOneWay(g, t, o[..i], o[i], p[i]);
    }
  }

  lemma {:induction false} SamePrefix(g: Graph, t: Loops, rank: seq<nat>, o: seq<Block>, p: seq<Block>, i: nat)
    requires Finished(g, t, rank, o) && Finished(g, t, rank, p) && Greedy(g, t, o) && Greedy(g, t, p)
    requires i <= |o| && i <= |p|
    ensures o[..i] == p[..i]
    decreases i
  {
    hide Finished, Greedy;
    if i > 0 {
      SamePrefix(g, t, rank, o, p, i - 1);
      SameNext(g, t, rank, o, p, i - 1);
      assert o[..i] == o[..i - 1] + [o[i - 1]] && p[..i] == p[..i - 1] + [p[i - 1]];
    }
  }

  lemma NotShorter(g: Graph, t: Loops, rank: seq<nat>, o: seq<Block>, p: seq<Block>)
    requires Finished(g, t, rank, o) && Finished(g, t, rank, p) && |o| <= |p| && o == p[..|o|]
    ensures |o| == |p|
  {
    hide NormalForm, ForwardFirst, Contiguous;
    NoNewBlock(o, p, |g|);
  }

  lemma NoNewBlock(o: seq<Block>, p: seq<Block>, n: nat)
    requires NoRepeats(p) && |o| <= |p| && o == p[..|o|] && (forall b :: 0 <= b < n ==> b in o)
    requires forall i :: 0 <= i < |p| ==> p[i] < n
    ensures |o| == |p|
  {
    if |o| < |p| {
      NextIsNew(o, p);
    }
  }

  lemma NextIsNew(o: seq<Block>, p: seq<Block>)
    requires NoRepeats(p) && |o| < |p| && o == p[..|o|]
    ensures p[|o|] !in o
  {
    forall k | 0 <= k < |o| ensures o[k] != p[|o|] {
      assert o[k] == p[k];
    }
  }

  /** The choice leaves nothing open: there is exactly one finished order that makes it everywhere. */
  lemma OrderIsDetermined(g: Graph, t: Loops, rank: seq<nat>, o: seq<Block>, p: seq<Block>)
    requires Finished(g, t, rank, o) && Finished(g, t, rank, p) && Greedy(g, t, o) && Greedy(g, t, p)
    ensures o == p
  {
    hide Finished, Greedy;
    var n := if |o| <= |p| then |o| else |p|;
    SamePrefix(g, t, rank, o, p, n);
    assert o[..|o|] == o && p[..|p|] == p;
    if |o| <= |p| {
      NotShorter(g, t, rank, o, p);
    } else {
      NotShorter(g, t, rank, p, o);
    }
  }
}
