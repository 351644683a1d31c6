/** Exactly when the liveness sweep is sound: a loop that does not end with its latch always has a
    strict-SSA program whose live value is missed. */
module CoverageLimit {
  import opened Cfg
  import opened Ranges
  import opened Ssa
  import opened LiveRanges
  import opened Coverage

  /** Every point where a value is live lies in its range. */
  ghost predicate AllCovered(l: Layout)
    requires WellPlaced(l)
  {
    forall v, i, j {:trigger LiveAt(l.g, l.body, v, l.order[i], j)} ::
      0 <= i < |l.order| && LiveAt(l.g, l.body, v, l.order[i], j) ==>
        Covered(Sweep(l, 0).ranges, v, PointNumber(BlockStart(l.body, l.order, i), j))
  }

  /** The normal form after loop analysis: the start block heads no loop, and the only entry into
      a header is its pre-header, which has no other successor. */
  ghost predicate HasPreHeaders(l: Layout, pre: map<Block, Block>)
    requires WellPlaced(l)
  {
    && START in l.order && START !in l.latch
    && forall h :: h in l.latch && h in l.order ==>
         && h in pre && pre[h] in l.order && pre[h] != h && pre[h] != l.latch[h]
         && l.g[pre[h]] == [h]
         && forall b :: b in l.order && Edge(l.g, b, h) ==> b == pre[h] || b == l.latch[h]
  }

  /** Value 0 is defined in `d` and used in `h`; every other block is empty. */
  function Witness(n: nat, d: Block, h: Block): (body: Code)
    ensures |body| == n
  {
    seq(n, b => if b == d then BasicBlock([], [Inst(0, [])])
                else if b == h then BasicBlock([], [Inst(1, [0])])
                else BasicBlock([], []))
  }

  lemma {:induction false} PathInOrder(l: Layout, p: seq<Block>)
    requires Topological(l) && IsPath(l.g, p) && p[0] in l.order
    ensures forall x :: x in p ==> x in l.order
    decreases |p|
  {
    if |p| > 1 {
      var q := p[..|p| - 1];
      PathSlice(l.g, p, 0, |p| - 1);
      assert p[0..|p| - 1] == q;
      PathInOrder(l, q);
      assert EdgeAt(l.g, p, |p| - 2);
      assert p[|p| - 2] in q;
      assert p == q + [p[|p| - 1]];
    }
  }

  lemma FirstVisit(p: seq<Block>, h: Block) returns (k: nat)
    requires h in p
    ensures k < |p| && p[k] == h && h !in p[..k]
  {
    k := 0;
    while p[k] != h
      invariant k < |p| && h !in p[..k] && h in p[k..]
      decreases |p| - k
    {
      k := k + 1;
    }
  }

  lemma PreHeaderDominates(l: Layout, pre: map<Block, Block>, h: Block)
    requires Topological(l) && HasPreHeaders(l, pre) && h in l.latch && h in l.order
    ensures Dominates(l.g, pre[h], h)
  {
    forall p | PathFromTo(l.g, p, START, h) ensures pre[h] in p {
      PathInOrder(l, p);
      assert p[|p| - 1] in p;
      var k := FirstVisit(p, h);
      assert p[0] == START;
      assert EdgeAt(l.g, p, k - 1);
      var b := p[k - 1];
      assert b in p;
      if b == l.latch[h] {
        PathSlice(l.g, p, 0, k);
        assert p[0..k] == p[..k];
      }
    }
  }

  lemma WitnessIsStrict(l: Layout, pre: map<Block, Block>, h: Block)
    requires Topological(l) && HasPreHeaders(l, pre) && h in l.latch && h in l.order
    ensures StrictSsa(l.g, Witness(|l.g|, pre[h], h))
  {
    var d := pre[h];
    var body := Witness(|l.g|, d, h);
    PreHeaderDominates(l, pre, h);
    forall v | Used(l.g, body, v)
      ensures exists d, m, isPhi :: DefinedAt(body, v, d, m, isPhi) && UsesDominated(l.g, body, v, d, m, isPhi)
    {
      assert v == 0;
      assert InstDef(body, d, 0, 0);
      assert DefinedAt(body, 0, d, 0, false);
      assert UsesDominated(l.g, body, 0, d, 0, false);
    }
  }

  lemma NotThroughPreHeader(l: Layout, pre: map<Block, Block>, h: Block, p: seq<Block>)
    requires Topological(l) && HasPreHeaders(l, pre) && h in l.latch && h in l.order
    requires IsPath(l.g, p) && p[|p| - 1] == l.latch[h] && h !in p
    ensures h < |l.g| && p[0] != pre[h] && Edge(l.g, l.latch[h], h)
  {
    assert p[0] in p;
    if |p| > 1 {
      assert EdgeAt(l.g, p, 0);
      assert p[1] in p;
    }
  }

  /** Value 0 is live all along a path to the latch that avoids the header. */
  lemma {:induction false} WitnessLive(l: Layout, pre: map<Block, Block>, h: Block, p: seq<Block>)
    requires Topological(l) && HasPreHeaders(l, pre) && h in l.latch && h in l.order
    requires IsPath(l.g, p) && p[|p| - 1] == l.latch[h] && h !in p
    ensures LivePath(l.g, Witness(|l.g|, pre[h], h), 0, p + [h], 0)
    decreases |p|
  {
    NotThroughPreHeader(l, pre, h, p);
    var body := Witness(|l.g|, pre[h], h);
    var q := p + [h];
    hide Topological, HasPreHeaders;
    assert NoDefFrom(body, p[0], 0, 0);
    assert !PhiDef(body, q[1], 0);
    if |p| == 1 {
      assert q[1..] == [h];
      assert InstUse(body, h, 0, 0);
      assert LivePath(l.g, body, 0, [h], 0);
    } else {
      assert EdgeAt(l.g, p, 0);
      PathSlice(l.g, p, 1, |p|);
      assert p[1..|p|] == p[1..];
      WitnessLive(l, pre, h, p[1..]);
      assert q[1..] == p[1..] + [h];
    }
  }

  /** What the sweep of the witness can know about value 0: it is held by the header only, and its
      range never passes `limit`. */
  ghost predicate Bounded(st: Live, order: seq<Block>, i: nat, h: Block, limit: nat)
    requires i <= |order|
  {
    && (forall b :: b in st.sets ==> b in order[i..])
    && (forall b :: b in st.sets && 0 in st.sets[b] ==> b == h)
    && (0 in st.ranges ==> st.ranges[0].end <= limit)
  }

  lemma {:induction false} InitialLiveFrom(body: Code, ss: seq<Block>, b: Block, sets: map<Block, set<Value>>,
                                           v: Value)
    requires forall k :: 0 <= k < |ss| ==> ss[k] < |body|
    requires forall k :: 0 <= k < |body| ==> body[k].phis == []
    requires v in InitialLive(body, ss, b, sets)
    ensures exists s :: s in ss && s in sets && v in sets[s]
    decreases |ss|
  {
    if v in FromSuccessor(body, b, ss[0], sets) {
      assert ss[0] in ss;
    } else {
      InitialLiveFrom(body, ss[1..], b, sets, v);
      var s :| s in ss[1..] && s in sets && v in sets[s];
      assert s in ss;
    }
  }

  /** Only the pre-header can see value 0 in a successor that is already swept. */
  lemma WitnessInitial(l: Layout, pre: map<Block, Block>, h: Block, st: Live, i: nat, limit: nat)
    requires Topological(l) && HasPreHeaders(l, pre) && h in l.latch && h in l.order
    requires l.body == Witness(|l.g|, pre[h], h) && i < |l.order|
    requires Bounded(st, l.order, i + 1, h, limit)
    requires 0 in InitialLive(l.body, l.g[l.order[i]], l.order[i], st.sets)
    ensures l.order[i] == pre[h]
  {
    var b := l.order[i];
    InitialLiveFrom(l.body, l.g[b], b, st.sets, 0);
    var s :| s in l.g[b] && s in st.sets && 0 in st.sets[s];
    assert s == h && Edge(l.g, b, h) && b in l.order;
    var k :| i + 1 <= k < |l.order| && l.order[k] == h;
    assert Dominates(l.g, h, l.latch[h]) && Before(l.order, h, l.latch[h]);
    assert IndexOf(l.order, h) == k && IndexOf(l.order, b) == i;
  }

  /** One block of the witness keeps the bound. */
  lemma WitnessBlock(l: Layout, pre: map<Block, Block>, h: Block, st: Live, i: nat, limit: nat)
    requires Topological(l) && HasPreHeaders(l, pre) && h in l.latch && h in l.order
    requires l.body == Witness(|l.g|, pre[h], h) && i < |l.order|
    requires limit == BlockRange(l, IndexOf(l.order, l.latch[h])).end
    requires Bounded(st, l.order, i + 1, h, limit)
    ensures Bounded(SweepBlock(l, st, i), l.order, i, h, limit)
  {
    hide *;
    WitnessFacts(l, pre, h, i);
    if 0 in InitialLive(l.body, l.g[l.order[i]], l.order[i], st.sets) {
      WitnessInitial(l, pre, h, st, i, limit);
    }
    if l.order[i] == pre[h] || l.order[i] == h {
      EndsBeforeLimit(l, pre, h, i);
    }
    BoundedRange(st, l.order, i + 1, h, limit);
    WitnessRange(l, h, pre[h], st, i, limit);
    BoundedStep(st, SweepBlock(l, st, i), l.order, i, h, limit);
  }

  lemma WitnessFacts(l: Layout, pre: map<Block, Block>, h: Block, i: nat)
    requires Topological(l) && HasPreHeaders(l, pre) && h in l.latch && h in l.order && i < |l.order|
    ensures WellPlaced(l) && h in pre && pre[h] != h && l.order[i] < |l.g| == |l.body|
    ensures forall k :: 0 <= k < |l.g[l.order[i]]| ==> l.g[l.order[i]][k] < |l.body|
  {}

  lemma BoundedRange(st: Live, order: seq<Block>, i: nat, h: Block, limit: nat)
    requires i <= |order| && Bounded(st, order, i, h, limit)
    ensures 0 in st.ranges ==> st.ranges[0].end <= limit
  {}

  lemma BoundedStep(st: Live, st': Live, order: seq<Block>, i: nat, h: Block, limit: nat)
    requires i < |order| && Bounded(st, order, i + 1, h, limit)
    requires order[i] in st'.sets && (0 in st'.sets[order[i]] ==> order[i] == h)
    requires 0 in st'.ranges ==> st'.ranges[0].end <= limit
    requires forall b :: b in st'.sets <==> b in st.sets || b == order[i]
    requires forall b :: b in st.sets && b != order[i] ==> st'.sets[b] == st.sets[b]
    ensures Bounded(st', order, i, h, limit)
  {
    assert order[i..] == [order[i]] + order[i + 1..];
  }

  lemma EndsBeforeLimit(l: Layout, pre: map<Block, Block>, h: Block, i: nat)
    requires Topological(l) && HasPreHeaders(l, pre) && h in l.latch && h in l.order && i < |l.order|
    requires l.order[i] == pre[h] || l.order[i] == h
    ensures WellPlaced(l)
    ensures BlockRange(l, i).end <= BlockRange(l, IndexOf(l.order, l.latch[h])).end
  {
    PreHeaderDominates(l, pre, h);
    assert Before(l.order, pre[h], h) && Before(l.order, h, l.latch[h]);
    assert IndexOf(l.order, l.order[i]) == i;
    var e := IndexOf(l.order, l.latch[h]);
    hide Topological, HasPreHeaders;
    if i < e {
      StartsGrow(l.body, l.order, i, e);
    }
  }

  /** The effect of one block of the witness on value 0. */
  lemma WitnessRange(l: Layout, h: Block, d: Block, st: Live, i: nat, limit: nat)
    requires WellPlaced(l) && i < |l.order| && d != h && h in l.latch
    requires l.body == Witness(|l.g|, d, h)
    requires limit == BlockRange(l, IndexOf(l.order, l.latch[h])).end
    requires l.order[i] == d || l.order[i] == h ==> BlockRange(l, i).end <= limit
    requires 0 in InitialLive(l.body, l.g[l.order[i]], l.order[i], st.sets) ==> l.order[i] == d
    requires 0 in st.ranges ==> st.ranges[0].end <= limit
    ensures var r := SweepBlock(l, st, i);
      && (0 in r.sets[l.order[i]] ==> l.order[i] == h)
      && (0 in r.ranges ==> r.ranges[0].end <= limit)
      && (forall b :: b in r.sets <==> b in st.sets || b == l.order[i])
      && (forall b :: b in st.sets && b != l.order[i] ==> r.sets[b] == st.sets[b])
  {
    var b := l.order[i];
    var bb := l.body[b];
    var r := BlockRange(l, i);
    var live := InitialLive(l.body, l.g[b], b, st.sets);
    var m := AddAll(st.ranges, live, r);
    assert 0 in m ==> m[0].end <= limit;
    var m1 := SweepRanges(m, bb.insts, |bb.insts|, r.start);
    var l1 := SweepLive(live, bb.insts, |bb.insts|);
    if b == d {
      OneInstruction(m, live, bb.insts[0], r.start);
      assert bb.insts == [bb.insts[0]];
      assert StepRanges(m, bb.insts[0], r.start, r.start + 2) == Define(m, 0, r.start + 2);
    } else if b == h {
      OneInstruction(m, live, bb.insts[0], r.start);
      assert bb.insts == [bb.insts[0]];
    }
    assert 0 in m1 ==> m1[0].end <= limit;
    assert 0 in l1 ==> b == h;
  }

  lemma OneInstruction(m: RangeMap, live: set<Value>, inst: Inst, start: nat)
    ensures SweepRanges(m, [inst], 1, start) == StepRanges(m, inst, start, start + 2)
    ensures SweepLive(live, [inst], 1) == StepLive(live, inst)
  {
    assert SweepRanges(StepRanges(m, inst, start, start + 2), [inst], 0, start)
        == StepRanges(m, inst, start, start + 2);
    assert SweepLive(StepLive(live, inst), [inst], 0) == StepLive(live, inst);
  }

  lemma {:induction false} WitnessSwept(l: Layout, pre: map<Block, Block>, h: Block, i: nat, limit: nat)
    requires Topological(l) && HasPreHeaders(l, pre) && h in l.latch && h in l.order
    requires l.body == Witness(|l.g|, pre[h], h) && i <= |l.order|
    requires limit == BlockRange(l, IndexOf(l.order, l.latch[h])).end
    ensures Bounded(Sweep(l, i), l.order, i, h, limit)
    decreases |l.order| - i
  {
    if i < |l.order| {
      WitnessSwept(l, pre, h, i + 1, limit);
      hide *;
      WellPlacedOf(l);
      SweepStep(l, i);
      WitnessBlock(l, pre, h, Sweep(l, i + 1), i, limit);
    }
  }

  lemma WellPlacedOf(l: Layout)
    requires Topological(l)
    ensures WellPlaced(l) && NoRepeats(l.order)
  {}

  /** A member after its latch: value 0 of the witness is live there and outside its range. */
  lemma WitnessMissed(l: Layout, pre: map<Block, Block>, h: Block, x: Block)
    requires Topological(l) && HasPreHeaders(l, pre) && h in l.latch && h in l.order && x in l.order
    requires InNaturalLoop(l.g, h, l.latch[h], x) && !Before(l.order, x, l.latch[h])
    requires l.body == Witness(|l.g|, pre[h], h)
    ensures !AllCovered(l)
  {
    var t := l.latch[h];
    var i := IndexOf(l.order, x);
    var e := IndexOf(l.order, t);
    assert Before(l.order, h, t) && x != h && e < i;
    var p :| PathFromTo(l.g, p, x, t) && h !in p;
    WitnessLive(l, pre, h, p);
    assert (p + [h])[0] == x;
    assert LiveAt(l.g, l.body, 0, l.order[i], 0);
    WitnessSwept(l, pre, h, 0, BlockRange(l, e).end);
    hide Topological, HasPreHeaders, Sweep, LivePath, Before, InNaturalLoop;
    StartsGrow(l.body, l.order, e, i);
    assert !Covered(Sweep(l, 0).ranges, 0, PointNumber(BlockStart(l.body, l.order, i), 0));
  }

  /** Exactly when the single sweep is sound: on a normal-form graph with a topological order, the
      sweep covers every live point of every strict-SSA program if and only if no block of a loop
      comes after the latch of that loop. */
  lemma SoundIffLoopsEndWithLatch(l: Layout, pre: map<Block, Block>)
    requires Topological(l) && HasPreHeaders(l, pre)
    ensures (forall body: Code :: |body| == |l.g| && StrictSsa(l.g, body) ==> AllCovered(l.(body := body)))
       <==> LoopsEndWithLatch(l)
  {
    if LoopsEndWithLatch(l) {
      forall body: Code | |body| == |l.g| && StrictSsa(l.g, body) ensures AllCovered(l.(body := body)) {
        AlwaysCovered(l, l.(body := body));
      }
    } else {
      var h, x :| h in l.order && h in l.latch && x in l.order
        && InNaturalLoop(l.g, h, l.latch[h], x) && !Before(l.order, x, l.latch[h]);
      var body := Witness(|l.g|, pre[h], h);
      var l' := l.(body := body);
      WitnessIsStrict(l, pre, h);
      OtherBody(l, l', pre);
      hide *;
      WitnessMissed(l', pre, h, x);
    }
  }

  lemma OtherBody(l: Layout, l': Layout, pre: map<Block, Block>)
    requires Topological(l) && |l'.body| == |l.body| && l' == l.(body := l'.body)
    ensures Topological(l') && (LoopsEndWithLatch(l) ==> LoopsEndWithLatch(l'))
    ensures HasPreHeaders(l, pre) ==> HasPreHeaders(l', pre)
  {}

  lemma AlwaysCovered(l: Layout, l': Layout)
    requires Topological(l) && |l'.body| == |l.body| && l' == l.(body := l'.body)
    requires LoopsEndWithLatch(l) && StrictSsa(l'.g, l'.body)
    ensures WellPlaced(l') && AllCovered(l')
  {
    OtherBody(l, l', map[]);
    WellPlacedOf(l');
    hide Topological, LoopsEndWithLatch, StrictSsa, Sweep, LiveAt, Covered;
    forall v, i, j | 0 <= i < |l'.order| && LiveAt(l'.g, l'.body, v, l'.order[i], j)
      ensures Covered(Sweep(l', 0).ranges, v, PointNumber(BlockStart(l'.body, l'.order, i), j))
    {
      LiveCovered(l', v, i, j);
    }
  }
}
