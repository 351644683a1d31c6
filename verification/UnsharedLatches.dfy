/** A graph in normal form, with its loop tree and its linear order, whose outer latch lies in an inner loop with
    another latch: there the liveness pass (pass/liveness_analysis.cpp:181-187) is wrong. */
module UnsharedLatches {
  import opened Cfg
  import opened Coverage
  import opened CoverageLimit
  import opened Ssa
  import opened LoopTree
  import opened BlockOrder
  import opened ConcreteGraphs

  /** The outer loop has header 2 and latch 5, the inner loop header 4 and latch 6. */
  const NESTED: Graph := [[1], [2], [3], [4], [5], [2, 6], [4, 7], []]

  const NESTED_LOOPS: Loops :=
    Loops([0, 0, 1, 1, 2, 2, 2, 0], [NULL, 0, 1], [0, 1, 2], [0, 2, 4], [0, 5, 6], [0, 1, 3])

  const NESTED_ORDER: seq<Block> := [0, 1, 2, 3, 4, 5, 6, 7]

  lemma NestedWellFormed()
    ensures Valid(NESTED) && WellFormed(NESTED, NESTED_LOOPS) && |NESTED| == 8
  {}

  lemma NestedEdges(u: Block, v: Block)
    requires Edge(NESTED, u, v)
    ensures (u < 7 && v == u + 1) || (u == 5 && v == 2) || (u == 6 && v == 4)
  {}

  lemma NestedReachable(b: Block)
    requires b < 8
    ensures Reachable(NESTED, b)
  {
    WalkReaches(NESTED, NESTED_ORDER[..b + 1]);
  }

  lemma NestedReducible()
    ensures Reducible(NESTED, NESTED_LOOPS, NESTED_ORDER)
  {
    NestedWellFormed();
    forall u: nat, v: nat | Edge(NESTED, u, v)
      ensures v < |NESTED| && (NESTED_ORDER[u] < NESTED_ORDER[v] || BackEdge(NESTED, NESTED_LOOPS, u, v))
    {
      NestedEdges(u, v);
    }
  }

  lemma NestedDominators()
    ensures Dominates(NESTED, 2, 5) && Dominates(NESTED, 4, 6)
  {
    FenceDominates(NESTED, {0, 1}, 2, 5);
    FenceDominates(NESTED, {0, 1, 2, 3}, 4, 6);
  }

  lemma NestedHeaders()
    ensures HeadersNormal(NESTED, NESTED_LOOPS)
  {
    NestedWellFormed();
    NestedDominators();
    hide Dominates;
    forall u: nat | Edge(NESTED, u, 2) ensures u == 5 || u == 1 {
      NestedEdges(u, 2);
    }
    forall u: nat | Edge(NESTED, u, 4) ensures u == 6 || u == 3 {
      NestedEdges(u, 4);
    }
  }

  lemma OuterMembers(b: Block)
    requires b < 8
    ensures InNaturalLoop(NESTED, 2, 5, b) <==> 2 <= b <= 6
  {
    if b < 2 {
      FenceExcludes(NESTED, {0, 1}, 2, 5, b);
    } else if b == 7 {
      FenceExcludes(NESTED, {7}, 2, 5, b);
    } else if 2 < b < 6 {
      WalkInLoop(NESTED, 2, NESTED_ORDER[b..6]);
    } else if b == 6 {
      WalkInLoop(NESTED, 2, [6, 4, 5]);
    }
  }

  lemma InnerMembers(b: Block)
    requires b < 8
    ensures InNaturalLoop(NESTED, 4, 6, b) <==> 4 <= b <= 6
  {
    if b < 4 {
      FenceExcludes(NESTED, {0, 1, 2, 3}, 4, 6, b);
    } else if b == 7 {
      FenceExcludes(NESTED, {7}, 4, 6, b);
    } else if b > 4 {
      WalkInLoop(NESTED, 4, NESTED_ORDER[b..7]);
    }
  }

  lemma NestedIn(a: nat, k: nat)
    requires a < 3 && 0 < k < 3
    ensures WellFormed(NESTED, NESTED_LOOPS) && (In(NESTED, NESTED_LOOPS, a, k) <==> k <= a)
  {
    NestedWellFormed();
    assert NESTED_LOOPS.outer[1] == 0 && NESTED_LOOPS.outer[2] == 1;
    assert In(NESTED, NESTED_LOOPS, 1, k) <==> 1 == k || In(NESTED, NESTED_LOOPS, 0, k);
    assert In(NESTED, NESTED_LOOPS, 2, k) <==> 2 == k || In(NESTED, NESTED_LOOPS, 1, k);
  }

  lemma NestedInnermost()
    ensures WellFormed(NESTED, NESTED_LOOPS) && Innermost(NESTED, NESTED_LOOPS)
  {
    NestedWellFormed();
    var t := NESTED_LOOPS;
    hide InNaturalLoop;
    forall k, b | 0 < k < |t.outer| && 0 <= b < |NESTED|
      ensures In(NESTED, t, t.loopOf[b], k) <==> InNaturalLoop(NESTED, t.header[k], t.latch[k], b)
    {
      NestedIn(t.loopOf[b], k);
      OuterMembers(b);
      InnerMembers(b);
    }
  }

  lemma NestedNormalForm()
    ensures NormalForm(NESTED, NESTED_LOOPS, NESTED_ORDER)
  {
    NestedWellFormed();
    NestedReducible();
    NestedHeaders();
    NestedInnermost();
    hide Reachable, Reducible, HeadersNormal, Innermost;
    forall b | 0 <= b < |NESTED| ensures Reachable(NESTED, b) && NoRepeats(NESTED[b]) {
      NestedReachable(b);
    }
  }

  lemma NestedForwardFirst()
    ensures ForwardFirst(NESTED, NESTED_ORDER, NESTED_ORDER)
  {
    var g, order := NESTED, NESTED_ORDER;
    forall i, p: nat | 0 <= i < |order| && Forward(g, order, p, order[i]) ensures p in order[..i] {
      NestedEdges(p, order[i]);
      assert order[..i][p] == p;
    }
  }

  /** At the last block no loop is open. */
  lemma NothingOpen(k: nat)
    requires 0 < k < 3
    ensures WellFormed(NESTED, NESTED_LOOPS) && !Open(NESTED, NESTED_LOOPS, NESTED_ORDER, 7, k)
  {
    var g, t, order := NESTED, NESTED_LOOPS, NESTED_ORDER;
    NestedWellFormed();
    forall x | 0 <= x < |g| && In(g, t, t.loopOf[x], k) ensures x in order[..7] {
      NestedIn(t.loopOf[x], k);
      if x < 7 {
        assert order[..7][x] == x;
      }
    }
  }

  lemma NestedContiguous()
    ensures WellFormed(NESTED, NESTED_LOOPS) && Contiguous(NESTED, NESTED_LOOPS, NESTED_ORDER)
  {
    var g, t, order := NESTED, NESTED_LOOPS, NESTED_ORDER;
    NestedWellFormed();
    hide In;
    forall i, k | 0 <= i < |order| && 0 < k < |t.outer| && Open(g, t, order, i, k)
      ensures In(g, t, t.loopOf[order[i]], k)
    {
      if i == 7 {
        NothingOpen(k);
      } else {
        NestedIn(t.loopOf[i], k);
        var j :| 0 <= j < i && order[..i][j] == t.header[k];
      }
    }
  }

  lemma NestedFinished()
    ensures Finished(NESTED, NESTED_LOOPS, NESTED_ORDER, NESTED_ORDER)
  {
    NestedNormalForm();
    NestedForwardFirst();
    NestedContiguous();
    hide NormalForm, ForwardFirst, Contiguous;
    forall b | 0 <= b < |NESTED| ensures b in NESTED_ORDER {
      assert NESTED_ORDER[b] == b;
    }
  }

  /** The latch of the outer loop is in the inner loop, whose latch is another block. */
  lemma LatchesNotShared()
    ensures WellFormed(NESTED, NESTED_LOOPS) && !LatchesShared(NESTED, NESTED_LOOPS)
  {
    NestedIn(2, 2);
    NestedIn(2, 1);
    assert NESTED_LOOPS.loopOf[NESTED_LOOPS.latch[1]] == 2;
    assert NESTED_LOOPS.latch[2] != NESTED_LOOPS.latch[1];
  }

  /** On this graph, which the pass accepts, some strict-SSA program has a live point outside its ranges. */
  lemma SweepMissesLivePoint() returns (body: Code)
    ensures Finished(NESTED, NESTED_LOOPS, NESTED_ORDER, NESTED_ORDER)
    ensures |body| == |NESTED| && StrictSsa(NESTED, body) && !SoundFor(NESTED, NESTED_LOOPS, NESTED_ORDER, body)
  {
    NestedFinished();
    LatchesNotShared();
    LivenessSoundIff(NESTED, NESTED_LOOPS, NESTED_ORDER, NESTED_ORDER);
    hide *;
    body :| |body| == |NESTED| && StrictSsa(NESTED, body) && !SoundFor(NESTED, NESTED_LOOPS, NESTED_ORDER, body);
  }
}
