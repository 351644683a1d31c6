/** A program from which instructions have been taken whose results the rest does not use behaves as
    before. */
module Thinning {
  import opened Cfg
  import opened Ssa
  import opened Execution
  import opened Editing

  ghost predicate Same(keep: set<Value>, s: Store<Value>, t: Store<Value>) {
    s.trace == t.trace && forall v :: v in keep ==> Read(s, v) == Read(t, v)
  }

  function Id(): Value -> Value {
    (v: Value) => v
  }

  lemma {:induction false} SameOperands(keep: set<Value>, s: Store<Value>, t: Store<Value>, ins: seq<Value>)
    requires Same(keep, s, t) && forall v :: v in ins ==> v in keep
    ensures Operands(s, Id(), ins) == Operands(t, Id(), ins)
    decreases |ins|
  {
    if ins != [] {
      assert forall v :: v in ins[1..] ==> v in ins;
      SameOperands(keep, s, t, ins[1..]);
    }
  }

  lemma {:induction false} StepsAppend(c: Program, s: Store<Value>, f: Semantics, insts: seq<Inst>, x: Inst, k: nat)
    requires k <= |insts|
    ensures Steps(c, s, Id(), f, insts + [x], k) == Steps(c, s, Id(), f, insts, k)
    decreases k
  {
    if k > 0 {
      StepsAppend(c, s, f, insts, x, k - 1);
    }
  }

  lemma StepSame(c: Program, keep: set<Value>, s: Store<Value>, t: Store<Value>, f: Semantics, x: Inst)
    requires Same(keep, s, t) && (x.id in keep ==> forall u :: u in x.inputs ==> u in keep)
    requires x.id in c.effects ==> x.id in keep
    ensures x.id in keep ==> Same(keep, Step(c, s, Id(), f, x), Step(c, t, Id(), f, x))
    ensures x.id !in keep ==> Same(keep, Step(c, s, Id(), f, x), t)
  {
    if x.id in keep {
      SameOperands(keep, s, t, x.inputs);
    }
  }

  ghost predicate InstsClosed(insts: seq<Inst>, keep: set<Value>, effects: set<Value>) {
    forall k :: 0 <= k < |insts| ==>
      && (insts[k].id in keep ==> forall u :: u in insts[k].inputs ==> u in keep)
      && (insts[k].id in effects ==> insts[k].id in keep)
  }

  lemma {:induction false} StepsSame(c: Program, keep: set<Value>, s: Store<Value>, t: Store<Value>, f: Semantics,
                                     insts: seq<Inst>)
    requires Same(keep, s, t) && InstsClosed(insts, keep, c.effects)
    ensures Same(keep, Steps(c, s, Id(), f, insts, |insts|),
                 Steps(c, t, Id(), f, Kept(insts, keep), |Kept(insts, keep)|))
    decreases |insts|
  {
    if insts != [] {
      var front, x := insts[..|insts| - 1], insts[|insts| - 1];
      assert insts == front + [x];
      assert x == insts[|insts| - 1];
      StepsSame(c, keep, s, t, f, front);
      StepsAppend(c, s, f, front, x, |front|);
      var s1 := Steps(c, s, Id(), f, front, |front|);
      var t1 := Steps(c, t, Id(), f, Kept(front, keep), |Kept(front, keep)|);
      hide Same, Step;
      StepSame(c, keep, s1, t1, f, x);
      if x.id in keep {
        StepsAppend(c, t, f, Kept(front, keep), x, |Kept(front, keep)|);
      } else {
        assert Kept(front, keep) + [] == Kept(front, keep);
      }
    }
  }

  ghost predicate PhisClosed(phis: seq<Phi>, b: Block, keep: set<Value>) {
    forall k :: 0 <= k < |phis| && phis[k].id in keep ==> SourceOf(phis[k].inputs, b) in keep
  }

  lemma {:induction false} CopiesSame(keep: set<Value>, s: Store<Value>, t: Store<Value>, m: map<Value, int>,
                                      n: map<Value, int>, phis: seq<Phi>, b: Block, moved: set<Value>)
    requires Same(keep, s, t) && PhisClosed(phis, b, keep)
    requires Same(keep, s.(vals := m), t.(vals := n))
    ensures Same(keep, s.(vals := Copies(s, m, Id(), phis, b, moved)),
                 t.(vals := Copies(t, n, Id(), KeptPhis(phis, keep), b, moved)))
    decreases |phis|
  {
    if phis != [] {
      var x := phis[0];
      var rest := phis[1..];
      assert forall k :: 0 <= k < |rest| ==> rest[k] == phis[k + 1];
      assert PhisClosed(rest, b, keep);
      var v, w := Read(s, SourceOf(x.inputs, b)), Read(t, SourceOf(x.inputs, b));
      var m' := if x.id in moved then m[x.id := v] else m;
      if x.id in keep {
        assert v == w;
        var n' := if x.id in moved then n[x.id := w] else n;
        CopiesSame(keep, s, t, m', n', rest, b, moved);
        assert ([x] + KeptPhis(rest, keep))[1..] == KeptPhis(rest, keep);
      } else {
        CopiesSame(keep, s, t, m', n, rest, b, moved);
        assert [] + KeptPhis(rest, keep) == KeptPhis(rest, keep);
      }
    }
  }

  /** `d` is `c` without the instructions outside `keep` in the blocks `bs`, and in the blocks that can
      be reached whatever stays uses only what stays. */
  ghost predicate Thinned(c: Program, d: Program, bs: set<Block>, keep: set<Value>) {
    && Valid(c.g) && |c.body| == |c.g| && d == c.(body := Swept(c.body, bs, keep))
    && (forall b: Block :: Reachable(c.g, b) && b < |c.g| ==>
          b in bs && InstsClosed(c.body[b].insts, keep, c.effects))
    && (forall a: Block, b: Block :: Edge(c.g, a, b) && b < |c.g| ==> PhisClosed(c.body[b].phis, a, keep))
  }

  lemma PathReachable(g: Graph, p: seq<Block>)
    requires IsPath(g, p) && p[0] == START
    ensures Reachable(g, p[|p| - 1]) && p[|p| - 1] < |g|
  {
    assert PathFromTo(g, p, START, p[|p| - 1]);
  }

  lemma {:induction false} EnterSame(c: Program, d: Program, bs: set<Block>, keep: set<Value>, f: Semantics,
                                     p: seq<Block>)
    requires Thinned(c, d, bs, keep) && InProgram(c, p) && InProgram(d, p) && p[0] == START
    ensures Same(keep, Enter(c, Id(), f, p), Enter(d, Id(), f, p))
    decreases |p|, 0
  {
    if |p| > 1 {
      PathSlice(c.g, p, 0, |p| - 1);
      var q := p[0..|p| - 1];
      hide Thinned, Same, Enter, Steps, Copies;
      EndSame(c, d, bs, keep, f, q);
      EnterStep(c, Id(), f, p, q);
      EnterStep(d, Id(), f, p, q);
      CrossSame(c, d, bs, keep, End(c, Id(), f, q), End(d, Id(), f, q), p, q[|q| - 1]);
    }
  }

  lemma CrossSame(c: Program, d: Program, bs: set<Block>, keep: set<Value>, s: Store<Value>, u: Store<Value>,
                  p: seq<Block>, a: Block)
    requires Thinned(c, d, bs, keep) && InProgram(c, p) && InProgram(d, p) && p[0] == START
    requires Edge(c.g, a, p[|p| - 1]) && Same(keep, s, u)
    ensures Same(keep, Cross(c, s, Id(), a, p[|p| - 1]), Cross(d, u, Id(), a, p[|p| - 1]))
  {
    var b := p[|p| - 1];
    PathReachable(c.g, p);
    assert d.body[b] == KeepIn(c.body[b], keep);
    assert InstsClosed(c.body[b].insts, keep, c.effects);
    assert PhisClosed(c.body[b].phis, a, keep);
    assert c.moved == d.moved;
    hide Thinned, Same;
    assert s.(vals := s.vals) == s && u.(vals := u.vals) == u;
    CopiesSame(keep, s, u, s.vals, u.vals, c.body[b].phis, a, c.moved);
  }

  lemma {:induction false} EndSame(c: Program, d: Program, bs: set<Block>, keep: set<Value>, f: Semantics,
                                   p: seq<Block>)
    requires Thinned(c, d, bs, keep) && InProgram(c, p) && InProgram(d, p) && p[0] == START
    ensures Same(keep, End(c, Id(), f, p), End(d, Id(), f, p))
    decreases |p|, 1
  {
    EnterSame(c, d, bs, keep, f, p);
    var b := p[|p| - 1];
    PathReachable(c.g, p);
    assert d.body[b] == KeepIn(c.body[b], keep);
    assert InstsClosed(c.body[b].insts, keep, c.effects);
    assert d.effects == c.effects && d.noUse == c.noUse;
    hide Thinned, Same;
    StepsSame(c, keep, Enter(c, Id(), f, p), Enter(d, Id(), f, p), f, c.body[b].insts);
    StepsOther(c, d, Enter(d, Id(), f, p), f, d.body[b].insts, |d.body[b].insts|);
  }

  /** Steps depend on the program only through what is observable and what has a result. */
  lemma {:induction false} StepsOther(c: Program, d: Program, s: Store<Value>, f: Semantics, insts: seq<Inst>, k: nat)
    requires k <= |insts| && c.noUse == d.noUse && c.effects == d.effects
    ensures Steps(c, s, Id(), f, insts, k) == Steps(d, s, Id(), f, insts, k)
    decreases k
  {
    if k > 0 {
      StepsOther(c, d, s, f, insts, k - 1);
    }
  }

  /** Every run is preserved: the program takes the same path, observes the same events, and computes
      the same values of what stays. */
  lemma RunsPreserved(c: Program, d: Program, bs: set<Block>, keep: set<Value>, f: Semantics, choose: Control,
                      p: seq<Block>)
    requires Thinned(c, d, bs, keep)
    ensures Taken(c, f, choose, p) <==> Taken(d, f, choose, p)
    ensures Taken(c, f, choose, p) ==> Same(keep, End(c, Id(), f, p), End(d, Id(), f, p))
  {
    assert d.g == c.g && |d.body| == |c.body|;
    if InProgram(c, p) && p[0] == START {
      forall i: nat | i < |p| ensures TraceAfter(c, f, p, i) == TraceAfter(d, f, p, i) {
        PathSlice(c.g, p, 0, i + 1);
        EndSame(c, d, bs, keep, f, p[0..i + 1]);
      }
      EndSame(c, d, bs, keep, f, p);
    }
  }

  lemma {:induction false} StepsPrefix(c: Program, s: Store<Value>, f: Semantics, a: seq<Inst>, b: seq<Inst>, k: nat)
    requires k <= |a| && k <= |b| && a[..k] == b[..k]
    ensures Steps(c, s, Id(), f, a, k) == Steps(c, s, Id(), f, b, k)
    decreases k
  {
    if k > 0 {
      assert a[..k - 1] == a[..k][..k - 1] && b[..k - 1] == b[..k][..k - 1];
      assert a[k - 1] == a[..k][k - 1] && b[k - 1] == b[..k][k - 1];
      StepsPrefix(c, s, f, a, b, k - 1);
    }
  }

  lemma {:induction false} KeptConcat(a: seq<Inst>, b: seq<Inst>, keep: set<Value>)
    ensures Kept(a + b, keep) == Kept(a, keep) + Kept(b, keep)
    decreases |b|
  {
    if b == [] {
      assert a + b == a;
      assert Kept(a, keep) + [] == Kept(a, keep);
    } else {
      var front, x := b[..|b| - 1], b[|b| - 1];
      assert (a + b)[..|a + b| - 1] == a + front;
      KeptConcat(a, front, keep);
    }
  }

  lemma KeptPrefix(insts: seq<Inst>, keep: set<Value>, k: nat)
    requires k <= |insts|
    ensures |Kept(insts[..k], keep)| <= |Kept(insts, keep)|
    ensures Kept(insts, keep)[..|Kept(insts[..k], keep)|] == Kept(insts[..k], keep)
  {
    assert insts == insts[..k] + insts[k..];
    KeptConcat(insts[..k], insts[k..], keep);
  }

  /** An instruction that stays is found at the position that counts what stays before it. */
  lemma KeptAt(insts: seq<Inst>, keep: set<Value>, q: nat, k: nat)
    requires q < k <= |insts| && insts[q].id in keep
    ensures var j := |Kept(insts[..q], keep)|;
      j < |Kept(insts[..k], keep)| <= |Kept(insts, keep)| && Kept(insts, keep)[j] == insts[q]
  {
    var a := insts[..q + 1];
    assert a == insts[..q] + [insts[q]] && a[..|a| - 1] == insts[..q];
    assert insts[..k][..q + 1] == a;
    KeptPrefix(insts[..k], keep, q + 1);
    KeptPrefix(insts, keep, k);
    KeptPrefix(insts, keep, q + 1);
    var j := |Kept(insts[..q], keep)|;
    assert Kept(a, keep)[j] == insts[q];
    assert Kept(insts, keep)[..|Kept(a, keep)|][j] == insts[q];
  }

  lemma {:induction false} KeptIndex(insts: seq<Inst>, keep: set<Value>, j: nat) returns (q: nat)
    requires j < |Kept(insts, keep)|
    ensures q < |insts| && insts[q].id in keep && |Kept(insts[..q], keep)| == j && Kept(insts, keep)[j] == insts[q]
    decreases |insts|
  {
    var front := insts[..|insts| - 1];
    if j < |Kept(front, keep)| {
      q := KeptIndex(front, keep, j);
      assert front[..q] == insts[..q];
    } else {
      q := |insts| - 1;
    }
  }

  /** The runs agree at every point: `k` instructions of the block before correspond to those of them
      that stay. */
  lemma PointSame(c: Program, d: Program, bs: set<Block>, keep: set<Value>, f: Semantics, p: seq<Block>, k: nat)
    requires Thinned(c, d, bs, keep) && InProgram(c, p) && InProgram(d, p) && p[0] == START
    requires k <= |c.body[p[|p| - 1]].insts|
    ensures d.body[p[|p| - 1]].insts == Kept(c.body[p[|p| - 1]].insts, keep)
    ensures var k' := |Kept(c.body[p[|p| - 1]].insts[..k], keep)|;
      k' <= |d.body[p[|p| - 1]].insts| && Same(keep, At(c, Id(), f, p, k), At(d, Id(), f, p, k'))
  {
    EnterSame(c, d, bs, keep, f, p);
    PathReachable(c.g, p);
    var b := p[|p| - 1];
    var insts := c.body[b].insts;
    assert d.body[b] == KeepIn(c.body[b], keep) && InstsClosed(insts, keep, c.effects);
    assert d.effects == c.effects && d.noUse == c.noUse;
    var k' := |Kept(insts[..k], keep)|;
    var s, t := Enter(c, Id(), f, p), Enter(d, Id(), f, p);
    assert InstsClosed(insts[..k], keep, c.effects);
    hide Thinned, Same, Enter, InstsClosed;
    StepsSame(c, keep, s, t, f, insts[..k]);
    KeptPrefix(insts, keep, k);
    StepsPrefix(c, s, f, insts, insts[..k], k);
    assert Kept(insts[..k], keep)[..k'] == Kept(insts[..k], keep);
    StepsPrefix(c, t, f, Kept(insts, keep), Kept(insts[..k], keep), k');
    StepsOther(c, d, t, f, Kept(insts, keep), k');
  }
}
