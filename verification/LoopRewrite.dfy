/** Moving phis to the new block in front of a header (pass/loop_analysis.cpp:188-234), and why the
    rewritten program computes what the old one did. */
module LoopRewrite {
  import opened Cfg
  import opened Coverage
  import opened Ssa
  import opened Execution
  import opened FlowGraph
  import opened Redirection

  // ---- Phis ----------------------------------------------------------------------------------------

  function WithoutInput(ins: seq<PhiInput>, x: PhiInput): (r: seq<PhiInput>)
    ensures forall y :: y in r <==> y in ins && y != x
  {
    if ins == [] then [] else (if ins[0] == x then [] else [ins[0]]) + WithoutInput(ins[1..], x)
  }

  /** The input that comes over the back edge. */
  function BackInput(phi: Phi, t: Block): PhiInput {
    PhiInput(SourceOf(phi.inputs, t), t)
  }

  /** The inputs from outside. */
  function Entries(phi: Phi, t: Block): seq<PhiInput> {
    WithoutInput(phi.inputs, BackInput(phi, t))
  }

  /** The phis of the header so far, the phis of the new block, and the next instruction id. */
  datatype Moved = Moved(kept: seq<Phi>, added: seq<Phi>, next: Value)

  function MoveOne(m: Moved, phi: Phi, t: Block, n: Block): Moved
    requires Entries(phi, t) != []
  {
    var es := Entries(phi, t);
    if !HasSource(phi.inputs, t) then m.(kept := m.kept + [phi])
    else if |es| > 1 then
      Moved(m.kept + [Phi(phi.id, [BackInput(phi, t), PhiInput(m.next, n)])], m.added + [Phi(m.next, es)], m.next + 1)
    else
      m.(kept := m.kept + [Phi(phi.id, [BackInput(phi, t), PhiInput(es[0].value, n)])])
  }

  ghost predicate HaveEntries(phis: seq<Phi>, t: Block) {
    forall q :: 0 <= q < |phis| ==> Entries(phis[q], t) != []
  }

  function Move(phis: seq<Phi>, k: nat, t: Block, n: Block, bound: Value): (m: Moved)
    requires k <= |phis| && HaveEntries(phis, t)
    ensures |m.kept| == k && m.next == bound + |m.added|
  {
    if k == 0 then Moved([], [], bound) else MoveOne(Move(phis, k - 1, t, n, bound), phis[k - 1], t, n)
  }

  /** What became of phi `q`: its back-edge input stays, and the entries are merged by a new phi, or
      the only entry is passed on. */
  ghost predicate MovedPhi(phi: Phi, m: Moved, q: nat, t: Block, n: Block, bound: Value) {
    var es := Entries(phi, t);
    && q < |m.kept| && es != []
    && if |es| == 1 then m.kept[q] == Phi(phi.id, [BackInput(phi, t), PhiInput(es[0].value, n)])
       else exists j :: 0 <= j < |m.added| && m.added[j] == Phi(bound + j, es)
              && m.kept[q] == Phi(phi.id, [BackInput(phi, t), PhiInput(bound + j, n)])
  }

  lemma MoveOneFacts(m: Moved, phi: Phi, t: Block, n: Block, bound: Value)
    requires m.next == bound + |m.added| && Entries(phi, t) != [] && HasSource(phi.inputs, t)
    ensures var m' := MoveOne(m, phi, t, n);
      && MovedPhi(phi, m', |m.kept|, t, n, bound) && |m'.kept| == |m.kept| + 1
      && (forall q :: 0 <= q < |m.kept| ==> m'.kept[q] == m.kept[q])
      && |m.added| <= |m'.added| && (forall j :: 0 <= j < |m.added| ==> m'.added[j] == m.added[j])
      && (forall j :: |m.added| <= j < |m'.added| ==> m'.added[j] == Phi(bound + j, Entries(phi, t)))
  {
    var es := Entries(phi, t);
    hide Entries;
    if |es| > 1 {
      assert MoveOne(m, phi, t, n).added[|m.added|] == Phi(bound + |m.added|, es);
    }
  }

  lemma MoveStep(phis: seq<Phi>, k: nat, t: Block, n: Block, bound: Value)
    requires 0 < k <= |phis| && HaveEntries(phis, t)
    ensures Entries(phis[k - 1], t) != []
    ensures Move(phis, k, t, n, bound) == MoveOne(Move(phis, k - 1, t, n, bound), phis[k - 1], t, n)
  {}

  ghost predicate AllMoved(phis: seq<Phi>, k: nat, m: Moved, t: Block, n: Block, bound: Value) {
    && k <= |phis| && |m.kept| == k && m.next == bound + |m.added|
    && (forall q :: 0 <= q < k ==> MovedPhi(phis[q], m, q, t, n, bound))
    && (forall j :: 0 <= j < |m.added| ==>
          m.added[j].id == bound + j && Merges(phis, k, m.added[j], t) && Feeds(m, bound + j, n))
  }

  /** Some phi of the header reads the value `v` from the new block. */
  ghost predicate Feeds(m: Moved, v: Value, n: Block) {
    exists q :: 0 <= q < |m.kept| && PhiInput(v, n) in m.kept[q].inputs
  }

  lemma FeedsMore(m: Moved, m': Moved, v: Value, n: Block)
    requires Feeds(m, v, n) && |m.kept| <= |m'.kept| && forall q :: 0 <= q < |m.kept| ==> m'.kept[q] == m.kept[q]
    ensures Feeds(m', v, n)
  {
    var q :| 0 <= q < |m.kept| && PhiInput(v, n) in m.kept[q].inputs;
    assert m'.kept[q] == m.kept[q];
  }

  /** A phi of the new block merges the entries of some phi of the header. */
  ghost predicate Merges(phis: seq<Phi>, k: nat, x: Phi, t: Block)
    requires k <= |phis|
  {
    exists q :: 0 <= q < k && x.inputs == Entries(phis[q], t)
  }

  lemma MergesMore(phis: seq<Phi>, k: nat, x: Phi, t: Block)
    requires k < |phis|
    ensures x.inputs == Entries(phis[k], t) || Merges(phis, k, x, t) ==> Merges(phis, k + 1, x, t)
  {}

  lemma NewFeeds(m: Moved, phi: Phi, t: Block, n: Block)
    requires Entries(phi, t) != [] && |MoveOne(m, phi, t, n).added| > |m.added|
    ensures Feeds(MoveOne(m, phi, t, n), m.next, n)
    ensures |MoveOne(m, phi, t, n).added| == |m.added| + 1
  {
    hide Entries, HasSource;
    var r := MoveOne(m, phi, t, n);
    assert r.kept[|m.kept|].inputs[1] == PhiInput(m.next, n);
  }

  lemma MoveMore(phis: seq<Phi>, k: nat, m: Moved, t: Block, n: Block, bound: Value)
    requires AllMoved(phis, k, m, t, n, bound) && k < |phis|
    requires Entries(phis[k], t) != [] && HasSource(phis[k].inputs, t)
    ensures AllMoved(phis, k + 1, MoveOne(m, phis[k], t, n), t, n, bound)
  {
    hide Entries, HasSource, MoveOne, MovedPhi, Merges, Feeds;
    MoveOneFacts(m, phis[k], t, n, bound);
    var m' := MoveOne(m, phis[k], t, n);
    forall j | 0 <= j < |m'.added| ensures Merges(phis, k + 1, m'.added[j], t) && Feeds(m', bound + j, n) {
      MergesMore(phis, k, m'.added[j], t);
      assert j < |m.added| ==> m'.added[j] == m.added[j];
      if j < |m.added| {
        FeedsMore(m, m', bound + j, n);
      } else {
        NewFeeds(m, phis[k], t, n);
      }
    }
    MoveOneNext(m, phis[k], t, n);
    forall q | 0 <= q < k + 1 ensures MovedPhi(phis[q], m', q, t, n, bound) {
      if q < k {
        MovedGrows(phis[q], m, m', q, t, n, bound);
      }
    }
  }

  lemma MoveOneNext(m: Moved, phi: Phi, t: Block, n: Block)
    requires Entries(phi, t) != []
    ensures MoveOne(m, phi, t, n).next - m.next == |MoveOne(m, phi, t, n).added| - |m.added|
  {}

  lemma {:induction false} MoveFacts(phis: seq<Phi>, k: nat, t: Block, n: Block, bound: Value)
    requires k <= |phis| && HaveEntries(phis, t) && forall q :: 0 <= q < k ==> HasSource(phis[q].inputs, t)
    ensures AllMoved(phis, k, Move(phis, k, t, n, bound), t, n, bound)
    decreases k
  {
    hide Entries, HasSource, MovedPhi;
    if k > 0 {
      MoveFacts(phis, k - 1, t, n, bound);
      MoveStep(phis, k, t, n, bound);
      MoveMore(phis, k - 1, Move(phis, k - 1, t, n, bound), t, n, bound);
    }
  }

  lemma MovedGrows(phi: Phi, m: Moved, m': Moved, q: nat, t: Block, n: Block, bound: Value)
    requires MovedPhi(phi, m, q, t, n, bound) && q < |m'.kept| && m'.kept[q] == m.kept[q]
    requires |m.added| <= |m'.added| && forall j :: 0 <= j < |m.added| ==> m'.added[j] == m.added[j]
    ensures MovedPhi(phi, m', q, t, n, bound)
  {
    if |Entries(phi, t)| > 1 {
      var j :| 0 <= j < |m.added| && m.added[j] == Phi(bound + j, Entries(phi, t))
        && m.kept[q] == Phi(phi.id, [BackInput(phi, t), PhiInput(bound + j, n)]);
      assert m'.added[j] == m.added[j];
    }
  }

  ghost predicate DistinctSources(ins: seq<PhiInput>) {
    forall k, k' :: 0 <= k < k' < |ins| ==> ins[k].source != ins[k'].source
  }

  /** The phis of a header before the rewriting: one input per predecessor. */
  ghost predicate HeaderPhis(phis: seq<Phi>, ps: set<Block>, t: Block) {
    forall q :: 0 <= q < |phis| ==>
      && (forall u :: u in ps + {t} ==> HasSource(phis[q].inputs, u))
      && DistinctSources(phis[q].inputs)
  }

  lemma {:induction false} SourceUnique(ins: seq<PhiInput>, u: Block, k: nat)
    requires k < |ins| && ins[k].source == u
    requires DistinctSources(ins)
    ensures SourceOf(ins, u) == ins[k].value
    decreases |ins|
  {
    if ins[0].source != u {
      forall i, j | 0 <= i < j < |ins| - 1 ensures ins[1..][i].source != ins[1..][j].source {
        assert ins[1..][i] == ins[i + 1] && ins[1..][j] == ins[j + 1];
      }
      assert ins[1..][k - 1] == ins[k];
      SourceUnique(ins[1..], u, k - 1);
    }
  }

  lemma {:induction false} SourceWithout(ins: seq<PhiInput>, x: PhiInput, u: Block)
    requires x.source != u
    ensures SourceOf(WithoutInput(ins, x), u) == SourceOf(ins, u)
    decreases |ins|
  {
    if ins != [] {
      SourceWithout(ins[1..], x, u);
      if ins[0] != x {
        assert ([ins[0]] + WithoutInput(ins[1..], x))[1..] == WithoutInput(ins[1..], x);
      } else {
        assert [] + WithoutInput(ins[1..], x) == WithoutInput(ins[1..], x);
      }
    }
  }

  lemma EntriesSource(phis: seq<Phi>, ps: set<Block>, t: Block, q: nat, u: Block)
    requires HeaderPhis(phis, ps, t) && q < |phis| && u in ps && t !in ps
    ensures var es := Entries(phis[q], t);
      && es != [] && SourceOf(es, u) == SourceOf(phis[q].inputs, u)
      && (|es| == 1 ==> es[0].value == SourceOf(phis[q].inputs, u))
  {
    var ins := phis[q].inputs;
    assert u in ps + {t} && HasSource(ins, u);
    var k :| 0 <= k < |ins| && ins[k].source == u;
    SourceUnique(ins, u, k);
    assert ins[k] in ins && ins[k] != BackInput(phis[q], t);
    assert ins[k] in Entries(phis[q], t);
    SourceWithout(ins, BackInput(phis[q], t), u);
  }

  // ---- Stores --------------------------------------------------------------------------------------

  /** The same observations and the same values of all old instructions. */
  ghost predicate SameBelow(bound: Value, s: Store<Value>, u: Store<Value>) {
    s.trace == u.trace && forall v: Value :: v < bound ==> Read(s, v) == Read(u, v)
  }

  function Self(): Value -> Value {
    (v: Value) => v
  }

  lemma {:induction false} OperandsBelow(bound: Value, s: Store<Value>, u: Store<Value>, ins: seq<Value>)
    requires SameBelow(bound, s, u) && forall v :: v in ins ==> v < bound
    ensures Operands(s, Self(), ins) == Operands(u, Self(), ins)
    decreases |ins|
  {
    if ins != [] {
      assert forall v :: v in ins[1..] ==> v in ins;
      OperandsBelow(bound, s, u, ins[1..]);
      assert ins[0] in ins && Read(s, ins[0]) == Read(u, ins[0]);
    }
  }

  ghost predicate InstsBelow(insts: seq<Inst>, bound: Value) {
    forall k :: 0 <= k < |insts| ==> insts[k].id < bound && forall v :: v in insts[k].inputs ==> v < bound
  }

  lemma {:induction false} StepsBelow(c: Program, d: Program, bound: Value, s: Store<Value>, u: Store<Value>,
                                      f: Semantics, insts: seq<Inst>, k: nat)
    requires SameBelow(bound, s, u) && InstsBelow(insts, bound) && k <= |insts|
    requires c.noUse == d.noUse && c.effects == d.effects
    ensures SameBelow(bound, Steps(c, s, Self(), f, insts, k), Steps(d, u, Self(), f, insts, k))
    decreases k
  {
    if k > 0 {
      StepsBelow(c, d, bound, s, u, f, insts, k - 1);
      var x := insts[k - 1];
      var s', u' := Steps(c, s, Self(), f, insts, k - 1), Steps(d, u, Self(), f, insts, k - 1);
      OperandsBelow(bound, s', u', x.inputs);
      forall v: Value | v < bound ensures Read(Step(c, s', Self(), f, x), v) == Read(Step(d, u', Self(), f, x), v) {
        assert Read(s', v) == Read(u', v);
      }
    }
  }

  /** Two lists of phis with the same ids that read the same values have the same effect. */
  lemma {:induction false} CopiesAligned(bound: Value, s: Store<Value>, u: Store<Value>, m: map<Value, int>,
                                         w: map<Value, int>, ps: seq<Phi>, qs: seq<Phi>, a: Block, b: Block,
                                         moved: set<Value>, moved': set<Value>)
    requires |ps| == |qs| && SameBelow(bound, s.(vals := m), u.(vals := w))
    requires forall q :: 0 <= q < |ps| ==>
               && ps[q].id == qs[q].id < bound && (ps[q].id in moved <==> ps[q].id in moved')
               && Read(s, SourceOf(ps[q].inputs, a)) == Read(u, SourceOf(qs[q].inputs, b))
    ensures SameBelow(bound, s.(vals := Copies(s, m, Self(), ps, a, moved)),
                      u.(vals := Copies(u, w, Self(), qs, b, moved')))
    decreases |ps|
  {
    if ps != [] {
      var x, y := Read(s, SourceOf(ps[0].inputs, a)), Read(u, SourceOf(qs[0].inputs, b));
      var m' := if ps[0].id in moved then m[ps[0].id := x] else m;
      var w' := if qs[0].id in moved' then w[qs[0].id := y] else w;
      forall q | 0 <= q < |ps| - 1 ensures ps[1..][q] == ps[q + 1] && qs[1..][q] == qs[q + 1] {}
      forall v: Value | v < bound ensures Read(s.(vals := m'), v) == Read(u.(vals := w'), v) {
        assert Read(s.(vals := m), v) == Read(u.(vals := w), v);
      }
      CopiesAligned(bound, s, u, m', w', ps[1..], qs[1..], a, b, moved, moved');
    }
  }

  // ---- The rewritten program -----------------------------------------------------------------------

  ghost predicate Below(body: Code, bound: Value) {
    forall b :: 0 <= b < |body| ==>
      && InstsBelow(body[b].insts, bound)
      && forall q :: 0 <= q < |body[b].phis| ==> PhiBelow(body[b].phis[q], bound)
  }

  ghost predicate PhiBelow(phi: Phi, bound: Value) {
    phi.id < bound && forall k :: 0 <= k < |phi.inputs| ==> phi.inputs[k].value < bound
  }

  function NewIds(bound: Value, k: nat): (r: set<Value>)
    ensures forall v :: v in r <==> bound <= v < bound + k
  {
    if k == 0 then {} else NewIds(bound, k - 1) + {bound + k - 1}
  }

  /** The program with the edges from `ps` to `h` redirected to the new block and the phis moved; `t` is
      the latch.  Instruction ids from `bound` on are new. */
  ghost predicate Rewritten(c: Program, d: Program, ps: set<Block>, h: Block, t: Block, bound: Value) {
    && Redirected(c.g, d.g, ps, h) && |c.body| == |c.g| && t < |c.g| && t !in ps
    && ps != {} && PhisComplete(c.g, c.body)
    && (forall u: nat :: Edge(c.g, u, h) <==> u in ps || u == t)
    && HeaderPhis(c.body[h].phis, ps, t) && HaveEntries(c.body[h].phis, t) && Below(c.body, bound)
    && (forall v: Value :: v in c.moved ==> v < bound)
    && var m := Move(c.body[h].phis, |c.body[h].phis|, t, |c.g|, bound);
       d == Program(d.g, c.body[h := BasicBlock(m.kept, c.body[h].insts)] + [BasicBlock(m.added, [])],
                    c.noUse, c.moved + NewIds(bound, |m.added|), c.effects)
  }

  lemma SourceBelow(c: Program, bound: Value, a: Block, b: Block, q: nat)
    requires Below(c.body, bound) && PhisComplete(c.g, c.body) && Edge(c.g, a, b) && b < |c.body|
    requires q < |c.body[b].phis|
    ensures SourceOf(c.body[b].phis[q].inputs, a) < bound && c.body[b].phis[q].id < bound
  {
    var ins := c.body[b].phis[q].inputs;
    assert HasSource(ins, a);
    var k :| 0 <= k < |ins| && ins[k] == PhiInput(SourceOf(ins, a), a);
  }

  /** An edge that is not redirected. */
  lemma CrossPlain(c: Program, d: Program, ps: set<Block>, h: Block, t: Block, bound: Value, s: Store<Value>,
                   u: Store<Value>, a: Block, b: Block)
    requires Rewritten(c, d, ps, h, t, bound) && SameBelow(bound, s, u)
    requires a < |c.g| && b < |c.g| && Edge(c.g, a, b) && !(b == h && a in ps)
    ensures b < |d.body| && SameBelow(bound, Cross(c, s, Self(), a, b), Cross(d, u, Self(), a, b))
  {
    var phis := c.body[b].phis;
    forall q | 0 <= q < |phis|
      ensures var x := d.body[b].phis[q];
        && phis[q].id == x.id < bound && (phis[q].id in c.moved <==> phis[q].id in d.moved)
        && Read(s, SourceOf(phis[q].inputs, a)) == Read(u, SourceOf(x.inputs, a))
    {
      SourceBelow(c, bound, a, b, q);
      PlainPhi(c, d, ps, h, t, bound, a, b, q);
    }
    assert s.(vals := s.vals) == s && u.(vals := u.vals) == u;
    hide Rewritten;
    CopiesAligned(bound, s, u, s.vals, u.vals, phis, d.body[b].phis, a, a, c.moved, d.moved);
  }

  /** Over an edge that is not redirected a phi reads the input it read before. */
  lemma PlainPhi(c: Program, d: Program, ps: set<Block>, h: Block, t: Block, bound: Value, a: Block, b: Block, q: nat)
    requires Rewritten(c, d, ps, h, t, bound) && a < |c.g| && b < |c.g| && Edge(c.g, a, b) && !(b == h && a in ps)
    requires q < |c.body[b].phis|
    ensures b < |d.body| && q < |d.body[b].phis| == |c.body[b].phis|
    ensures d.body[b].phis[q].id == c.body[b].phis[q].id
    ensures SourceOf(d.body[b].phis[q].inputs, a) == SourceOf(c.body[b].phis[q].inputs, a)
  {
    if b == h {
      var m := MovedHeader(c, d, ps, h, t, bound);
      assert a == t && MovedPhi(c.body[b].phis[q], m, q, t, |c.g|, bound);
      hide Rewritten, Entries;
    }
  }

  lemma NewPhiRead(u: Store<Value>, added: seq<Phi>, j: nat, a: Block, moved: set<Value>, bound: Value)
    requires j < |added| && (forall i :: 0 <= i < |added| ==> added[i].id == bound + i && added[i].id in moved)
    ensures Read(u.(vals := Copies(u, u.vals, Self(), added, a, moved)), bound + j)
              == Read(u, SourceOf(added[j].inputs, a))
  {
    assert Untouched(Self(), added, moved, j + 1, Self()(added[j].id));
    CopiesOwn(u, u.vals, Self(), added, a, moved, j);
  }

  lemma OldRead(u: Store<Value>, added: seq<Phi>, a: Block, moved: set<Value>, bound: Value, v: Value)
    requires v < bound && forall i :: 0 <= i < |added| ==> added[i].id == bound + i
    ensures Read(u.(vals := Copies(u, u.vals, Self(), added, a, moved)), v) == Read(u, v)
  {
    assert Untouched(Self(), added, moved, 0, v);
    CopiesOther(u, u.vals, Self(), added, a, moved, v);
  }

  /** The value that a header phi finds when control comes through the new block. */
  lemma ThroughValue(c: Program, d: Program, ps: set<Block>, h: Block, t: Block, bound: Value, u: Store<Value>,
                     a: Block, q: nat)
    requires Rewritten(c, d, ps, h, t, bound) && a in ps && a < |c.g| && q < |c.body[h].phis| && |c.g| < |d.body|
    requires h < |d.body| && q < |d.body[h].phis|
    ensures var n := |c.g|;
      Read(Cross(d, u, Self(), a, n), SourceOf(d.body[h].phis[q].inputs, n))
        == Read(u, SourceOf(c.body[h].phis[q].inputs, a))
    ensures d.body[h].phis[q].id == c.body[h].phis[q].id
  {
    var m := MovedHeader(c, d, ps, h, t, bound);
    EntryFacts(c, d, ps, h, t, bound, a, q);
    assert MovedPhi(c.body[h].phis[q], m, q, t, |c.g|, bound);
    hide *;
    EntryValue(c.body[h].phis[q], m, q, t, |c.g|, bound, u, a, d.moved);
    CrossVals(d, u, a, |c.g|);
  }

  lemma CrossVals(d: Program, u: Store<Value>, a: Block, n: Block)
    requires n < |d.body|
    ensures Cross(d, u, Self(), a, n) == u.(vals := Copies(u, u.vals, Self(), d.body[n].phis, a, d.moved))
  {}

  /** The phis of the header and of the new block. */
  lemma MovedHeader(c: Program, d: Program, ps: set<Block>, h: Block, t: Block, bound: Value) returns (m: Moved)
    requires Rewritten(c, d, ps, h, t, bound)
    ensures h < |c.g| < |d.body| && h < |c.body| && d.body[|c.g|].phis == m.added && d.body[h].phis == m.kept
    ensures t != |c.g|
    ensures |m.kept| == |c.body[h].phis|
    ensures forall q :: 0 <= q < |c.body[h].phis| ==> MovedPhi(c.body[h].phis[q], m, q, t, |c.g|, bound)
    ensures forall i :: 0 <= i < |m.added| ==> m.added[i].id == bound + i && m.added[i].id in d.moved
  {
    var phis := c.body[h].phis;
    m := Move(phis, |phis|, t, |c.g|, bound);
    assert t in ps + {t};
    MoveFacts(phis, |phis|, t, |c.g|, bound);
  }

  lemma EntryFacts(c: Program, d: Program, ps: set<Block>, h: Block, t: Block, bound: Value, a: Block, q: nat)
    requires Rewritten(c, d, ps, h, t, bound) && a in ps && h < |c.body| && q < |c.body[h].phis|
    ensures var phi := c.body[h].phis[q];
      var es := Entries(phi, t);
      && es != [] && SourceOf(es, a) == SourceOf(phi.inputs, a) < bound && phi.id < bound
      && (|es| == 1 ==> es[0].value == SourceOf(phi.inputs, a))
  {
    EntriesSource(c.body[h].phis, ps, t, q, a);
    assert Edge(c.g, a, h);
    SourceBelow(c, bound, a, h, q);
  }

  lemma EntryValue(phi: Phi, m: Moved, q: nat, t: Block, n: Block, bound: Value, u: Store<Value>, a: Block,
                   moved: set<Value>)
    requires MovedPhi(phi, m, q, t, n, bound) && t != n && SourceOf(phi.inputs, a) < bound
    requires forall i :: 0 <= i < |m.added| ==> m.added[i].id == bound + i && m.added[i].id in moved
    requires var es := Entries(phi, t);
      SourceOf(es, a) == SourceOf(phi.inputs, a) && (|es| == 1 ==> es[0].value == SourceOf(phi.inputs, a))
    ensures Read(u.(vals := Copies(u, u.vals, Self(), m.added, a, moved)), SourceOf(m.kept[q].inputs, n))
         == Read(u, SourceOf(phi.inputs, a))
    ensures m.kept[q].id == phi.id
  {
    var es := Entries(phi, t);
    hide Entries, SourceOf, Copies, Read;
    if |es| == 1 {
      SecondSource(phi, t, n, es[0].value);
      OldRead(u, m.added, a, moved, bound, es[0].value);
    } else {
      var j :| 0 <= j < |m.added| && m.added[j] == Phi(bound + j, es)
        && m.kept[q] == Phi(phi.id, [BackInput(phi, t), PhiInput(bound + j, n)]);
      SecondSource(phi, t, n, bound + j);
      NewPhiRead(u, m.added, j, a, moved, bound);
    }
  }

  lemma SecondSource(phi: Phi, t: Block, n: Block, v: Value)
    requires t != n
    ensures SourceOf([BackInput(phi, t), PhiInput(v, n)], n) == v
  {
    assert [BackInput(phi, t), PhiInput(v, n)][1..] == [PhiInput(v, n)];
  }

  /** A redirected edge: through the new block every header phi takes the value it took before. */
  lemma CrossThrough(c: Program, d: Program, ps: set<Block>, h: Block, t: Block, bound: Value, s: Store<Value>,
                     u: Store<Value>, a: Block)
    requires Rewritten(c, d, ps, h, t, bound) && SameBelow(bound, s, u) && a in ps && a < |c.g|
    ensures h < |d.body| && |c.g| < |d.body|
    ensures SameBelow(bound, Cross(c, s, Self(), a, h), Cross(d, Cross(d, u, Self(), a, |c.g|), Self(), |c.g|, h))
  {
    var m := MovedHeader(c, d, ps, h, t, bound);
    var phis, n := c.body[h].phis, |c.g|;
    var u1 := Cross(d, u, Self(), a, n);
    forall v: Value | v < bound ensures Read(s, v) == Read(u1, v) {
      OldRead(u, m.added, a, d.moved, bound, v);
    }
    forall q | 0 <= q < |phis|
      ensures var x := d.body[h].phis[q];
        && phis[q].id == x.id < bound && (phis[q].id in c.moved <==> phis[q].id in d.moved)
        && Read(s, SourceOf(phis[q].inputs, a)) == Read(u1, SourceOf(x.inputs, n))
    {
      ThroughValue(c, d, ps, h, t, bound, u, a, q);
      EntryFacts(c, d, ps, h, t, bound, a, q);
    }
    assert s.(vals := s.vals) == s && u1.(vals := u1.vals) == u1;
    hide Rewritten;
    CopiesAligned(bound, s, u1, s.vals, u1.vals, phis, d.body[h].phis, a, n, c.moved, d.moved);
  }

  // ---- Runs ------------------------------------------------------------------------------------------

  lemma ExpandedInProgram(c: Program, d: Program, ps: set<Block>, h: Block, t: Block, bound: Value, p: seq<Block>)
    requires Rewritten(c, d, ps, h, t, bound) && InProgram(c, p)
    ensures InProgram(d, Expand(|c.g|, ps, h, p))
    ensures d.body[p[|p| - 1]].insts == c.body[p[|p| - 1]].insts
    ensures c.noUse == d.noUse && c.effects == d.effects && InstsBelow(c.body[p[|p| - 1]].insts, bound)
  {
    ExpandIsPath(c.g, d.g, ps, h, p);
  }

  lemma EndBelow(c: Program, d: Program, ps: set<Block>, h: Block, t: Block, bound: Value, f: Semantics, p: seq<Block>)
    requires Rewritten(c, d, ps, h, t, bound) && InProgram(c, p) && InProgram(d, Expand(|c.g|, ps, h, p))
    requires SameBelow(bound, Enter(c, Self(), f, p), Enter(d, Self(), f, Expand(|c.g|, ps, h, p)))
    ensures SameBelow(bound, End(c, Self(), f, p), End(d, Self(), f, Expand(|c.g|, ps, h, p)))
  {
    ExpandedInProgram(c, d, ps, h, t, bound, p);
    var q := Expand(|c.g|, ps, h, p);
    assert q[|q| - 1] == p[|p| - 1];
    hide Rewritten, Expand, Enter, SameBelow, Steps;
    StepsBelow(c, d, bound, Enter(c, Self(), f, p), Enter(d, Self(), f, q), f, c.body[p[|p| - 1]].insts,
               |c.body[p[|p| - 1]].insts|);
  }

  /** Two steps through the new block, which has no instructions. */
  lemma EnterThrough(d: Program, f: Semantics, e: seq<Block>, n: Block, h: Block)
    requires InProgram(d, e) && InProgram(d, e + [n, h]) && n < |d.body| && h < |d.body| && d.body[n].insts == []
    ensures Enter(d, Self(), f, e + [n, h])
         == Cross(d, Cross(d, End(d, Self(), f, e), Self(), e[|e| - 1], n), Self(), n, h)
  {
    var q := e + [n, h];
    PathSlice(d.g, q, 0, |q| - 1);
    assert q[0..|q| - 1] == e + [n] && (e + [n])[0..|e + [n]| - 1] == e;
    EnterStep(d, Self(), f, q, e + [n]);
    EnterStep(d, Self(), f, e + [n], e);
  }

  lemma EnterDirect(d: Program, f: Semantics, e: seq<Block>, v: Block)
    requires InProgram(d, e) && InProgram(d, e + [v]) && v < |d.body|
    ensures Enter(d, Self(), f, e + [v]) == Cross(d, End(d, Self(), f, e), Self(), e[|e| - 1], v)
  {
    assert (e + [v])[0..|e + [v]| - 1] == e;
    EnterStep(d, Self(), f, e + [v], e);
  }

  lemma NewBlockEmpty(c: Program, d: Program, ps: set<Block>, h: Block, t: Block, bound: Value)
    requires Rewritten(c, d, ps, h, t, bound)
    ensures |d.body| == |c.g| + 1 && h < |c.g| && d.body[|c.g|].insts == []
  {}

  /** The rewriting preserves meaning: along every path, with the new block put in wherever a redirected
      edge is taken, the rewritten program has computed the same values, in particular the same value
      for every phi of the header, and has observed the same events. */
  lemma {:induction false} RewritePreservesRuns(c: Program, d: Program, ps: set<Block>, h: Block, t: Block,
                                                bound: Value, f: Semantics, p: seq<Block>)
    requires Rewritten(c, d, ps, h, t, bound) && InProgram(c, p)
    ensures InProgram(d, Expand(|c.g|, ps, h, p))
    ensures SameBelow(bound, Enter(c, Self(), f, p), Enter(d, Self(), f, Expand(|c.g|, ps, h, p)))
    ensures SameBelow(bound, End(c, Self(), f, p), End(d, Self(), f, Expand(|c.g|, ps, h, p)))
    decreases |p|
  {
    ExpandedInProgram(c, d, ps, h, t, bound, p);
    if |p| > 1 {
      PathSlice(c.g, p, 0, |p| - 1);
      var front := p[0..|p| - 1];
      RewritePreservesRuns(c, d, ps, h, t, bound, f, front);
      RunStep(c, d, ps, h, t, bound, f, p, front);
    }
    EndBelow(c, d, ps, h, t, bound, f, p);
  }

  lemma RunStep(c: Program, d: Program, ps: set<Block>, h: Block, t: Block, bound: Value, f: Semantics,
                p: seq<Block>, front: seq<Block>)
    requires Rewritten(c, d, ps, h, t, bound) && InProgram(c, p) && |p| > 1 && front == p[0..|p| - 1]
    requires InProgram(c, front) && InProgram(d, Expand(|c.g|, ps, h, p)) && InProgram(d, Expand(|c.g|, ps, h, front))
    requires SameBelow(bound, End(c, Self(), f, front), End(d, Self(), f, Expand(|c.g|, ps, h, front)))
    ensures SameBelow(bound, Enter(c, Self(), f, p), Enter(d, Self(), f, Expand(|c.g|, ps, h, p)))
  {
    hide *;
    StepFacts(c, d, ps, h, t, bound, p);
    SplitLast(p);
    var u, v, n := p[|p| - 2], p[|p| - 1], |c.g|;
    EnterStep(c, Self(), f, p, front);
    ExpandSnoc(n, ps, h, front, v);
    ViaIs(n, ps, h, u, v);
    var e := Expand(n, ps, h, front);
    if v == h && u in ps {
      CrossThrough(c, d, ps, h, t, bound, End(c, Self(), f, front), End(d, Self(), f, e), u);
      EnterThrough(d, f, e, n, h);
    } else {
      CrossPlain(c, d, ps, h, t, bound, End(c, Self(), f, front), End(d, Self(), f, e), u, v);
      EnterDirect(d, f, e, v);
    }
  }

  lemma StepFacts(c: Program, d: Program, ps: set<Block>, h: Block, t: Block, bound: Value, p: seq<Block>)
    requires Rewritten(c, d, ps, h, t, bound) && InProgram(c, p) && |p| > 1
    ensures p[|p| - 2] < |c.g| && p[|p| - 1] < |c.g| && Edge(c.g, p[|p| - 2], p[|p| - 1])
    ensures |d.body| == |c.g| + 1 == |c.body| + 1 && h < |c.g| && d.body[|c.g|].insts == []
  {
    LastEdge(c.g, p);
    NewBlockEmpty(c, d, ps, h, t, bound);
  }

  lemma ViaIs(n: Block, ps: set<Block>, h: Block, u: Block, v: Block)
    ensures Via(n, ps, h, u, v) == if v == h && u in ps then [n, h] else [v]
  {}

  lemma SplitLast(p: seq<Block>)
    requires |p| > 1
    ensures p == p[0..|p| - 1] + [p[|p| - 1]] && p[0..|p| - 1][|p| - 2] == p[|p| - 2]
  {}

  lemma LastEdge(g: Graph, p: seq<Block>)
    requires IsPath(g, p) && |p| > 1
    ensures p[|p| - 2] < |g| && p[|p| - 1] < |g| && Edge(g, p[|p| - 2], p[|p| - 1])
  {
    assert EdgeAt(g, p, |p| - 2);
  }
}
