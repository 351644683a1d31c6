/** Dead code elimination (pass/dce.cpp): marking follows inputs backwards, also through phi cycles;
    what is not marked is unlinked and disappears from all user lists. */
module DeadCode {
  import opened Cfg
  import opened Ssa
  import opened Execution
  import opened Editing
  import opened Thinning
  import opened Traversal
  import opened Orders

  // ---- Marking ---------------------------------------------------------------------------------

  ghost predicate IsRoot(body: Code, bs: set<Block>, noDce: set<Value>, v: Value) {
    v in noDce && exists b, k :: b in bs && InstDef(body, b, k, v)
  }

  ghost predicate Closed(t: Table, s: set<Value>) {
    forall v :: v in s ==> v in t && forall u :: u in t[v] ==> u in s
  }

  /** `s` is the least set that holds the roots and is closed under inputs. */
  ghost predicate LeastClosure(t: Table, body: Code, bs: set<Block>, noDce: set<Value>, s: set<Value>) {
    && (forall v :: IsRoot(body, bs, noDce, v) ==> v in s)
    && Closed(t, s)
    && forall s2 :: Closed(t, s2) && (forall v :: IsRoot(body, bs, noDce, v) ==> v in s2) ==> s <= s2
  }

  /** One marking visit from `v`: what is new is closed under inputs and was needed. */
  ghost predicate Visited(t: Table, before: set<Value>, after: set<Value>, v: Value) {
    && before <= after && v in after
    && (forall x, u :: x in after - before && x in t && u in t[x] ==> u in after)
    && (forall x :: x in after - before ==> x in t)
    && (forall s :: Closed(t, s) && v in s ==> after <= before + s)
  }

  /** The visit of `v` after its inputs `t[v][..k]`. */
  ghost predicate Visiting(t: Table, before: set<Value>, now: set<Value>, v: Value, k: nat)
    requires v in t && k <= |t[v]|
  {
    && before + {v} <= now && v !in before
    && (forall x, u :: x in now - before && x != v && x in t && u in t[x] ==> u in now)
    && (forall x :: x in now - before ==> x in t)
    && (forall i :: 0 <= i < k ==> t[v][i] in now)
    && (forall s :: Closed(t, s) && v in s ==> now <= before + s)
  }

  lemma VisitingStep(t: Table, before: set<Value>, now: set<Value>, after: set<Value>, v: Value, k: nat)
    requires v in t && k < |t[v]| && Visiting(t, before, now, v, k) && Visited(t, now, after, t[v][k])
    ensures Visiting(t, before, after, v, k + 1)
  {
    forall x, u | x in after - before && x != v && x in t && u in t[x] ensures u in after {
      if x in now {
        assert u in now;
      } else {
        assert x in after - now;
      }
    }
    forall s | Closed(t, s) && v in s ensures after <= before + s {
      assert t[v][k] in t[v];
      assert t[v][k] in s && after <= now + s && now <= before + s;
    }
  }

  lemma VisitingDone(t: Table, before: set<Value>, now: set<Value>, v: Value)
    requires v in t && Visiting(t, before, now, v, |t[v]|)
    ensures Visited(t, before, now, v)
  {
    forall x, u | x in now - before && x in t && u in t[x] ensures u in now {}
  }

  lemma VisitedKeeps(t: Table, before: set<Value>, after: set<Value>, v: Value)
    requires Closed(t, before) && Visited(t, before, after, v)
    ensures Closed(t, after) && v in after && before <= after
    ensures forall s :: Closed(t, s) && before <= s && v in s ==> after <= s
  {
    forall x | x in after ensures x in t && forall u :: u in t[x] ==> u in after {
      if x !in before {
        assert x in after - before;
      }
    }
  }

  // ---- Sweeping --------------------------------------------------------------------------------

  /** The instructions that the sweep of the blocks `bs` removes. */
  ghost function Removed(body: Code, t: Table, bs: set<Block>, keep: set<Value>): set<Value> {
    set v | v in t && v !in keep && exists b :: b in bs && b < |body| && InBlock(body[b], v)
  }

  /** Exactly the entries of instructions and phis that have been removed are gone from the user lists. */
  ghost predicate UsersLeft(m: Users, r: Users, body: Code, bs: set<Block>, keep: set<Value>) {
    && r.Keys == m.Keys
    && forall v, u: User :: v in m ==> (u in r[v] <==> u in m[v] && (u.inst in keep || !Stands(body, bs, u.inst)))
  }

  /** `v` is an instruction or a phi of one of the blocks. */
  ghost predicate Stands(body: Code, bs: set<Block>, v: Value) {
    exists b :: b in bs && ((exists k :: InstDef(body, b, k, v)) || PhiDef(body, b, v))
  }

  lemma StandsIff(body: Code, bs: set<Block>, v: Value)
    ensures Stands(body, bs, v) <==> exists b :: b in bs && b < |body| && InBlock(body[b], v)
  {
    if b :| b in bs && b < |body| && InBlock(body[b], v) {
      if k :| 0 <= k < |body[b].insts| && body[b].insts[k].id == v {
        assert InstDef(body, b, k, v);
      } else {
        assert PhiDef(body, b, v);
      }
    }
  }

  lemma UsersAreLeft(m: Users, body: Code, t: Table, bs: set<Block>, keep: set<Value>)
    requires Listed(t, m)
    ensures UsersLeft(m, UsersWithout(m, Removed(body, t, bs, keep)), body, bs, keep)
  {
    var r := UsersWithout(m, Removed(body, t, bs, keep));
    hide Stands, InBlock;
    forall v, u: User | v in m ensures u in r[v] <==> u in m[v] && (u.inst in keep || !Stands(body, bs, u.inst)) {
      StandsIff(body, bs, u.inst);
      assert r[v] == Without(m[v], Removed(body, t, bs, keep));
    }
  }

  /** Marking so far: closed, and nothing marked that is not needed. */
  ghost predicate Marking(t: Table, body: Code, bs: set<Block>, noDce: set<Value>, s: set<Value>) {
    && Closed(t, s)
    && forall s2 :: Closed(t, s2) && (forall v :: IsRoot(body, bs, noDce, v) ==> v in s2) ==> s <= s2
  }

  /** The roots among the first `k` instructions of a block are marked. */
  ghost predicate RootsMarked(insts: seq<Inst>, k: nat, noDce: set<Value>, s: set<Value>) {
    forall q :: 0 <= q < k && q < |insts| && insts[q].id in noDce ==> insts[q].id in s
  }

  lemma MarkingStep(t: Table, body: Code, bs: set<Block>, noDce: set<Value>, s: set<Value>, after: set<Value>,
                    b: Block, k: nat)
    requires Marking(t, body, bs, noDce, s) && b in bs && b < |body| && k < |body[b].insts|
    requires body[b].insts[k].id in noDce && Visited(t, s, after, body[b].insts[k].id)
    ensures Marking(t, body, bs, noDce, after) && s <= after && body[b].insts[k].id in after
  {
    var v := body[b].insts[k].id;
    VisitedKeeps(t, s, after, v);
    assert InstDef(body, b, k, v);
    assert IsRoot(body, bs, noDce, v);
    hide Closed, Visited, IsRoot;
  }

  lemma MarkingDone(t: Table, body: Code, po: seq<Block>, noDce: set<Value>, s: set<Value>)
    requires Marking(t, body, Elems(po), noDce, s)
    requires forall i :: 0 <= i < |po| ==>
               po[i] < |body| && RootsMarked(body[po[i]].insts, |body[po[i]].insts|, noDce, s)
    ensures LeastClosure(t, body, Elems(po), noDce, s)
  {
    forall v | IsRoot(body, Elems(po), noDce, v) ensures v in s {
      var b, k :| b in Elems(po) && InstDef(body, b, k, v);
      var i :| 0 <= i < |po| && po[i] == b;
      assert RootsMarked(body[po[i]].insts, |body[po[i]].insts|, noDce, s);
    }
  }

  lemma {:induction false} RemovedGrows(body: Code, t: Table, po: seq<Block>, keep: set<Value>, i: nat)
    requires TableOf(body, t) && i < |po| && po[i] < |body|
    ensures Removed(body, t, Elems(po[..i + 1]), keep)
         == Removed(body, t, Elems(po[..i]), keep) + Dead(body[po[i]], keep)
    ensures Removed(body, t, Elems(po[..0]), keep) == {}
  {
    assert po[..i + 1] == po[..i] + [po[i]];
    ElemsConcat(po[..i], [po[i]]);
    var r, r' := Removed(body, t, Elems(po[..i]), keep), Removed(body, t, Elems(po[..i + 1]), keep);
    forall v | v in Dead(body[po[i]], keep) ensures v in r' {
      assert po[i] in Elems(po[..i + 1]);
    }
    forall v | v in r' ensures v in r || v in Dead(body[po[i]], keep) {
      var b :| b in Elems(po[..i + 1]) && b < |body| && InBlock(body[b], v);
      if b == po[i] {
        DeadMember(body[b], keep, v);
      }
    }
    forall v | v in r ensures v in r' {
      var b :| b in Elems(po[..i]) && b < |body| && InBlock(body[b], v);
      assert b in Elems(po[..i + 1]);
    }
  }

  function DeadInsts(insts: seq<Inst>, k: nat, keep: set<Value>): (r: set<Value>)
    requires k <= |insts|
    ensures forall v :: v in r <==> v !in keep && exists q :: k <= q < |insts| && insts[q].id == v
    decreases |insts| - k
  {
    if k == |insts| then {}
    else DeadInsts(insts, k + 1, keep) + if insts[k].id in keep then {} else {insts[k].id}
  }

  function DeadPhis(phis: seq<Phi>, k: nat, keep: set<Value>): (r: set<Value>)
    requires k <= |phis|
    ensures forall v :: v in r <==> v !in keep && exists q :: k <= q < |phis| && phis[q].id == v
    decreases |phis| - k
  {
    if k == |phis| then {}
    else DeadPhis(phis, k + 1, keep) + if phis[k].id in keep then {} else {phis[k].id}
  }

  /** The instructions and phis of a block that are not marked. */
  function Dead(bb: BasicBlock, keep: set<Value>): (r: set<Value>)
    ensures forall v :: v in r <==> v !in keep && InBlock(bb, v)
  {
    DeadInsts(bb.insts, 0, keep) + DeadPhis(bb.phis, 0, keep)
  }

  lemma DeadMember(bb: BasicBlock, keep: set<Value>, v: Value)
    ensures v in Dead(bb, keep) <==> v !in keep && InBlock(bb, v)
  {}

  lemma DropDead(bb: BasicBlock, keep: set<Value>)
    ensures Drop(bb, Dead(bb, keep)) == KeepIn(bb, keep)
  {
    forall k | 0 <= k < |bb.insts| ensures bb.insts[k].id in Dead(bb, keep) <==> bb.insts[k].id !in keep {
      assert InBlock(bb, bb.insts[k].id);
    }
    forall k | 0 <= k < |bb.phis| ensures bb.phis[k].id in Dead(bb, keep) <==> bb.phis[k].id !in keep {
      assert InBlock(bb, bb.phis[k].id);
    }
    DropInstsDead(bb.insts, Dead(bb, keep), keep);
    DropPhisDead(bb.phis, Dead(bb, keep), keep);
  }

  lemma DeadInstsStep(insts: seq<Inst>, k: nat, keep: set<Value>)
    requires k < |insts|
    ensures DeadInsts(insts, k, keep) ==
              DeadInsts(insts, k + 1, keep) + if insts[k].id in keep then {} else {insts[k].id}
  {}

  lemma SweptStep(body: Code, po: seq<Block>, i: nat, keep: set<Value>)
    requires i < |po| && po[i] < |body| && po[i] !in po[..i]
    ensures Swept(body, Elems(po[..i]), keep)[po[i]] == body[po[i]]
    ensures Swept(body, Elems(po[..i + 1]), keep)
         == Swept(body, Elems(po[..i]), keep)[po[i] := KeepIn(body[po[i]], keep)]
  {
    assert po[..i + 1] == po[..i] + [po[i]];
    ElemsConcat(po[..i], [po[i]]);
  }

  lemma PostBlocks(g: Graph)
    requires Valid(g)
    ensures var po := Post(g, START, {}); Distinct(po) && forall i :: 0 <= i < |po| ==> po[i] < |g|
  {
    PostorderComplete(g);
    var po := Post(g, START, {});
    forall i | 0 <= i < |po| ensures po[i] < |g| {
      assert po[i] in po;
      var p :| PathFromTo(g, p, START, po[i]);
    }
  }

  lemma MarkingStart(t: Table, body: Code, bs: set<Block>, noDce: set<Value>)
    ensures Marking(t, body, bs, noDce, {})
  {}

  lemma SweepStart(body: Code, t: Table, users: Users, po: seq<Block>, keep: set<Value>)
    requires TableOf(body, t)
    ensures Removed(body, t, Elems(po[..0]), keep) == {} && UsersWithout(users, {}) == users
    ensures Swept(body, Elems(po[..0]), keep) == body
  {
    forall v | v in users ensures Without(users[v], {}) == users[v] {
      WithoutAbsent(users[v], {});
    }
  }

  lemma TableInst(body: Code, t: Table, b: Block, k: nat)
    requires TableOf(body, t) && b < |body| && k < |body[b].insts|
    ensures InputsSet(t) && body[b].insts[k].id in t
  {}

  lemma TablePhi(body: Code, t: Table, b: Block, k: nat)
    requires TableOf(body, t) && b < |body| && k < |body[b].phis|
    ensures InputsSet(t) && body[b].phis[k].id in t
  {}

  class DCE {
    const g: Graph
    const ir: Ir
    const noDce: set<Value>
    var visited: set<Value>

    constructor (g: Graph, ir: Ir, noDce: set<Value>)
      ensures this.g == g && this.ir == ir && this.noDce == noDce
    {
      this.g, this.ir, this.noDce, visited := g, ir, noDce, {};
    }

    /** Afterwards exactly the least set that holds the reachable `NO_DCE` instructions and is closed
        under inputs survives in the reachable blocks. */
    method Run()
      requires Valid(g) && |ir.body| == |g| && TableOf(ir.body, ir.t) && Listed(ir.t, ir.users)
      modifies this, ir
      ensures var bs := Elems(Post(g, START, {}));
        && LeastClosure(ir.t, old(ir.body), bs, noDce, visited)
        && ir.body == Swept(old(ir.body), bs, visited) && OnlyLeft(old(ir.body), ir.body, bs, visited)
        && ir.users == UsersWithout(old(ir.users), Removed(old(ir.body), ir.t, bs, visited))
        && UsersLeft(old(ir.users), ir.users, old(ir.body), bs, visited)
    {
      ghost var body, users := ir.body, ir.users;
      var po := new PO(g);
      po.Run();
      PostBlocks(g);
      hide *;
      visited := {};
      Mark(po.blocks);
      Sweep(po.blocks);
      SweptLeaves(body, Elems(po.blocks), visited);
      UsersAreLeft(users, body, ir.t, Elems(po.blocks), visited);
    }

    method Mark(po: seq<Block>)
      requires TableOf(ir.body, ir.t) && visited == {} && forall i :: 0 <= i < |po| ==> po[i] < |ir.body|
      modifies this`visited
      ensures LeastClosure(ir.t, ir.body, Elems(po), noDce, visited)
    {
      hide Closed, IsRoot, TableOf;
      MarkingStart(ir.t, ir.body, Elems(po), noDce);
      for i := 0 to |po|
        invariant Marking(ir.t, ir.body, Elems(po), noDce, visited)
        invariant forall j :: 0 <= j < i ==> RootsMarked(ir.body[po[j]].insts, |ir.body[po[j]].insts|, noDce, visited)
      {
        MarkBlock(po, po[i]);
      }
      MarkingDone(ir.t, ir.body, po, noDce, visited);
    }

    method MarkBlock(po: seq<Block>, b: Block)
      requires TableOf(ir.body, ir.t) && b in po && b < |ir.body| && Marking(ir.t, ir.body, Elems(po), noDce, visited)
      modifies this`visited
      ensures old(visited) <= visited && Marking(ir.t, ir.body, Elems(po), noDce, visited)
      ensures RootsMarked(ir.body[b].insts, |ir.body[b].insts|, noDce, visited)
    {
      hide Closed, IsRoot, Marking, Visited;
      var insts := ir.body[b].insts;
      for k := 0 to |insts|
        invariant old(visited) <= visited && Marking(ir.t, ir.body, Elems(po), noDce, visited)
        invariant RootsMarked(insts, k, noDce, visited)
      {
        if insts[k].id in noDce {
          ghost var before := visited;
          MarkRecursively(insts[k].id);
          MarkingStep(ir.t, ir.body, Elems(po), noDce, before, visited, b, k);
        }
      }
    }

    method MarkRecursively(v: Value)
      requires InputsSet(ir.t) && v in ir.t
      modifies this`visited
      ensures Visited(ir.t, old(visited), visited, v)
      decreases ir.t.Keys - visited
    {
      if v in visited {
        return;
      }
      visited := visited + {v};
      for k := 0 to |ir.t[v]|
        invariant Visiting(ir.t, old(visited), visited, v, k)
      {
        ghost var now := visited;
        MarkRecursively(ir.t[v][k]);
        VisitingStep(ir.t, old(visited), now, visited, v, k);
      }
      VisitingDone(ir.t, old(visited), visited, v);
    }

    method Sweep(po: seq<Block>)
      requires TableOf(ir.body, ir.t) && Listed(ir.t, ir.users) && Distinct(po)
      requires forall i :: 0 <= i < |po| ==> po[i] < |ir.body|
      modifies ir
      ensures ir.body == Swept(old(ir.body), Elems(po), visited)
      ensures ir.users == UsersWithout(old(ir.users), Removed(old(ir.body), ir.t, Elems(po), visited))
    {
      SweepStart(ir.body, ir.t, ir.users, po, visited);
      hide TableOf, Listed, Swept, Removed, UsersWithout;
      for i := 0 to |po|
        invariant |ir.body| == |old(ir.body)| && ir.body == Swept(old(ir.body), Elems(po[..i]), visited)
        invariant ir.users == UsersWithout(old(ir.users), Removed(old(ir.body), ir.t, Elems(po[..i]), visited))
      {
        SweptStep(old(ir.body), po, i, visited);
        RemovedGrows(old(ir.body), ir.t, po, visited, i);
        SweepBlock(po[i], old(ir.body), old(ir.users), Removed(old(ir.body), ir.t, Elems(po[..i]), visited));
      }
      assert po[..|po|] == po;
    }

    method SweepBlock(b: Block, ghost body0: Code, ghost users0: Users, ghost r: set<Value>)
      requires b < |ir.body| == |body0| && ir.body[b] == body0[b] && TableOf(body0, ir.t) && Listed(ir.t, users0)
      requires ir.users == UsersWithout(users0, r)
      modifies ir
      ensures ir.body == old(ir.body)[b := KeepIn(body0[b], visited)]
      ensures ir.users == UsersWithout(users0, r + Dead(body0[b], visited))
    {
      hide TableOf, Listed, UsersWithout;
      var toRemove: set<Value> := {};
      var insts := ir.body[b].insts;
      assert r + toRemove == r;
      for k := |insts| downto 0
        invariant ir.body == old(ir.body) && toRemove == DeadInsts(insts, k, visited)
        invariant ir.users == UsersWithout(users0, r + toRemove)
      {
        DeadInstsStep(insts, k, visited);
        if insts[k].id !in visited {
          TableInst(body0, ir.t, b, k);
          ir.DropUser(insts[k].id, users0, r + toRemove);
          toRemove := toRemove + {insts[k].id};
          assert r + toRemove == r + DeadInsts(insts, k + 1, visited) + {insts[k].id};
        }
      }
      var phis := ir.body[b].phis;
      for k := |phis| downto 0
        invariant ir.body == old(ir.body) && toRemove == DeadInsts(insts, 0, visited) + DeadPhis(phis, k, visited)
        invariant ir.users == UsersWithout(users0, r + toRemove)
      {
        if phis[k].id !in visited {
          TablePhi(body0, ir.t, b, k);
          ir.DropUser(phis[k].id, users0, r + toRemove);
          assert r + (toRemove + {phis[k].id}) == r + toRemove + {phis[k].id};
          toRemove := toRemove + {phis[k].id};
        }
      }
      ir.UnlinkAll(b, toRemove);
      DropDead(body0[b], visited);
    }
  }

  // ---- What the program does ---------------------------------------------------------------------

  /** A program before and after the pass. */
  ghost predicate Eliminated(c: Program, d: Program, t: Table, keep: set<Value>) {
    && Valid(c.g) && PhisComplete(c.g, c.body) && TableOf(c.body, t)
    && LeastClosure(t, c.body, Elems(Post(c.g, START, {})), c.effects, keep)
    && d == c.(body := Swept(c.body, Elems(Post(c.g, START, {})), keep))
  }

  lemma EliminatedThins(c: Program, d: Program, t: Table, keep: set<Value>)
    requires Eliminated(c, d, t, keep)
    ensures Thinned(c, d, Elems(Post(c.g, START, {})), keep)
  {
    PostorderComplete(c.g);
    forall b: Block | Reachable(c.g, b) && b < |c.g| ensures InstsClosed(c.body[b].insts, keep, c.effects) {
      ReachedBlock(c, d, t, keep, b);
    }
    forall a: Block, b: Block | Edge(c.g, a, b) && b < |c.g| ensures PhisClosed(c.body[b].phis, a, keep) {
      ReachedPhis(c, d, t, keep, a, b);
    }
  }

  /** Elimination preserves every run: the program takes the same path, performs the same `NO_DCE`
      instructions in the same order on the same operand values, and computes the same surviving
      values. */
  lemma EliminationPreservesRuns(c: Program, d: Program, t: Table, keep: set<Value>, f: Semantics,
                                 choose: Control, p: seq<Block>)
    requires Eliminated(c, d, t, keep)
    ensures Taken(c, f, choose, p) <==> Taken(d, f, choose, p)
    ensures Taken(c, f, choose, p) ==> Same(keep, End(c, Id(), f, p), End(d, Id(), f, p))
  {
    EliminatedThins(c, d, t, keep);
    RunsPreserved(c, d, Elems(Post(c.g, START, {})), keep, f, choose, p);
  }

  lemma ReachedBlock(c: Program, d: Program, t: Table, keep: set<Value>, b: Block)
    requires Eliminated(c, d, t, keep) && Reachable(c.g, b) && b < |c.body|
    ensures |d.body| == |c.body| && d.body[b] == KeepIn(c.body[b], keep)
    ensures InstsClosed(c.body[b].insts, keep, c.effects)
  {
    var bs := Elems(Post(c.g, START, {}));
    PostorderComplete(c.g);
    assert b in bs;
    forall k | 0 <= k < |c.body[b].insts|
      ensures var x := c.body[b].insts[k];
        && (x.id in keep ==> forall u :: u in x.inputs ==> u in keep)
        && (x.id in c.effects ==> x.id in keep)
    {
      assert InstDef(c.body, b, k, c.body[b].insts[k].id);
      assert c.body[b].insts[k].id in c.effects ==> IsRoot(c.body, bs, c.effects, c.body[b].insts[k].id);
    }
  }

  lemma ReachedPhis(c: Program, d: Program, t: Table, keep: set<Value>, a: Block, b: Block)
    requires Eliminated(c, d, t, keep) && Edge(c.g, a, b) && b < |c.body|
    ensures PhisClosed(c.body[b].phis, a, keep)
  {
    var phis := c.body[b].phis;
    forall q | 0 <= q < |phis| && phis[q].id in keep ensures SourceOf(phis[q].inputs, a) in keep {
      assert HasSource(phis[q].inputs, a);
      var k :| 0 <= k < |phis[q].inputs| && phis[q].inputs[k] == PhiInput(SourceOf(phis[q].inputs, a), a);
      assert t[phis[q].id][k] == phis[q].inputs[k].value;
      assert t[phis[q].id][k] in t[phis[q].id];
    }
  }

}
