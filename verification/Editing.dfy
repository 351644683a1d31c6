/** Taking instructions out of a graph (ir/bb.cpp, ir/inst.cpp): block lists, and user lists that stay
    the inverse of the input lists. */
module Editing {
  import opened Cfg
  import opened Ssa

  /** `GetInputs` of every instruction and phi. */
  type Table = map<Value, seq<Value>>

  function PhiValues(ins: seq<PhiInput>): (r: seq<Value>)
    ensures |r| == |ins| && forall k :: 0 <= k < |r| ==> r[k] == ins[k].value
  {
    if ins == [] then [] else [ins[0].value] + PhiValues(ins[1..])
  }

  ghost predicate InputsSet(t: Table) {
    forall v, u :: v in t && u in t[v] ==> u in t
  }

  ghost predicate TableOf(body: Code, t: Table) {
    && InputsSet(t)
    && (forall b, k :: 0 <= b < |body| && 0 <= k < |body[b].insts| ==>
          body[b].insts[k].id in t && t[body[b].insts[k].id] == body[b].insts[k].inputs)
    && (forall b, k :: 0 <= b < |body| && 0 <= k < |body[b].phis| ==>
          body[b].phis[k].id in t && t[body[b].phis[k].id] == PhiValues(body[b].phis[k].inputs))
  }

  datatype User = User(inst: Value, idx: int)

  type Users = map<Value, seq<User>>

  function Without(us: seq<User>, r: set<Value>): (w: seq<User>)
    ensures forall u :: u in w <==> u in us && u.inst !in r
  {
    if us == [] then []
    else if us[0].inst in r then Without(us[1..], r) else [us[0]] + Without(us[1..], r)
  }

  function UsersWithout(m: Users, r: set<Value>): Users {
    map v | v in m :: Without(m[v], r)
  }

  /** User lists name only instructions that have the value as an input. */
  ghost predicate Listed(t: Table, m: Users) {
    && t.Keys <= m.Keys
    && forall v, u :: v in m && u in m[v] ==> u.inst in t && v in t[u.inst]
  }

  lemma {:induction false} WithoutTwice(us: seq<User>, r: set<Value>, x: Value)
    ensures Without(Without(us, r), {x}) == Without(us, r + {x})
    decreases |us|
  {
    if us != [] {
      WithoutTwice(us[1..], r, x);
      if us[0].inst !in r {
        assert Without(us, r)[1..] == Without(us[1..], r);
      }
    }
  }

  lemma {:induction false} WithoutAbsent(us: seq<User>, r: set<Value>)
    requires forall u :: u in us ==> u.inst !in r
    ensures Without(us, r) == us
    decreases |us|
  {
    if us != [] {
      WithoutAbsent(us[1..], r);
    }
  }

  lemma {:induction false} WithoutSnoc(us: seq<User>, r: set<Value>, u: User)
    ensures Without(us + [u], r) == Without(us, r) + if u.inst in r then [] else [u]
    decreases |us|
  {
    if us == [] {
      assert [] + [u] == [u];
    } else {
      assert (us + [u])[1..] == us[1..] + [u];
      WithoutSnoc(us[1..], r, u);
    }
  }

  lemma UsersWithoutTwice(m: Users, r: set<Value>, x: Value)
    ensures UsersWithout(UsersWithout(m, r), {x}) == UsersWithout(m, r + {x})
  {
    forall v | v in m ensures Without(Without(m[v], r), {x}) == Without(m[v], r + {x}) {
      WithoutTwice(m[v], r, x);
    }
  }

  lemma ListedWithout(t: Table, m: Users, r: set<Value>)
    requires Listed(t, m)
    ensures Listed(t, UsersWithout(m, r))
  {}

  /** `x` taken out of the user lists of the inputs `ins[..k]`. */
  function DroppedFrom(m: Users, ins: seq<Value>, k: nat, x: Value): Users
    requires k <= |ins|
  {
    map v | v in m :: if v in ins[..k] then Without(m[v], {x}) else m[v]
  }

  lemma DroppedNone(m: Users, ins: seq<Value>, x: Value)
    ensures DroppedFrom(m, ins, 0, x) == m
  {}

  lemma DroppedNext(m: Users, ins: seq<Value>, k: nat, x: Value)
    requires k < |ins| && ins[k] in m
    ensures ins[k] in DroppedFrom(m, ins, k, x)
    ensures DroppedFrom(m, ins, k + 1, x)
         == DroppedFrom(m, ins, k, x)[ins[k] := Without(DroppedFrom(m, ins, k, x)[ins[k]], {x})]
  {
    assert ins[..k + 1] == ins[..k] + [ins[k]];
    WithoutTwice(m[ins[k]], {x}, x);
    assert {x} + {x} == {x};
  }

  lemma ListedInput(t: Table, m: Users, x: Value, k: nat)
    requires Listed(t, m) && InputsSet(t) && x in t && k < |t[x]|
    ensures t[x][k] in t && t[x][k] in m
  {}

  lemma DroppedAll(t: Table, m: Users, x: Value)
    requires Listed(t, m) && x in t
    ensures DroppedFrom(m, t[x], |t[x]|, x) == UsersWithout(m, {x})
  {
    assert t[x][..|t[x]|] == t[x];
    forall v | v in m && v !in t[x] ensures Without(m[v], {x}) == m[v] {
      WithoutAbsent(m[v], {x});
    }
  }

  function Uses(ins: seq<Value>, v: Value): nat {
    if ins == [] then 0 else (if ins[0] == v then 1 else 0) + Uses(ins[1..], v)
  }

  function Entries(us: seq<User>, u: Value): nat {
    if us == [] then 0 else (if us[0].inst == u then 1 else 0) + Entries(us[1..], u)
  }

  /** The user lists are the inverse of the input lists of the instructions outside `gone`. */
  ghost predicate Inverse(t: Table, m: Users, gone: set<Value>) {
    && t.Keys <= m.Keys
    && forall v, u :: v in m ==> Entries(m[v], u) == if u in t && u !in gone then Uses(t[u], v) else 0
  }

  lemma {:induction false} EntriesWithout(us: seq<User>, r: set<Value>, u: Value)
    ensures Entries(Without(us, r), u) == if u in r then 0 else Entries(us, u)
    decreases |us|
  {
    if us != [] {
      EntriesWithout(us[1..], r, u);
    }
  }

  lemma {:induction false} EntriesPositive(us: seq<User>, x: User)
    requires x in us
    ensures Entries(us, x.inst) > 0
    decreases |us|
  {
    if us[0] != x {
      EntriesPositive(us[1..], x);
    }
  }

  lemma {:induction false} UsesPositive(ins: seq<Value>, v: Value)
    requires Uses(ins, v) > 0
    ensures v in ins
    decreases |ins|
  {
    if ins[0] != v {
      UsesPositive(ins[1..], v);
    }
  }

  lemma InverseIsListed(t: Table, m: Users)
    requires Inverse(t, m, {})
    ensures Listed(t, m)
  {
    forall v, u | v in m && u in m[v] ensures u.inst in t && v in t[u.inst] {
      EntriesPositive(m[v], u);
      assert Entries(m[v], u.inst) > 0;
      UsesPositive(t[u.inst], v);
    }
  }

  /** The sweep leaves the user lists inverse to the inputs of the survivors. */
  lemma SweepLeavesInverse(t: Table, m: Users, gone: set<Value>)
    requires Inverse(t, m, {})
    ensures Inverse(t, UsersWithout(m, gone), gone)
  {
    hide Entries, Uses, Without;
    var r := UsersWithout(m, gone);
    assert forall v :: v in r <==> v in m;
    forall v, u | v in r
      ensures Entries(r[v], u) == if u in t && u !in gone then Uses(t[u], v) else 0
    {
      assert r[v] == Without(m[v], gone);
      assert Entries(m[v], u) == if u in t && u !in {} then Uses(t[u], v) else 0;
      EntriesWithout(m[v], gone, u);
    }
  }

  function DropInsts(insts: seq<Inst>, r: set<Value>): seq<Inst> {
    if insts == [] then []
    else
      var x := insts[|insts| - 1];
      DropInsts(insts[..|insts| - 1], r) + if x.id in r then [] else [x]
  }

  function DropPhis(phis: seq<Phi>, r: set<Value>): seq<Phi> {
    if phis == [] then []
    else (if phis[0].id in r then [] else [phis[0]]) + DropPhis(phis[1..], r)
  }

  function Drop(bb: BasicBlock, r: set<Value>): BasicBlock {
    BasicBlock(DropPhis(bb.phis, r), DropInsts(bb.insts, r))
  }

  lemma {:induction false} DropInstsTwice(insts: seq<Inst>, r: set<Value>, v: Value)
    ensures DropInsts(DropInsts(insts, r), {v}) == DropInsts(insts, r + {v})
    decreases |insts|
  {
    if insts != [] {
      var x := insts[|insts| - 1];
      DropInstsTwice(insts[..|insts| - 1], r, v);
      var d := DropInsts(insts[..|insts| - 1], r);
      if x.id !in r {
        assert (d + [x])[..|d + [x]| - 1] == d;
      } else {
        assert d + [] == d;
      }
    }
  }

  lemma {:induction false} DropPhisTwice(phis: seq<Phi>, r: set<Value>, v: Value)
    ensures DropPhis(DropPhis(phis, r), {v}) == DropPhis(phis, r + {v})
    decreases |phis|
  {
    if phis != [] {
      DropPhisTwice(phis[1..], r, v);
      var d := DropPhis(phis[1..], r);
      if phis[0].id !in r {
        assert ([phis[0]] + d)[1..] == d;
      } else {
        assert [] + d == d;
      }
    }
  }

  lemma DropTwice(bb: BasicBlock, r: set<Value>, v: Value)
    ensures Drop(Drop(bb, r), {v}) == Drop(bb, r + {v})
  {
    DropInstsTwice(bb.insts, r, v);
    DropPhisTwice(bb.phis, r, v);
  }

  lemma {:induction false} DropNothing(bb: BasicBlock)
    ensures Drop(bb, {}) == bb
    decreases |bb.phis| + |bb.insts|
  {
    if bb.phis != [] {
      DropNothing(BasicBlock(bb.phis[1..], bb.insts));
      assert bb.phis == [bb.phis[0]] + bb.phis[1..];
    } else if bb.insts != [] {
      DropNothing(BasicBlock([], bb.insts[..|bb.insts| - 1]));
      assert bb.insts == bb.insts[..|bb.insts| - 1] + [bb.insts[|bb.insts| - 1]];
    }
  }

  function Kept(insts: seq<Inst>, keep: set<Value>): seq<Inst> {
    if insts == [] then []
    else
      var x := insts[|insts| - 1];
      Kept(insts[..|insts| - 1], keep) + if x.id in keep then [x] else []
  }

  function KeptPhis(phis: seq<Phi>, keep: set<Value>): seq<Phi> {
    if phis == [] then []
    else (if phis[0].id in keep then [phis[0]] else []) + KeptPhis(phis[1..], keep)
  }

  function KeepIn(bb: BasicBlock, keep: set<Value>): BasicBlock {
    BasicBlock(KeptPhis(bb.phis, keep), Kept(bb.insts, keep))
  }

  lemma {:induction false} DropInstsDead(insts: seq<Inst>, r: set<Value>, keep: set<Value>)
    requires forall k :: 0 <= k < |insts| ==> (insts[k].id in r <==> insts[k].id !in keep)
    ensures DropInsts(insts, r) == Kept(insts, keep)
    decreases |insts|
  {
    if insts != [] {
      DropInstsDead(insts[..|insts| - 1], r, keep);
    }
  }

  lemma {:induction false} DropPhisDead(phis: seq<Phi>, r: set<Value>, keep: set<Value>)
    requires forall k :: 0 <= k < |phis| ==> (phis[k].id in r <==> phis[k].id !in keep)
    ensures DropPhis(phis, r) == KeptPhis(phis, keep)
    decreases |phis|
  {
    if phis != [] {
      DropPhisDead(phis[1..], r, keep);
    }
  }

  /** The code after the sweep of the blocks `bs`. */
  function Swept(body: Code, bs: set<Block>, keep: set<Value>): (r: Code)
    ensures |r| == |body|
    ensures forall b :: 0 <= b < |body| ==> r[b] == if b in bs then KeepIn(body[b], keep) else body[b]
  {
    seq(|body|, b requires 0 <= b < |body| => if b in bs then KeepIn(body[b], keep) else body[b])
  }

  ghost predicate InBlock(bb: BasicBlock, v: Value) {
    || (exists k :: 0 <= k < |bb.insts| && bb.insts[k].id == v)
    || (exists k :: 0 <= k < |bb.phis| && bb.phis[k].id == v)
  }

  /** In the blocks `bs` exactly the instructions and phis in `keep` are left, and nothing is touched elsewhere. */
  ghost predicate OnlyLeft(body: Code, r: Code, bs: set<Block>, keep: set<Value>) {
    && |r| == |body|
    && (forall b :: 0 <= b < |body| && b !in bs ==> r[b] == body[b])
    && (forall b, x :: 0 <= b < |body| && b in bs ==> (x in r[b].insts <==> x in body[b].insts && x.id in keep))
    && forall b, x :: 0 <= b < |body| && b in bs ==> (x in r[b].phis <==> x in body[b].phis && x.id in keep)
  }

  lemma {:induction false} KeptMembers(insts: seq<Inst>, keep: set<Value>, x: Inst)
    ensures x in Kept(insts, keep) <==> x in insts && x.id in keep
    decreases |insts|
  {
    if insts != [] {
      var front, y := insts[..|insts| - 1], insts[|insts| - 1];
      KeptMembers(front, keep, x);
      assert insts == front + [y];
    }
  }

  lemma {:induction false} KeptPhiMembers(phis: seq<Phi>, keep: set<Value>, x: Phi)
    ensures x in KeptPhis(phis, keep) <==> x in phis && x.id in keep
    decreases |phis|
  {
    if phis != [] {
      KeptPhiMembers(phis[1..], keep, x);
    }
  }

  lemma {:induction false} DropInstMembers(insts: seq<Inst>, r: set<Value>, x: Inst)
    ensures x in DropInsts(insts, r) <==> x in insts && x.id !in r
    decreases |insts|
  {
    if insts != [] {
      var front, y := insts[..|insts| - 1], insts[|insts| - 1];
      DropInstMembers(front, r, x);
      assert insts == front + [y];
    }
  }

  lemma {:induction false} DropPhiMembers(phis: seq<Phi>, r: set<Value>, x: Phi)
    ensures x in DropPhis(phis, r) <==> x in phis && x.id !in r
    decreases |phis|
  {
    if phis != [] {
      DropPhiMembers(phis[1..], r, x);
    }
  }

  lemma SweptLeaves(body: Code, bs: set<Block>, keep: set<Value>)
    ensures OnlyLeft(body, Swept(body, bs, keep), bs, keep)
  {
    forall b, x: Inst | 0 <= b < |body| && b in bs
      ensures x in Swept(body, bs, keep)[b].insts <==> x in body[b].insts && x.id in keep
    {
      KeptMembers(body[b].insts, keep, x);
    }
    forall b, x: Phi | 0 <= b < |body| && b in bs
      ensures x in Swept(body, bs, keep)[b].phis <==> x in body[b].phis && x.id in keep
    {
      KeptPhiMembers(body[b].phis, keep, x);
    }
  }

  /** The instructions of a graph while a pass takes some away: block contents and user lists.  `t` is
      what `GetInputs` returns. */
  class Ir {
    const t: Table
    var body: Code
    var users: Users

    constructor (t: Table, body: Code, users: Users)
      ensures this.t == t && this.body == body && this.users == users
    {
      this.t, this.body, this.users := t, body, users;
    }

    /** Takes `v` out of the user lists of its inputs. */
    method DropUser(v: Value, ghost users0: Users, ghost r: set<Value>)
      requires v in t && InputsSet(t) && Listed(t, users0) && users == UsersWithout(users0, r)
      modifies this`users
      ensures users == UsersWithout(users0, r + {v})
    {
      hide UsersWithout, Listed, DroppedFrom;
      ListedWithout(t, users0, r);
      ghost var before := users;
      DroppedNone(before, t[v], v);
      for k := 0 to |t[v]|
        invariant users == DroppedFrom(before, t[v], k, v)
      {
        var u := t[v][k];
        ListedInput(t, before, v, k);
        DroppedNext(before, t[v], k, v);
        RemoveUser(u, v);
      }
      DroppedAll(t, before, v);
      UsersWithoutTwice(users0, r, v);
    }

    /** Erases every entry of `user`. */
    method RemoveUser(v: Value, user: Value)
      requires v in users
      modifies this`users
      ensures users == old(users)[v := Without(old(users)[v], {user})]
    {
      var us := users[v];
      var kept: seq<User> := [];
      for i := 0 to |us|
        invariant kept == Without(us[..i], {user}) && users == old(users)
      {
        assert us[..i + 1] == us[..i] + [us[i]];
        WithoutSnoc(us[..i], {user}, us[i]);
        if us[i].inst != user {
          kept := kept + [us[i]];
        }
      }
      assert us[..|us|] == us;
      users := users[v := kept];
    }

    method UnlinkAll(b: Block, dead: set<Value>)
      requires b < |body|
      modifies this`body
      ensures body == old(body)[b := Drop(old(body)[b], dead)]
    {
      var todo := dead;
      DropNothing(body[b]);
      assert dead - todo == {};
      while todo != {}
        invariant todo <= dead && |body| == |old(body)|
        invariant body == old(body)[b := Drop(old(body)[b], dead - todo)]
      {
        var v :| v in todo;
        UnlinkInst(b, v);
        DropTwice(old(body)[b], dead - todo, v);
        assert (dead - todo) + {v} == dead - (todo - {v});
        todo := todo - {v};
      }
      assert dead - todo == dead;
    }

    /** `BasicBlock::UnlinkInst` on the list that holds `v`; `InstructionList` has the pointers. */
    method UnlinkInst(b: Block, v: Value)
      requires b < |body|
      modifies this`body
      ensures body == old(body)[b := Drop(old(body)[b], {v})]
    {
      body := body[b := Drop(body[b], {v})];
    }
  }
}
