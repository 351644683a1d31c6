/** The check elimination pass object (pass/check_elimination.cpp, ir/graph_visitor.inc): checks are
    visited block by block in depth-first preorder, each visit deletes the equivalent checks it
    dominates, and checks of non-zero constants go at the end. */
module CheckElimination {
  import opened Cfg
  import opened Ssa
  import opened Editing
  import opened Checks
  import opened Traversal
  import opened Orders
  import DT = DominatorTree

  // ---- Lists under deletion ----------------------------------------------------------------------

  function DropAll(body: Code, gone: set<Value>): (r: Code)
    ensures |r| == |body| && forall b :: 0 <= b < |body| ==> r[b] == Drop(body[b], gone)
  {
    seq(|body|, b requires 0 <= b < |body| => Drop(body[b], gone))
  }

  /** Exactly the instructions and phis in `gone` have left their blocks. */
  ghost predicate OnlyGone(body: Code, r: Code, gone: set<Value>) {
    && |r| == |body|
    && (forall b, x :: 0 <= b < |body| ==> (x in r[b].insts <==> x in body[b].insts && x.id !in gone))
    && forall b, x :: 0 <= b < |body| ==> (x in r[b].phis <==> x in body[b].phis && x.id !in gone)
  }

  lemma DroppedGone(body: Code, gone: set<Value>)
    ensures OnlyGone(body, DropAll(body, gone), gone)
  {
    forall b, x: Inst | 0 <= b < |body|
      ensures x in DropAll(body, gone)[b].insts <==> x in body[b].insts && x.id !in gone
    {
      DropInstMembers(body[b].insts, gone, x);
    }
    forall b, x: Phi | 0 <= b < |body|
      ensures x in DropAll(body, gone)[b].phis <==> x in body[b].phis && x.id !in gone
    {
      DropPhiMembers(body[b].phis, gone, x);
    }
  }

  lemma {:induction false} DropInstsSame(insts: seq<Inst>, r: set<Value>, r': set<Value>)
    requires forall k :: 0 <= k < |insts| ==> (insts[k].id in r <==> insts[k].id in r')
    ensures DropInsts(insts, r) == DropInsts(insts, r')
    decreases |insts|
  {
    if insts != [] {
      DropInstsSame(insts[..|insts| - 1], r, r');
    }
  }

  lemma {:induction false} DropPhisSame(phis: seq<Phi>, r: set<Value>, r': set<Value>)
    requires forall k :: 0 <= k < |phis| ==> (phis[k].id in r <==> phis[k].id in r')
    ensures DropPhis(phis, r) == DropPhis(phis, r')
    decreases |phis|
  {
    if phis != [] {
      DropPhisSame(phis[1..], r, r');
    }
  }

  lemma CheckBlock(s: Source, v: Value, b: Block)
    requires Proper(s) && IsCheck(s, v) && b < |s.body| && InBlock(s.body[b], v)
    ensures b == s.blockOf[v]
  {
    var j :| InstDef(s.body, s.blockOf[v], j, v);
    if k :| 0 <= k < |s.body[b].phis| && s.body[b].phis[k].id == v {
      assert PhiDef(s.body, b, v);
    } else {
      var k :| 0 <= k < |s.body[b].insts| && s.body[b].insts[k].id == v;
      assert InstDef(s.body, b, k, v);
    }
  }

  /** Unlinking a check from its block takes it out of the whole graph. */
  lemma UnlinkedEverywhere(s: Source, gone: set<Value>, v: Value)
    requires Proper(s) && IsCheck(s, v)
    ensures var b := s.blockOf[v];
      && b < |s.body|
      && DropAll(s.body, gone)[b := Drop(DropAll(s.body, gone)[b], {v})] == DropAll(s.body, gone + {v})
  {
    var b := s.blockOf[v];
    DropTwice(s.body[b], gone, v);
    forall a | 0 <= a < |s.body| && a != b ensures Drop(s.body[a], gone) == Drop(s.body[a], gone + {v}) {
      if InBlock(s.body[a], v) {
        CheckBlock(s, v, a);
      }
      DropInstsSame(s.body[a].insts, gone, gone + {v});
      DropPhisSame(s.body[a].phis, gone, gone + {v});
    }
  }

  lemma {:induction false} DropConcat(a: seq<Inst>, b: seq<Inst>, r: set<Value>)
    ensures DropInsts(a + b, r) == DropInsts(a, r) + DropInsts(b, r)
    decreases |b|
  {
    if b == [] {
      assert a + b == a;
      assert DropInsts(a, r) + [] == DropInsts(a, r);
    } else {
      var front, x := b[..|b| - 1], b[|b| - 1];
      assert (a + b)[..|a + b| - 1] == a + front;
      DropConcat(a, front, r);
    }
  }

  lemma {:induction false} DropMembers(insts: seq<Inst>, r: set<Value>)
    ensures forall x :: x in DropInsts(insts, r) <==> x in insts && x.id !in r
    decreases |insts|
  {
    if insts != [] {
      var front, x := insts[..|insts| - 1], insts[|insts| - 1];
      assert insts == front + [x];
      DropMembers(front, r);
    }
  }

  ghost predicate DistinctIds(insts: seq<Inst>) {
    forall i, j :: 0 <= i < j < |insts| ==> insts[i].id != insts[j].id
  }

  lemma {:induction false} DropDistinct(insts: seq<Inst>, r: set<Value>)
    requires DistinctIds(insts)
    ensures DistinctIds(DropInsts(insts, r))
    decreases |insts|
  {
    if insts != [] {
      var front, x := insts[..|insts| - 1], insts[|insts| - 1];
      DropDistinct(front, r);
      DropMembers(front, r);
      var d := DropInsts(front, r);
      forall i | 0 <= i < |d| ensures d[i].id != x.id {
        assert d[i] in front;
        var k :| 0 <= k < |front| && front[k] == d[i];
        assert insts[k] == front[k];
      }
    }
  }

  /** Where instruction `v` stands in the list. */
  function Find(insts: seq<Inst>, v: Value): (k: nat)
    requires exists i :: 0 <= i < |insts| && insts[i].id == v
    ensures k < |insts| && insts[k].id == v && forall i :: 0 <= i < k ==> insts[i].id != v
  {
    if insts[0].id == v then 0
    else
      assert exists i :: 0 <= i < |insts[1..]| && insts[1..][i].id == v by {
        var i :| 0 <= i < |insts| && insts[i].id == v;
        assert insts[1..][i - 1] == insts[i];
      }
      1 + Find(insts[1..], v)
  }

  ghost predicate AllSeen(s: Source, l: seq<Inst>, seen: set<Value>) {
    forall x :: x in l && IsCheck(s, x.id) ==> x.id in seen
  }

  ghost predicate NoneSeen(l: seq<Inst>, seen: set<Value>) {
    forall x :: x in l ==> x.id !in seen
  }

  /** The checks of the list before position `m` have been visited, and none from there on. */
  ghost predicate VisitedTo(s: Source, l: seq<Inst>, m: nat, seen: set<Value>) {
    m <= |l| && DistinctIds(l) && AllSeen(s, l[..m], seen) && NoneSeen(l[m..], seen)
  }

  lemma Around(l: seq<Inst>, m: nat, more: set<Value>)
    requires m < |l| && l[m].id !in more && DistinctIds(l)
    ensures var da, db := DropInsts(l[..m], more), DropInsts(l[m + 1..], more);
      var r := DropInsts(l, more);
      && r == da + [l[m]] + db && |db| <= |l| - m - 1 && DistinctIds(r)
      && (forall y :: y in da ==> y in l[..m]) && (forall y :: y in db ==> y in l[m + 1..])
  {
    var a, x, b := l[..m], l[m], l[m + 1..];
    assert l == a + [x] + b;
    DropConcat(a + [x], b, more);
    DropConcat(a, [x], more);
    assert DropInsts([x], more) == [x];
    DropMembers(a, more);
    DropMembers(b, more);
    DropDistinct(l, more);
    DropShorter(b, more);
  }

  lemma FindAround(da: seq<Inst>, x: Inst, db: seq<Inst>)
    requires DistinctIds(da + [x] + db)
    ensures (exists i :: 0 <= i < |da + [x] + db| && (da + [x] + db)[i].id == x.id)
    ensures Find(da + [x] + db, x.id) == |da|
  {
    var r := da + [x] + db;
    assert r[|da|] == x;
    var k := Find(r, x.id);
    assert k <= |da|;
  }

  /** After a visit of `l[m]` that deletes `more`, the sweep goes on behind `l[m]`. */
  lemma SweepGoesOn(s: Source, l: seq<Inst>, m: nat, seen: set<Value>, seen': set<Value>, more: set<Value>)
    requires VisitedTo(s, l, m, seen) && m < |l| && l[m].id !in more
    requires seen <= seen' <= seen + {l[m].id} && (IsCheck(s, l[m].id) ==> l[m].id in seen')
    ensures var r := DropInsts(l, more);
      && (exists i :: 0 <= i < |r| && r[i].id == l[m].id)
      && VisitedTo(s, r, Find(r, l[m].id) + 1, seen')
      && |r| - (Find(r, l[m].id) + 1) < |l| - m
  {
    var x := l[m];
    var da, db := DropInsts(l[..m], more), DropInsts(l[m + 1..], more);
    Around(l, m, more);
    SplitAround(l, m, seen, da, db);
    hide Find, DropInsts, IsCheck, DistinctIds, NoneSeen;
    assert AllSeen(s, da, seen');
    Resume(s, da, x, db, seen, seen');
  }

  lemma Resume(s: Source, da: seq<Inst>, x: Inst, db: seq<Inst>, seen: set<Value>, seen': set<Value>)
    requires DistinctIds(da + [x] + db) && AllSeen(s, da, seen') && NoneSeen(db, seen + {x.id})
    requires seen' <= seen + {x.id} && (IsCheck(s, x.id) ==> x.id in seen')
    ensures var r := da + [x] + db;
      && (exists i :: 0 <= i < |r| && r[i].id == x.id)
      && Find(r, x.id) == |da| && VisitedTo(s, r, |da| + 1, seen')
  {
    FindAround(da, x, db);
    var r := da + [x] + db;
    assert r[..|da| + 1] == da + [x] && r[|da| + 1..] == db;
    hide Find, IsCheck;
  }

  lemma SplitAround(l: seq<Inst>, m: nat, seen: set<Value>, da: seq<Inst>, db: seq<Inst>)
    requires m < |l| && DistinctIds(l) && NoneSeen(l[m..], seen)
    requires (forall y :: y in da ==> y in l[..m]) && (forall y :: y in db ==> y in l[m + 1..])
    ensures NoneSeen(db, seen + {l[m].id})
  {
    forall y | y in db ensures y.id !in seen + {l[m].id} {
      var q :| 0 <= q < |l[m + 1..]| && l[m + 1..][q] == y;
      assert y == l[m + 1 + q] && l[m..][q + 1] == y;
    }
  }

  lemma {:induction false} DropShorter(insts: seq<Inst>, r: set<Value>)
    ensures |DropInsts(insts, r)| <= |insts|
    decreases |insts|
  {
    if insts != [] {
      DropShorter(insts[..|insts| - 1], r);
    }
  }

  /** The order of the original block is the order of what is left of it. */
  lemma DropOrder(insts: seq<Inst>, r: set<Value>, j: nat, k: nat)
    requires j < k < |insts| && insts[j].id !in r && insts[k].id !in r
    ensures exists i, m :: 0 <= i < m < |DropInsts(insts, r)| && DropInsts(insts, r)[i] == insts[j]
                           && DropInsts(insts, r)[m] == insts[k]
  {
    var a, b := insts[..k], insts[k..];
    assert insts == a + b && b == [insts[k]] + insts[k + 1..];
    DropConcat(a, b, r);
    DropConcat([insts[k]], insts[k + 1..], r);
    assert DropInsts([insts[k]], r) == [insts[k]];
    DropMembers(a, r);
    assert a[j] in a;
    var da := DropInsts(a, r);
    var i :| 0 <= i < |da| && da[i] == insts[j];
    var d := DropInsts(insts, r);
    assert d[i] == insts[j] && d[|da|] == insts[k];
  }

  // ---- User lists --------------------------------------------------------------------------------

  lemma {:induction false} EntriesMember(us: seq<User>, u: Value)
    requires Entries(us, u) > 0
    ensures exists i :: 0 <= i < |us| && us[i].inst == u
    decreases |us|
  {
    if us[0].inst != u {
      EntriesMember(us[1..], u);
      var i :| 0 <= i < |us[1..]| && us[1..][i].inst == u;
      assert us[i + 1].inst == u;
    }
  }

  lemma {:induction false} EntriesSplit(us: seq<User>, vs: seq<User>, u: Value)
    ensures Entries(us + vs, u) == Entries(us, u) + Entries(vs, u)
    decreases |us|
  {
    if us == [] {
      assert us + vs == vs;
    } else {
      assert (us + vs)[1..] == us[1..] + vs;
      EntriesSplit(us[1..], vs, u);
    }
  }

  lemma EntriesTwice(us: seq<User>, i: nat, j: nat)
    requires i < j < |us| && us[i].inst == us[j].inst
    ensures Entries(us, us[i].inst) >= 2
  {
    var u := us[i].inst;
    assert us == us[..i + 1] + us[i + 1..];
    EntriesSplit(us[..i + 1], us[i + 1..], u);
    assert us[i] in us[..i + 1] && us[j] in us[i + 1..] by {
      assert us[..i + 1][i] == us[i] && us[i + 1..][j - i - 1] == us[j];
    }
    EntriesPositive(us[..i + 1], us[i]);
    EntriesPositive(us[i + 1..], us[j]);
  }

  /** A check of the same kind among the users of the subject of `x` that has another subject has two
      operands. */
  lemma SubjectUser(s: Source, x: Value, u: Value)
    requires Proper(s) && IsCheck(s, x) && IsCheck(s, u) && s.attrs[u] == s.attrs[x] && |s.t[x]| > 0
    requires s.t[x][0] in s.t[u]
    ensures |s.t[u]| == |s.t[x]| && (s.t[u][0] != s.t[x][0] ==> |s.t[u]| == 2 && s.t[u][1] == s.t[x][0])
  {}

  /** The checks among the first `i` users that a visit of `x` deletes. */
  ghost function Hit(s: Source, us: seq<User>, i: nat, x: Value): (r: set<Value>)
    requires i <= |us|
    ensures forall v :: v in r <==> Deletes(s, x, v) && exists k :: 0 <= k < i && us[k].inst == v
  {
    if i == 0 then {}
    else Hit(s, us, i - 1, x) + if Deletes(s, x, us[i - 1].inst) then {us[i - 1].inst} else {}
  }

  /** The list of the users of the subject. */
  ghost predicate SubjectUsers(s: Source, gone: set<Value>, us: seq<User>, x: Value)
    requires IsCheck(s, x) && |s.t[x]| > 0
  {
    forall u :: Entries(us, u) == if u in s.t && u !in gone then Uses(s.t[u], s.t[x][0]) else 0
  }

  lemma UsersOfSubject(s: Source, users0: Users, gone: set<Value>, x: Value)
    requires Proper(s) && Inverse(s.t, users0, {}) && IsCheck(s, x)
    ensures |s.t[x]| > 0 && s.t[x][0] in UsersWithout(users0, gone)
    ensures SubjectUsers(s, gone, UsersWithout(users0, gone)[s.t[x][0]], x)
  {
    SweepLeavesInverse(s.t, users0, gone);
    assert s.t[x][0] in s.t[x];
  }

  lemma UserAt(s: Source, gone: set<Value>, us: seq<User>, x: Value, i: nat)
    requires Proper(s) && IsCheck(s, x) && |s.t[x]| > 0 && SubjectUsers(s, gone, us, x) && i < |us|
    ensures var u := us[i].inst; u in s.t && u in s.attrs && u !in gone && s.t[x][0] in s.t[u]
  {
    EntriesPositive(us, us[i]);
    UsesPositive(s.t[us[i].inst], s.t[x][0]);
  }

  /** The visit of `x` fails at entry `k` of the user list: the first operands differ, or the check has
      been deleted at an earlier entry. */
  ghost predicate EntryFails(s: Source, us: seq<User>, k: nat, x: Value)
    requires k < |us|
  {
    WrongSubject(s, x, us[k].inst) || (Deletes(s, x, us[k].inst) && us[k].inst in Hit(s, us, k, x))
  }

  lemma EntryMakesFail(s: Source, gone: set<Value>, us: seq<User>, x: Value, k: nat)
    requires Proper(s) && IsCheck(s, x) && |s.t[x]| > 0 && SubjectUsers(s, gone, us, x) && k < |us|
    requires EntryFails(s, us, k, x)
    ensures Fails(s, gone, x)
  {
    var u := us[k].inst;
    UserAt(s, gone, us, x, k);
    if !WrongSubject(s, x, u) {
      var i :| 0 <= i < k && us[i].inst == u;
      EntriesTwice(us, i, k);
      assert Doubled(s, x, u);
    }
  }

  /** Every failure of a visit shows at some entry of the list. */
  lemma FailHasEntry(s: Source, gone: set<Value>, us: seq<User>, x: Value) returns (k: nat)
    requires Proper(s) && IsCheck(s, x) && |s.t[x]| > 0 && SubjectUsers(s, gone, us, x) && Fails(s, gone, x)
    ensures k < |us| && EntryFails(s, us, k, x)
  {
    var u :| u !in gone && (WrongSubject(s, x, u) || Doubled(s, x, u));
    if WrongSubject(s, x, u) {
      assert s.t[u][1] in s.t[u];
      MemberUses(s.t[u], s.t[x][0]);
      EntriesMember(us, u);
      k :| 0 <= k < |us| && us[k].inst == u;
    } else {
      assert Entries(us, u) > 1;
      k := SecondEntry(us, u);
    }
  }

  lemma {:induction false} SecondEntry(us: seq<User>, u: Value) returns (k: nat)
    requires Entries(us, u) > 1
    ensures k < |us| && us[k].inst == u && exists i :: 0 <= i < k && us[i].inst == u
    decreases |us|
  {
    if us[0].inst == u {
      EntriesMember(us[1..], u);
      var j :| 0 <= j < |us[1..]| && us[1..][j].inst == u;
      k := j + 1;
      assert us[0].inst == u;
    } else {
      var j := SecondEntry(us[1..], u);
      var i :| 0 <= i < j && us[1..][i].inst == u;
      k := j + 1;
      assert us[i + 1].inst == u;
    }
  }

  /** None of the first `i` entries fails. */
  ghost predicate NoneFails(s: Source, us: seq<User>, i: nat, x: Value)
    requires i <= |us|
  {
    forall k :: 0 <= k < i ==> !EntryFails(s, us, k, x)
  }

  lemma NoneFailsYet(s: Source, us: seq<User>, i: nat, x: Value)
    requires i <= |us|
    ensures NoneFails(s, us, 0, x)
    ensures i < |us| ==> (NoneFails(s, us, i + 1, x) <==> NoneFails(s, us, i, x) && !EntryFails(s, us, i, x))
  {}

  /** The visit fails exactly if some entry fails. */
  lemma FailsIff(s: Source, gone: set<Value>, us: seq<User>, x: Value)
    requires Proper(s) && IsCheck(s, x) && |s.t[x]| > 0 && SubjectUsers(s, gone, us, x)
    ensures Fails(s, gone, x) <==> !NoneFails(s, us, |us|, x)
  {
    hide Fails, EntryFails, SubjectUsers, Proper;
    if Fails(s, gone, x) {
      var k := FailHasEntry(s, gone, us, x);
    }
    if !NoneFails(s, us, |us|, x) {
      var k: nat :| k < |us| && EntryFails(s, us, k, x);
      EntryMakesFail(s, gone, us, x, k);
    }
  }

  predicate Linked(insts: seq<Inst>, v: Value) {
    exists k :: 0 <= k < |insts| && insts[k].id == v
  }

  /** A check is in the list of its block until it is deleted. */
  lemma LinkedIff(s: Source, gone: set<Value>, v: Value)
    requires Proper(s) && IsCheck(s, v)
    ensures s.blockOf[v] < |s.body|
    ensures Linked(DropAll(s.body, gone)[s.blockOf[v]].insts, v) <==> v !in gone
  {
    var b := s.blockOf[v];
    if v !in gone {
      var m := CheckInList(s, gone, v);
    } else if Linked(DropInsts(s.body[b].insts, gone), v) {
      BlockIds(s, gone, b);
    }
  }

  lemma {:induction false} MemberUses(ins: seq<Value>, v: Value)
    requires v in ins
    ensures Uses(ins, v) > 0
    decreases |ins|
  {
    if ins[0] != v {
      MemberUses(ins[1..], v);
    }
  }

  lemma HitAll(s: Source, gone: set<Value>, us: seq<User>, x: Value)
    requires Proper(s) && IsCheck(s, x) && |s.t[x]| > 0 && SubjectUsers(s, gone, us, x)
    ensures Hit(s, us, |us|, x) == Victims(s, gone, x)
  {
    forall u | u in Victims(s, gone, x) ensures u in Hit(s, us, |us|, x) {
      assert s.t[u][0] in s.t[u];
      MemberUses(s.t[u], s.t[x][0]);
      EntriesMember(us, u);
    }
    forall u | u in Hit(s, us, |us|, x) ensures u in Victims(s, gone, x) {
      var i :| 0 <= i < |us| && us[i].inst == u;
      UserAt(s, gone, us, x, i);
    }
  }

  // ---- Visiting order ----------------------------------------------------------------------------

  /** The visits so far: the first `i` blocks of the order are finished, and everything visited lies
      in them or in the next one. */
  ghost predicate Progress(s: Source, order: seq<Block>, i: nat, gone: set<Value>, seen: set<Value>) {
    && i <= |order|
    && (forall v :: IsCheck(s, v) && v !in gone && s.blockOf[v] in order[..i] ==> v in seen)
    && (forall v :: v in seen ==> IsCheck(s, v) && s.blockOf[v] in order[..if i < |order| then i + 1 else i])
  }

  lemma OriginalPositions(s: Source, gone: set<Value>, b: Block, u: Value, v: Value)
    requires Proper(s) && b < |s.body| && u !in gone && v !in gone && StandsBefore(s.body, b, u, v)
    ensures var l := DropInsts(s.body[b].insts, gone);
      exists i, m :: 0 <= i < m < |l| && l[i].id == u && l[m].id == v
  {
    var j, k :| j < k && InstDef(s.body, b, j, u) && InstDef(s.body, b, k, v);
    DropOrder(s.body[b].insts, gone, j, k);
  }

  lemma BlockIds(s: Source, gone: set<Value>, b: Block)
    requires Proper(s) && b < |s.body|
    ensures DistinctIds(DropInsts(s.body[b].insts, gone))
    ensures forall k :: 0 <= k < |DropInsts(s.body[b].insts, gone)| ==>
              var v := DropInsts(s.body[b].insts, gone)[k].id;
              v in s.attrs && v !in gone && (IsCheck(s, v) ==> s.blockOf[v] == b)
  {
    var insts := s.body[b].insts;
    forall i, j | 0 <= i < j < |insts| ensures insts[i].id != insts[j].id {
      assert InstDef(s.body, b, i, insts[i].id) && InstDef(s.body, b, j, insts[j].id);
    }
    DropDistinct(insts, gone);
    DropMembers(insts, gone);
    var l := DropInsts(insts, gone);
    forall k | 0 <= k < |l|
      ensures l[k].id in s.attrs && l[k].id !in gone && (IsCheck(s, l[k].id) ==> s.blockOf[l[k].id] == b)
    {
      assert l[k] in l;
      var q :| 0 <= q < |insts| && insts[q] == l[k];
      if IsCheck(s, l[k].id) {
        assert InBlock(s.body[b], l[k].id);
        CheckBlock(s, l[k].id, b);
      }
    }
  }

  /** A check that is still there is in the list of its block. */
  lemma CheckInList(s: Source, gone: set<Value>, v: Value) returns (m: nat)
    requires Proper(s) && IsCheck(s, v) && v !in gone
    ensures s.blockOf[v] < |s.body| && m < |DropInsts(s.body[s.blockOf[v]].insts, gone)|
    ensures DropInsts(s.body[s.blockOf[v]].insts, gone)[m].id == v
  {
    var k: nat :| InstDef(s.body, s.blockOf[v], k, v);
    var insts := s.body[s.blockOf[v]].insts;
    DropMembers(insts, gone);
    assert insts[k] in DropInsts(insts, gone);
    m :| 0 <= m < |DropInsts(insts, gone)| && DropInsts(insts, gone)[m] == insts[k];
  }

  lemma RpoOrder(g: Graph, order: seq<Block>, i: nat, j: nat)
    requires Valid(g) && order == Pre(g, START, {}) && j < i < |order|
    ensures !Dominates(g, order[i], order[j]) && Reachable(g, order[j]) && order[i] != order[j]
  {
    PreorderComplete(g);
    assert order[j] in order;
    if Dominates(g, order[i], order[j]) {
      DominatorsComeFirst(g, order[i], order[j]);
    }
  }

  lemma EarlierSeen(s: Source, b: Block, gone: set<Value>, seen: set<Value>, m: nat, u: Value)
    requires Proper(s) && b < |s.body| && u !in gone && IsCheck(s, u)
    requires var l := DropInsts(s.body[b].insts, gone);
      m < |l| && VisitedTo(s, l, m, seen) && StandsBefore(s.body, b, u, l[m].id)
    ensures u in seen
  {
    var l := DropInsts(s.body[b].insts, gone);
    BlockIds(s, gone, b);
    OriginalPositions(s, gone, b, u, l[m].id);
    var a, c :| 0 <= a < c < |l| && l[a].id == u && l[c].id == l[m].id;
    assert c == m && l[..m][a] == l[a];
  }

  lemma SeenNotDominated(s: Source, order: seq<Block>, i: nat, gone: set<Value>, seen: set<Value>, u: Value)
    requires Proper(s) && order == Pre(s.g, START, {}) && i < |order| && Progress(s, order, i, gone, seen)
    requires u in seen && IsCheck(s, u) && s.blockOf[u] != order[i]
    ensures !Dominates(s.g, order[i], s.blockOf[u])
  {
    assert order[..i + 1] == order[..i] + [order[i]];
    var j :| 0 <= j < i && order[..i][j] == s.blockOf[u];
    RpoOrder(s.g, order, i, j);
  }

  lemma DominatorSeen(s: Source, order: seq<Block>, i: nat, gone: set<Value>, seen: set<Value>, u: Value)
    requires Proper(s) && order == Pre(s.g, START, {}) && i < |order| && Progress(s, order, i, gone, seen)
    requires IsCheck(s, u) && u !in gone && s.blockOf[u] != order[i] && Reachable(s.g, order[i])
    requires Dominates(s.g, s.blockOf[u], order[i])
    ensures u in seen
  {
    PreorderComplete(s.g);
    DominatorsComeFirst(s.g, s.blockOf[u], order[i]);
    var j, k :| 0 <= j <= k < |order| && order[j] == s.blockOf[u] && order[k] == order[i];
    assert k == i && order[..i][j] == order[j];
  }

  /** What the visitor reaches next may be visited. */
  lemma NextInTurn(s: Source, order: seq<Block>, i: nat, gone: set<Value>, seen: set<Value>, m: nat)
    requires Proper(s) && order == Pre(s.g, START, {}) && i < |order| && order[i] < |s.body|
    requires Progress(s, order, i, gone, seen)
    requires var l := DropInsts(s.body[order[i]].insts, gone);
      m < |l| && VisitedTo(s, l, m, seen) && IsCheck(s, l[m].id)
    ensures InTurn(s, gone, seen, DropInsts(s.body[order[i]].insts, gone)[m].id)
  {
    var l := DropInsts(s.body[order[i]].insts, gone);
    var x := l[m].id;
    BlockIds(s, gone, order[i]);
    assert l[m..][0] == l[m] && x !in seen && s.blockOf[x] == order[i] && x !in gone;
    PreorderComplete(s.g);
    assert order[i] in order && Reachable(s.g, order[i]);
    hide Proper, Progress, VisitedTo, DropInsts, IsCheck, StandsBefore;
    forall u | IsCheck(s, u) && u !in gone && u != x && Precedes(s, u, x) ensures u in seen {
      if s.blockOf[u] == order[i] {
        EarlierSeen(s, order[i], gone, seen, m, u);
      } else {
        DominatorSeen(s, order, i, gone, seen, u);
      }
    }
    forall u | u in seen && IsCheck(s, u) && s.blockOf[u] != order[i] ensures !Dominates(s.g, order[i], s.blockOf[u]) {
      SeenNotDominated(s, order, i, gone, seen, u);
    }
  }

  /** After the last instruction of a block the next block begins. */
  lemma BlockFinished(s: Source, order: seq<Block>, i: nat, gone: set<Value>, seen: set<Value>)
    requires Proper(s) && order == Pre(s.g, START, {}) && i < |order| && order[i] < |s.body|
    requires Progress(s, order, i, gone, seen)
    requires var l := DropInsts(s.body[order[i]].insts, gone); VisitedTo(s, l, |l|, seen)
    ensures Progress(s, order, i + 1, gone, seen)
    ensures forall v :: v in seen ==> v in s.blockOf && s.blockOf[v] in order[..i + 1]
  {
    var l := DropInsts(s.body[order[i]].insts, gone);
    assert l[..|l|] == l;
    assert order[..i + 1] == order[..i] + [order[i]];
    forall v | IsCheck(s, v) && v !in gone && s.blockOf[v] in order[..i + 1] ensures v in seen {
      if s.blockOf[v] == order[i] {
        var m := CheckInList(s, gone, v);
        assert l[m] in l;
      }
    }
    if i + 1 < |order| {
      assert order[..i + 2] == order[..i + 1] + [order[i + 1]];
    }
  }

  /** Nothing in the next block has been visited yet. */
  lemma BlockBegins(s: Source, order: seq<Block>, i: nat, gone: set<Value>, seen: set<Value>)
    requires Proper(s) && order == Pre(s.g, START, {}) && i < |order| && order[i] < |s.body|
    requires Progress(s, order, i, gone, seen)
    requires forall v :: v in seen ==> v in s.blockOf && s.blockOf[v] in order[..i]
    ensures VisitedTo(s, DropInsts(s.body[order[i]].insts, gone), 0, seen)
  {
    var l := DropInsts(s.body[order[i]].insts, gone);
    BlockIds(s, gone, order[i]);
    PreorderComplete(s.g);
    assert l[0..] == l;
    forall x | x in l ensures x.id !in seen {
      var k :| 0 <= k < |l| && l[k] == x;
      assert IsCheck(s, l[k].id) ==> s.blockOf[l[k].id] == order[i];
    }
  }

  lemma ProgressGrows(s: Source, order: seq<Block>, i: nat, gone: set<Value>, seen: set<Value>, more: set<Value>,
                      x: Value)
    requires Progress(s, order, i, gone, seen) && i < |order| && IsCheck(s, x) && s.blockOf[x] == order[i]
    ensures Progress(s, order, i, gone + more, seen + {x})
  {
    assert order[..i + 1] == order[..i] + [order[i]];
  }

  /** A check in a reachable block that has not been deleted. */
  ghost predicate Stays(s: Source, gone: set<Value>, v: Value) {
    IsCheck(s, v) && v !in gone && Reachable(s.g, s.blockOf[v])
  }

  /** The check takes a constant on which it passes. */
  predicate PassesOnConstant(s: Source, v: Value)
    requires IsCheck(s, v)
  {
    && (s.attrs[v].kind == CHECK_ZERO || s.attrs[v].kind == CHECK_NULL)
    && |s.t[v]| == 1 && s.t[v][0] in s.attrs && s.attrs[s.t[v][0]].Const?
    && Passes(s.attrs[v].kind, [s.attrs[s.t[v][0]].raw], (index: int, size: int) => false)
  }

  /** Two checks of one kind and one subject, whose further operands are the same or equal constants. */
  predicate SameCheck(s: Source, u: Value, v: Value)
    requires IsCheck(s, u) && IsCheck(s, v)
  {
    && s.attrs[u].kind == s.attrs[v].kind && |s.t[u]| == |s.t[v]| > 0 && s.t[u][0] == s.t[v][0]
    && forall i :: 1 <= i < |s.t[u]| && s.t[u][i] != s.t[v][i] ==>
         && s.t[u][i] in s.attrs && s.attrs[s.t[u][i]].Const?
         && s.t[v][i] in s.attrs && s.attrs[s.t[v][i]].Const?
         && s.attrs[s.t[u][i]].dataType == s.attrs[s.t[v][i]].dataType
         && s.attrs[s.t[u][i]].raw == s.attrs[s.t[v][i]].raw
  }

  /** Nothing is left to do: of the checks that stay none passes on a constant, and none is repeated in its
      block or in a block below. */
  ghost predicate NothingRedundant(s: Source, gone: set<Value>) {
    && (forall v :: Stays(s, gone, v) ==> !PassesOnConstant(s, v))
    && (forall u, v :: Stays(s, gone, u) && Stays(s, gone, v) && u != v ==>
          Dominates(s.g, s.blockOf[u], s.blockOf[v]) ==> !SameCheck(s, u, v))
  }

  lemma PassingNeverFails(s: Source, v: Value)
    requires Proper(s) && IsCheck(s, v)
    ensures NeverFails(s, v) <==> PassesOnConstant(s, v)
  {}

  lemma SameIsEquivalent(s: Source, u: Value, v: Value)
    requires IsCheck(s, u) && IsCheck(s, v) && SameCheck(s, u, v)
    ensures Equivalent(s, u, v)
  {}

  /** The tests that the pass makes find all of that. */
  lemma TestsSuffice(s: Source, gone: set<Value>)
    requires Proper(s)
    requires forall w :: Stays(s, gone, w) ==> !NeverFails(s, w)
    requires forall u, v :: Stays(s, gone, u) && v !in gone ==> !Deletes(s, u, v)
    ensures NothingRedundant(s, gone)
  {
    forall v | Stays(s, gone, v) ensures !PassesOnConstant(s, v) {
      PassingNeverFails(s, v);
    }
    hide Proper, Dominates, Reachable, SameCheck, NeverFails;
    forall u, v | Stays(s, gone, u) && Stays(s, gone, v) && u != v && Dominates(s.g, s.blockOf[u], s.blockOf[v])
      ensures !SameCheck(s, u, v)
    {
      assert !Deletes(s, u, v);
      if SameCheck(s, u, v) {
        SameIsEquivalent(s, u, v);
      }
    }
  }

  /** Only what is redundant has been deleted: a check that passes on a constant, or one that repeats a check
      which stays and comes before it on every path. */
  ghost predicate OnlyRedundant(s: Source, gone: set<Value>) {
    forall u :: u in gone ==>
      && IsCheck(s, u) && Reachable(s.g, s.blockOf[u])
      && (PassesOnConstant(s, u) || exists w :: w != u && w !in gone && IsCheck(s, w) && Repeats(s, w, u))
  }

  ghost predicate Repeats(s: Source, w: Value, u: Value)
    requires IsCheck(s, w) && IsCheck(s, u)
  {
    SameCheck(s, w, u) && Precedes(s, w, u)
  }

  lemma JustifiedRepeats(s: Source, w: Value, u: Value)
    requires Proper(s) && Justifies(s, w, u)
    ensures IsCheck(s, w) && IsCheck(s, u) && w != u && Repeats(s, w, u)
    ensures Reachable(s.g, s.blockOf[w]) ==> Reachable(s.g, s.blockOf[u])
  {
    hide Dominates, StandsBefore, Proper;
  }

  lemma OnlyRedundantGone(s: Source, gone: set<Value>, seen: set<Value>, redundant: seq<Value>)
    requires Proper(s) && Inv(s, gone, seen, redundant)
    ensures OnlyRedundant(s, gone + Elems(redundant))
  {
    var all := gone + Elems(redundant);
    InvIsEliminated(s, gone, seen, redundant);
    hide Justifies, NeverFails, Reachable, PassesOnConstant, Repeats, Proper, NothingToDelete, NoneDoubled, SeenCovered;
    forall u | u in all
      ensures && IsCheck(s, u) && Reachable(s.g, s.blockOf[u])
              && (PassesOnConstant(s, u) || exists w :: w != u && w !in all && IsCheck(s, w) && Repeats(s, w, u))
    {
      PassingNeverFails(s, u);
      if u in gone {
        var w :| w in seen && w !in gone && Justifies(s, w, u);
        JustifiedRepeats(s, w, u);
      }
      if !NeverFails(s, u) {
        var w :| w !in all && Justifies(s, w, u);
        JustifiedRepeats(s, w, u);
      }
    }
  }

  lemma AllSeenAtEnd(s: Source, order: seq<Block>, gone: set<Value>, seen: set<Value>)
    requires Valid(s.g) && order == Pre(s.g, START, {}) && Progress(s, order, |order|, gone, seen)
    ensures forall x :: IsCheck(s, x) && Reachable(s.g, s.blockOf[x]) && x !in gone ==> x in seen
  {
    PreorderComplete(s.g);
    assert order[..|order|] == order;
  }

  lemma AllVisited(s: Source, order: seq<Block>, gone: set<Value>, seen: set<Value>, redundant: seq<Value>)
    requires Proper(s) && order == Pre(s.g, START, {}) && Progress(s, order, |order|, gone, seen)
    requires Inv(s, gone, seen, redundant)
    ensures NothingRedundant(s, gone + Elems(redundant))
  {
    AllSeenAtEnd(s, order, gone, seen);
    hide Proper, Deletes, NeverFails, Progress, Reachable;
    TestsSuffice(s, gone + Elems(redundant));
  }

  lemma {:induction false} DropInstsMore(insts: seq<Inst>, r: set<Value>, more: set<Value>)
    ensures DropInsts(DropInsts(insts, r), more) == DropInsts(insts, r + more)
    decreases |insts|
  {
    if insts != [] {
      var front, x := insts[..|insts| - 1], insts[|insts| - 1];
      DropInstsMore(front, r, more);
      var d := DropInsts(front, r);
      if x.id !in r {
        assert (d + [x])[..|d + [x]| - 1] == d;
      } else {
        assert d + [] == d;
      }
    }
  }

  lemma {:induction false} DropInstsNone(insts: seq<Inst>)
    ensures DropInsts(insts, {}) == insts
    decreases |insts|
  {
    if insts != [] {
      DropInstsNone(insts[..|insts| - 1]);
    }
  }

  lemma BlockIdAt(s: Source, gone: set<Value>, b: Block, k: nat)
    requires Proper(s) && b < |s.body| && k < |DropInsts(s.body[b].insts, gone)|
    requires IsCheck(s, DropInsts(s.body[b].insts, gone)[k].id)
    ensures DropInsts(s.body[b].insts, gone)[k].id in s.blockOf
    ensures s.blockOf[DropInsts(s.body[b].insts, gone)[k].id] == b
  {
    BlockIds(s, gone, b);
  }

  lemma NotItself(s: Source, gone: set<Value>, x: Value)
    ensures x !in Victims(s, gone, x)
  {}

  lemma OrderBlocks(s: Source)
    requires Proper(s)
    ensures var order := Pre(s.g, START, {}); forall i :: 0 <= i < |order| ==> order[i] < |s.body|
  {
    PreorderComplete(s.g);
    var order := Pre(s.g, START, {});
    forall i | 0 <= i < |order| ensures order[i] < |s.body| {
      assert order[i] in order;
      var p :| PathFromTo(s.g, p, START, order[i]);
    }
  }

  lemma ProgressStart(s: Source, order: seq<Block>)
    ensures Progress(s, order, 0, {}, {})
  {}

  lemma NothingGone(s: Source, users0: Users)
    ensures DropAll(s.body, {}) == s.body && UsersWithout(users0, {}) == users0
  {
    forall b | 0 <= b < |s.body| ensures Drop(s.body[b], {}) == s.body[b] {
      DropNothing(s.body[b]);
    }
    forall v | v in users0 ensures Without(users0[v], {}) == users0[v] {
      WithoutAbsent(users0[v], {});
    }
  }

  lemma TableSet(s: Source)
    requires Proper(s)
    ensures InputsSet(s.t)
  {}

  lemma HitNone(s: Source, us: seq<User>, x: Value)
    ensures Hit(s, us, 0, x) == {}
  {}

  lemma HitStep(s: Source, us: seq<User>, i: nat, x: Value)
    requires i < |us|
    ensures Hit(s, us, i + 1, x) == Hit(s, us, i, x) + if Deletes(s, x, us[i].inst) then {us[i].inst} else {}
  {}

  lemma CheckFacts(s: Source, u: Value, x: Value)
    requires Proper(s) && IsCheck(s, x) && u in s.attrs && u in s.t && s.attrs[u] == s.attrs[x]
    ensures IsCheck(s, u) && s.blockOf[u] < |s.g| && s.blockOf[x] < |s.g| && Valid(s.g)
  {}

  lemma CheckArity(s: Source, x: Value)
    requires Proper(s) && IsCheck(s, x)
    ensures |s.t[x]| > 0 && s.t[x][0] in s.attrs && (s.attrs[x].kind != CHECK_SIZE ==> |s.t[x]| == 1)
  {
    assert s.t[x][0] in s.t[x];
  }

  /** The pass.  `gone` are the deleted checks and `seen` the visited ones. */
  class CheckElimination {
    const s: Source
    const ir: Ir
    ghost const users0: Users
    var redundantChecks: seq<Value>
    ghost var gone: set<Value>
    ghost var seen: set<Value>

    constructor (s: Source, ir: Ir)
      requires Proper(s) && ir.t == s.t && ir.body == s.body && Inverse(s.t, ir.users, {})
      ensures this.s == s && this.ir == ir && this.users0 == ir.users && Holds() && gone == {} && seen == {}
      ensures redundantChecks == []
    {
      this.s, this.ir, users0 := s, ir, ir.users;
      redundantChecks, gone, seen := [], {}, {};
      new;
      NothingGone(s, users0);
    }

    /** The graph is the original one without the checks in `gone`. */
    ghost predicate Holds()
      reads `gone, ir
    {
      && Proper(s) && Inverse(s.t, users0, {}) && ir.t == s.t
      && ir.body == DropAll(s.body, gone) && ir.users == UsersWithout(users0, gone)
    }

    method DeleteCheck(v: Value)
      requires Holds() && IsCheck(s, v) && v !in gone
      modifies this`gone, ir
      ensures Holds() && gone == old(gone) + {v}
    {
      UnlinkedEverywhere(s, gone, v);
      InverseIsListed(s.t, users0);
      hide Proper, Inverse, IsCheck, DropAll, UsersWithout;
      TableSet(s);
      ir.DropUser(v, users0, gone);
      ir.UnlinkInst(s.blockOf[v], v);
      gone := gone + {v};
    }

    /** `DefaultEquivalenceCheck`: `ok` says whether the assertion on the first operands holds. */
    method EquivalentChecks(u: Value, x: Value) returns (ok: bool, r: bool)
      requires IsCheck(s, u) && IsCheck(s, x) && s.attrs[u] == s.attrs[x] && |s.t[u]| == |s.t[x]| > 0
      ensures ok <==> s.t[u][0] == s.t[x][0]
      ensures ok ==> (r <==> Equivalent(s, x, u))
    {
      if s.t[u][0] != s.t[x][0] {
        return false, false;
      }
      for i := 1 to |s.t[u]|
        invariant forall j :: 1 <= j < i ==> AreSameOrSameVal(s, s.t[x][j], s.t[u][j])
      {
        if !AreSameOrSameVal(s, s.t[u][i], s.t[x][i]) {
          return true, false;
        }
      }
      return true, true;
    }

    /** The user list that a visit of `x` goes through. */
    lemma Subject(x: Value)
      requires Holds() && IsCheck(s, x)
      ensures Proper(s) && x in s.t && |s.t[x]| > 0 && s.t[x][0] in ir.users
      ensures SubjectUsers(s, gone, ir.users[s.t[x][0]], x)
    {
      UsersOfSubject(s, users0, gone, x);
    }

    /** Goes through a copy of the user list of the subject.  `ok` is false if an assertion fails, or a
        check that has been unlinked is to be unlinked again. */
    method DeleteDominatedChecks(dt: DT.DomTree, x: Value) returns (ok: bool)
      requires Holds() && IsCheck(s, x) && x !in gone
      requires dt.g == s.g && DT.IsDominatorTree(s.g, dt.immDominator)
      modifies this`gone, ir
      ensures ok <==> !Fails(s, old(gone), x)
      ensures Holds() && (ok ==> gone == old(gone) + Victims(s, old(gone), x))
    {
      hide *;
      Subject(x);
      var us := ir.users[s.t[x][0]];
      HitNone(s, us, x);
      NoneFailsYet(s, us, 0, x);
      assert gone + {} == gone;
      ok := true;
      FailsIffHere(us, x);
      for i := 0 to |us|
        invariant Holds() && ok && gone == old(gone) + Hit(s, us, i, x) && NoneFails(s, us, i, x)
      {
        HitStep(s, us, i, x);
        NoneFailsYet(s, us, i, x);
        ok := TryDelete(dt, x, us, i, old(gone));
        if !ok {
          FailsFrom(us, i, x);
          return;
        }
      }
      HitAllHere(us, x, old(gone));
    }

    lemma FailsIffHere(us: seq<User>, x: Value)
      requires Holds() && IsCheck(s, x) && |s.t[x]| > 0 && SubjectUsers(s, gone, us, x)
      ensures Fails(s, gone, x) <==> !NoneFails(s, us, |us|, x)
    {
      FailsIff(s, gone, us, x);
    }

    lemma FailsFrom(us: seq<User>, i: nat, x: Value)
      requires i < |us| && EntryFails(s, us, i, x)
      ensures !NoneFails(s, us, |us|, x)
    {}

    lemma HitAllHere(us: seq<User>, x: Value, gone0: set<Value>)
      requires Holds() && IsCheck(s, x) && |s.t[x]| > 0 && SubjectUsers(s, gone0, us, x)
      ensures Hit(s, us, |us|, x) == Victims(s, gone0, x)
    {
      HitAll(s, gone0, us, x);
    }

    /** The body of the loop over the users. */
    method TryDelete(dt: DT.DomTree, x: Value, us: seq<User>, i: nat, ghost gone0: set<Value>) returns (ok: bool)
      requires Holds() && IsCheck(s, x) && |s.t[x]| > 0 && SubjectUsers(s, gone0, us, x) && i < |us|
      requires gone == gone0 + Hit(s, us, i, x)
      requires dt.g == s.g && DT.IsDominatorTree(s.g, dt.immDominator)
      modifies this`gone, ir
      ensures Holds() && (ok <==> !EntryFails(s, us, i, x))
      ensures ok ==> gone == old(gone) + if Deletes(s, x, us[i].inst) then {us[i].inst} else {}
    {
      UserAt(s, gone0, us, x, i);
      var u := us[i].inst;
      if s.attrs[u] != s.attrs[x] || u == x {
        return true;
      }
      CheckFacts(s, u, x);
      SubjectUser(s, x, u);
      LinkedIff(s, gone, u);
      hide Proper, Inverse, DropAll, UsersWithout, SubjectUsers, DT.IsDominatorTree, Hit, Dominates, Reachable,
           Equivalent, Linked;
      var dominates := s.blockOf[x] == s.blockOf[u];
      if !dominates {
        dominates := dt.BlockDominates(s.blockOf[x], s.blockOf[u]);
      }
      ok := true;
      if dominates {
        var same, eq := EquivalentChecks(u, x);
        ok := same;
        if same && eq {
          ok := Linked(ir.body[s.blockOf[u]].insts, u);
          if ok {
            DeleteCheck(u);
          }
        }
      }
    }

    /** A check that cannot fail is noted for removal. */
    method CheckRedundancy(x: Value)
      requires IsCheck(s, x) && |s.t[x]| > 0 && s.t[x][0] in s.attrs
      requires s.attrs[x].kind != CHECK_SIZE ==> |s.t[x]| == 1
      modifies this`redundantChecks
      ensures redundantChecks == old(redundantChecks) + if PassesOnConstant(s, x) then [x] else []
    {
      if s.attrs[x].kind != CHECK_SIZE {
        var input := s.t[x][0];
        if s.attrs[input].Const? && s.attrs[input].raw != 0 {
          redundantChecks := redundantChecks + [x];
          return;
        }
      }
      assert old(redundantChecks) + [] == redundantChecks;
    }

    /** What the visit of `x` comes to. */
    lemma VisitOutcome(x: Value)
      requires Holds() && Inv(s, gone, seen, redundantChecks) && InTurn(s, gone, seen, x)
      ensures IsCheck(s, x) && x !in gone && |s.t[x]| > 0 && s.t[x][0] in s.attrs
      ensures s.attrs[x].kind != CHECK_SIZE ==> |s.t[x]| == 1
      ensures Fails(s, gone, x) ==> Clashing(s)
      ensures !Fails(s, gone, x) ==>
                Inv(s, gone + Victims(s, gone, x), seen + {x},
                    redundantChecks + if PassesOnConstant(s, x) then [x] else [])
    {
      CheckArity(s, x);
      PassingNeverFails(s, x);
      hide Proper, Inv, Fails, Clashing, Victims, NeverFails, PassesOnConstant;
      if Fails(s, gone, x) {
        FailureIsClash(s, gone, seen, redundantChecks, x);
      } else {
        VisitKeepsInv(s, gone, seen, redundantChecks, x);
        assert redundantChecks + [] == redundantChecks;
      }
    }

    /** `VisitCHECK_ZERO`, `VisitCHECK_NULL` and `VisitCHECK_SIZE`. */
    method VisitCheck(dt: DT.DomTree, x: Value) returns (ok: bool)
      requires Holds() && Inv(s, gone, seen, redundantChecks) && InTurn(s, gone, seen, x)
      requires dt.g == s.g && DT.IsDominatorTree(s.g, dt.immDominator)
      modifies this, ir
      ensures (ok <==> !Fails(s, old(gone), x)) && (!ok ==> Clashing(s))
      ensures ok ==> Holds() && Inv(s, gone, seen, redundantChecks)
      ensures ok ==> gone == old(gone) + Victims(s, old(gone), x) && seen == old(seen) + {x}
      ensures ok ==> redundantChecks == old(redundantChecks) + if PassesOnConstant(s, x) then [x] else []
    {
      hide *;
      VisitOutcome(x);
      ok := DeleteDominatedChecks(dt, x);
      if !ok {
        return;
      }
      CheckRedundancy(x);
      seen := seen + {x};
    }

    /** The instructions of the `i`-th block of the order, through the list as it is at the time. */
    method VisitBasicBlock(dt: DT.DomTree, ghost order: seq<Block>, ghost i: nat, b: Block) returns (ok: bool)
      requires Holds() && Inv(s, gone, seen, redundantChecks) && order == Pre(s.g, START, {})
      requires i < |order| && b == order[i] < |s.body| && Progress(s, order, i, gone, seen)
      requires forall v :: v in seen ==> v in s.blockOf && s.blockOf[v] in order[..i]
      requires dt.g == s.g && DT.IsDominatorTree(s.g, dt.immDominator)
      modifies this, ir
      ensures ok ==> Holds() && Inv(s, gone, seen, redundantChecks) && Progress(s, order, i + 1, gone, seen)
      ensures ok ==> forall v :: v in seen ==> v in s.blockOf && s.blockOf[v] in order[..i + 1]
      ensures !ok ==> Clashing(s)
    {
      hide *;
      BlockStarts(order, i);
      var k: nat := 0;
      Listing(b);
      ok := true;
      while k < |ir.body[b].insts|
        invariant ok && Holds() && Inv(s, gone, seen, redundantChecks) && Progress(s, order, i, gone, seen)
        invariant b < |ir.body| && ir.body[b].insts == DropInsts(s.body[b].insts, gone)
        invariant VisitedTo(s, ir.body[b].insts, k, seen)
        decreases |ir.body[b].insts| - k
      {
        ok, k := VisitNext(dt, order, i, b, k);
        if !ok {
          return;
        }
      }
      BlockEnds(order, i, k);
    }

    /** Visits the instruction at position `k` and finds the next one behind it. */
    method VisitNext(dt: DT.DomTree, ghost order: seq<Block>, ghost i: nat, b: Block, k: nat)
      returns (ok: bool, next: nat)
      requires Holds() && Inv(s, gone, seen, redundantChecks) && order == Pre(s.g, START, {})
      requires i < |order| && b == order[i] < |s.body| && Progress(s, order, i, gone, seen)
      requires b < |ir.body| && ir.body[b].insts == DropInsts(s.body[b].insts, gone)
      requires k < |ir.body[b].insts| && VisitedTo(s, ir.body[b].insts, k, seen)
      requires dt.g == s.g && DT.IsDominatorTree(s.g, dt.immDominator)
      modifies this, ir
      ensures !ok ==> Clashing(s)
      ensures ok ==> Holds() && Inv(s, gone, seen, redundantChecks) && Progress(s, order, i, gone, seen)
      ensures ok ==> b < |ir.body| && ir.body[b].insts == DropInsts(s.body[b].insts, gone)
      ensures ok ==> VisitedTo(s, ir.body[b].insts, next, seen)
      ensures ok ==> |ir.body[b].insts| - next < old(|ir.body[b].insts|) - k
    {
      hide *;
      ok := true;
      var l := ir.body[b].insts;
      var x := l[k].id;
      ghost var gone0, seen0 := gone, seen;
      KindOf(b, k);
      if s.attrs[x].Check? {
        Turn(order, i, k);
        ok := VisitCheck(dt, x);
        if !ok {
          return false, 0;
        }
        AfterCheck(order, i, k, gone0, seen0);
      } else {
        AfterOther(b, k);
      }
      next := Find(ir.body[b].insts, x) + 1;
    }

    lemma Listing(b: Block)
      requires Holds() && b < |s.body|
      ensures Proper(s) && b < |ir.body| && ir.body[b].insts == DropInsts(s.body[b].insts, gone)
    {}

    lemma BlockStarts(order: seq<Block>, i: nat)
      requires Holds() && order == Pre(s.g, START, {}) && i < |order| && order[i] < |s.body|
      requires Progress(s, order, i, gone, seen)
      requires forall v :: v in seen ==> v in s.blockOf && s.blockOf[v] in order[..i]
      ensures order[i] < |ir.body| && VisitedTo(s, ir.body[order[i]].insts, 0, seen)
    {
      BlockBegins(s, order, i, gone, seen);
    }

    lemma BlockEnds(order: seq<Block>, i: nat, k: nat)
      requires Holds() && order == Pre(s.g, START, {}) && i < |order| && order[i] < |s.body|
      requires Progress(s, order, i, gone, seen) && order[i] < |ir.body|
      requires ir.body[order[i]].insts == DropInsts(s.body[order[i]].insts, gone)
      requires k >= |ir.body[order[i]].insts| && VisitedTo(s, ir.body[order[i]].insts, k, seen)
      ensures Progress(s, order, i + 1, gone, seen)
      ensures forall v :: v in seen ==> v in s.blockOf && s.blockOf[v] in order[..i + 1]
    {
      BlockFinished(s, order, i, gone, seen);
    }

    lemma KindOf(b: Block, k: nat)
      requires Holds() && b < |s.body| && b < |ir.body| && ir.body[b].insts == DropInsts(s.body[b].insts, gone)
      requires k < |ir.body[b].insts|
      ensures var x := ir.body[b].insts[k].id;
        x in s.attrs && x !in gone && (s.attrs[x].Check? <==> IsCheck(s, x))
    {
      BlockIds(s, gone, b);
    }

    lemma Turn(order: seq<Block>, i: nat, k: nat)
      requires Holds() && order == Pre(s.g, START, {}) && i < |order| && order[i] < |s.body|
      requires Progress(s, order, i, gone, seen) && order[i] < |ir.body|
      requires ir.body[order[i]].insts == DropInsts(s.body[order[i]].insts, gone)
      requires k < |ir.body[order[i]].insts| && VisitedTo(s, ir.body[order[i]].insts, k, seen)
      requires IsCheck(s, ir.body[order[i]].insts[k].id)
      ensures InTurn(s, gone, seen, ir.body[order[i]].insts[k].id)
    {
      NextInTurn(s, order, i, gone, seen, k);
    }

    lemma AfterCheck(order: seq<Block>, i: nat, k: nat, gone0: set<Value>, seen0: set<Value>)
      requires Holds() && i < |order| && order[i] < |s.body| && Progress(s, order, i, gone0, seen0)
      requires var l := DropInsts(s.body[order[i]].insts, gone0);
        && k < |l| && VisitedTo(s, l, k, seen0) && IsCheck(s, l[k].id)
        && gone == gone0 + Victims(s, gone0, l[k].id) && seen == seen0 + {l[k].id}
      ensures order[i] < |ir.body| && ir.body[order[i]].insts == DropInsts(s.body[order[i]].insts, gone)
      ensures Progress(s, order, i, gone, seen)
      ensures var r := ir.body[order[i]].insts;
        var x := DropInsts(s.body[order[i]].insts, gone0)[k].id;
        && (exists q :: 0 <= q < |r| && r[q].id == x)
        && VisitedTo(s, r, Find(r, x) + 1, seen)
        && |r| - (Find(r, x) + 1) < |DropInsts(s.body[order[i]].insts, gone0)| - k
    {
      hide *;
      Listing(order[i]);
      BlockIdAt(s, gone0, order[i], k);
      var insts := s.body[order[i]].insts;
      var x := DropInsts(insts, gone0)[k].id;
      DropInstsMore(insts, gone0, Victims(s, gone0, x));
      NotItself(s, gone0, x);
      ProgressGrows(s, order, i, gone0, seen0, Victims(s, gone0, x), x);
      SweepGoesOn(s, DropInsts(insts, gone0), k, seen0, seen, Victims(s, gone0, x));
    }

    lemma AfterOther(b: Block, k: nat)
      requires Holds() && b < |ir.body| && k < |ir.body[b].insts| && VisitedTo(s, ir.body[b].insts, k, seen)
      requires !IsCheck(s, ir.body[b].insts[k].id)
      ensures var r := ir.body[b].insts;
        && (exists q :: 0 <= q < |r| && r[q].id == r[k].id)
        && VisitedTo(s, r, Find(r, r[k].id) + 1, seen) && |r| - (Find(r, r[k].id) + 1) < |r| - k
    {
      var l := ir.body[b].insts;
      DropInstsNone(l);
      SweepGoesOn(s, l, k, seen, seen, {});
    }

    method VisitGraph(dt: DT.DomTree) returns (ok: bool)
      requires Holds() && gone == seen == {} && redundantChecks == []
      requires dt.g == s.g && DT.IsDominatorTree(s.g, dt.immDominator)
      modifies this, ir
      ensures !ok ==> Clashing(s)
      ensures ok ==> Holds() && Inv(s, gone, seen, redundantChecks)
      ensures ok ==> Progress(s, Pre(s.g, START, {}), |Pre(s.g, START, {})|, gone, seen)
    {
      assert Valid(s.g);
      var rpo := new RPO(s.g);
      rpo.Run();
      var order := rpo.blocks;
      OrderBlocks(s);
      StartKeepsInv(s);
      ProgressStart(s, order);
      hide Holds, Inv, Progress, DT.IsDominatorTree, Clashing;
      ok := true;
      for i := 0 to |order|
        invariant ok && Holds() && Inv(s, gone, seen, redundantChecks) && Progress(s, order, i, gone, seen)
        invariant forall v :: v in seen ==> v in s.blockOf && s.blockOf[v] in order[..i]
      {
        ok := VisitBasicBlock(dt, order, i, order[i]);
        if !ok {
          return;
        }
      }
    }

    method RemoveRedundantChecks()
      requires Holds() && Inv(s, gone, seen, redundantChecks)
      modifies this`gone, ir
      ensures Holds() && gone == old(gone) + Elems(redundantChecks)
    {
      hide *;
      assert redundantChecks[..0] == [];
      NoneYet();
      for i := 0 to |redundantChecks|
        invariant Holds() && gone == old(gone) + Elems(redundantChecks[..i])
      {
        NotGone(i, old(gone));
        DeleteCheck(redundantChecks[i]);
      }
      assert redundantChecks[..|redundantChecks|] == redundantChecks;
    }

    lemma NoneYet()
      ensures gone + Elems([]) == gone
    {}

    lemma NotGone(i: nat, gone0: set<Value>)
      requires Inv(s, gone0, seen, redundantChecks) && i < |redundantChecks|
      ensures IsCheck(s, redundantChecks[i]) && redundantChecks[i] !in gone0 + Elems(redundantChecks[..i])
      ensures gone0 + Elems(redundantChecks[..i + 1]) == gone0 + Elems(redundantChecks[..i]) + {redundantChecks[i]}
    {
      assert redundantChecks[..i + 1] == redundantChecks[..i] + [redundantChecks[i]];
      ElemsConcat(redundantChecks[..i], [redundantChecks[i]]);
      assert redundantChecks[i] in redundantChecks;
    }

    /** The pass goes through exactly if the program has no clash.  Then every deleted check cannot fail or
        is justified by a check that stays, and among the checks that stay nothing more could be
        deleted. */
    method Run(dt: DT.DomTree) returns (ok: bool)
      requires Holds() && gone == seen == {} && redundantChecks == []
      requires dt.g == s.g && DT.IsDominatorTree(s.g, dt.immDominator)
      modifies this, ir
      ensures ok <==> !Clashing(s)
      ensures ok ==> ir.body == DropAll(s.body, gone) && ir.users == UsersWithout(users0, gone)
      ensures ok ==> Eliminated(s, gone) && OnlyRedundant(s, gone) && NothingRedundant(s, gone)
      ensures ok ==> redundantChecks == [] && OnlyGone(s.body, ir.body, gone)
    {
      ok := VisitGraph(dt);
      if !ok {
        return;
      }
      Visited();
      hide Eliminated, OnlyRedundant, NothingRedundant, Inv, Progress, Clashing;
      RemoveRedundantChecks();
      redundantChecks := [];
      DroppedGone(s.body, gone);
    }

    /** What holds when all visits have gone through. */
    lemma Visited()
      requires Holds() && Inv(s, gone, seen, redundantChecks)
      requires Progress(s, Pre(s.g, START, {}), |Pre(s.g, START, {})|, gone, seen)
      ensures Eliminated(s, gone + Elems(redundantChecks)) && NothingRedundant(s, gone + Elems(redundantChecks))
      ensures OnlyRedundant(s, gone + Elems(redundantChecks)) && !Clashing(s)
    {
      assert Valid(s.g);
      OnlyRedundantGone(s, gone, seen, redundantChecks);
      InvIsEliminated(s, gone, seen, redundantChecks);
      AllVisited(s, Pre(s.g, START, {}), gone, seen, redundantChecks);
      AllSeenAtEnd(s, Pre(s.g, START, {}), gone, seen);
      hide Eliminated, OnlyRedundant, NothingRedundant, Clashing, Inv, Proper;
      FinishedIsClear(s, gone, seen, redundantChecks);
    }
  }
}
