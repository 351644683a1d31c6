/** Which checks the check elimination pass (pass/check_elimination.cpp) may take away: the relation
    between checks it uses, and the invariant of its visits. */
module Checks {
  import opened Cfg
  import opened Ssa
  import opened Editing
  import opened NaturalLoops
  import DT = DominatorTree

  datatype Kind = CHECK_ZERO | CHECK_NULL | CHECK_SIZE

  datatype Attr = Plain | Const(dataType: nat, raw: nat) | Check(kind: Kind)

  /** The graph that the pass starts from. */
  datatype Source = Source(g: Graph, body: Code, t: Table, attrs: map<Value, Attr>, blockOf: map<Value, Block>)

  predicate IsCheck(s: Source, v: Value) {
    v in s.attrs && s.attrs[v].Check? && v in s.t && v in s.blockOf
  }

  /** When a size check passes. */
  type SizeTest = (int, int) -> bool

  function Passes(kind: Kind, ops: seq<int>, sizeOk: SizeTest): bool {
    if kind == CHECK_SIZE then |ops| == 2 && sizeOk(ops[0], ops[1]) else |ops| == 1 && ops[0] != 0
  }

  /** Every check takes its operands and stands in its block, and nothing uses a check. */
  ghost predicate Proper(s: Source) {
    && Valid(s.g) && |s.body| == |s.g| && UniqueIds(s.body) && TableOf(s.body, s.t)
    && s.attrs.Keys == s.t.Keys
    && (forall v :: v in s.attrs && s.attrs[v].Check? ==>
          && v in s.blockOf && s.blockOf[v] < |s.body| && (exists k :: InstDef(s.body, s.blockOf[v], k, v))
          && |s.t[v]| == if s.attrs[v].kind == CHECK_SIZE then 2 else 1)
    && (forall v, u :: v in s.t && u in s.t[v] ==> !s.attrs[u].Check?)
  }

  predicate AreSameOrSameVal(s: Source, u: Value, v: Value) {
    u == v || (u in s.attrs && v in s.attrs && s.attrs[u].Const? && s.attrs[u] == s.attrs[v])
  }

  /** `DefaultEquivalenceCheck` on two checks of the same kind. */
  predicate Equivalent(s: Source, u: Value, v: Value) {
    && IsCheck(s, u) && IsCheck(s, v) && s.attrs[u] == s.attrs[v] && |s.t[u]| == |s.t[v]| > 0
    && s.t[u][0] == s.t[v][0]
    && forall i :: 1 <= i < |s.t[u]| ==> AreSameOrSameVal(s, s.t[u][i], s.t[v][i])
  }

  /** `CheckRedundancy`: the operand is a constant other than zero. */
  predicate NeverFails(s: Source, v: Value) {
    && IsCheck(s, v) && s.attrs[v].kind != CHECK_SIZE && |s.t[v]| > 0 && s.t[v][0] in s.attrs
    && s.attrs[s.t[v][0]].Const? && s.attrs[s.t[v][0]].raw != 0
  }

  /** Instruction `u` stands before `v` in the same block. */
  ghost predicate StandsBefore(body: Code, b: Block, u: Value, v: Value) {
    exists j, k :: j < k && InstDef(body, b, j, u) && InstDef(body, b, k, v)
  }

  ghost predicate Precedes(s: Source, u: Value, v: Value)
    requires u in s.blockOf && v in s.blockOf
  {
    if s.blockOf[u] == s.blockOf[v] then StandsBefore(s.body, s.blockOf[u], u, v)
    else Reachable(s.g, s.blockOf[v]) && Dominates(s.g, s.blockOf[u], s.blockOf[v])
  }

  /** Whenever `v` is about to be executed, `u` has been executed on the same operand values. */
  ghost predicate Justifies(s: Source, u: Value, v: Value) {
    Equivalent(s, u, v) && u != v && Precedes(s, u, v)
  }

  /** The test on blocks that `DeleteDominatedChecks` makes while visiting `x`: it does not look at the
      order inside a block. */
  ghost predicate Near(s: Source, x: Value, u: Value)
    requires x in s.blockOf && u in s.blockOf
  {
    s.blockOf[x] == s.blockOf[u] || (Reachable(s.g, s.blockOf[u]) && Dominates(s.g, s.blockOf[x], s.blockOf[u]))
  }

  ghost predicate Deletes(s: Source, x: Value, u: Value) {
    Equivalent(s, x, u) && u != x && Near(s, x, u)
  }

  ghost function Victims(s: Source, gone: set<Value>, x: Value): set<Value> {
    set u | u in s.t && u !in gone && Deletes(s, x, u)
  }

  // ---- Where the pass fails ------------------------------------------------------------------------

  /** A visit of `x` compares it with `u`, which has the subject of `x` for its index, but another
      subject: the assertion on the first operands fails. */
  ghost predicate WrongSubject(s: Source, x: Value, u: Value) {
    && IsCheck(s, x) && IsCheck(s, u) && s.attrs[u] == s.attrs[x] && u != x && Near(s, x, u)
    && |s.t[x]| == |s.t[u]| == 2 && s.t[u][1] == s.t[x][0] && s.t[u][0] != s.t[x][0]
  }

  /** A visit of `x` deletes `u`, which names the subject twice and is a user twice: it is deleted, and
      then unlinked once more. */
  ghost predicate Doubled(s: Source, x: Value, u: Value) {
    Deletes(s, x, u) && Uses(s.t[u], s.t[x][0]) > 1
  }

  /** A visit of `x` fails. */
  ghost predicate Fails(s: Source, gone: set<Value>, x: Value) {
    exists u :: u !in gone && (WrongSubject(s, x, u) || Doubled(s, x, u))
  }

  /** An equivalent check before both takes `u` away in time. */
  ghost predicate Covered(s: Source, x: Value, u: Value)
    requires x in s.blockOf
  {
    exists w :: Justifies(s, w, u) && Precedes(s, w, x)
  }

  /** The programs on which the pass fails: some check has the subject of another one, `x`, for its
      index and is not taken away before `x` is visited, or a check of a value against itself is
      redundant. */
  ghost predicate Clashing(s: Source) {
    exists x, u :: IsCheck(s, x) && Reachable(s.g, s.blockOf[x])
      && ((WrongSubject(s, x, u) && !Covered(s, x, u)) || (Justifies(s, x, u) && Doubled(s, x, u)))
  }

  // ---- The relation ------------------------------------------------------------------------------

  lemma EquivalentSymmetric(s: Source, u: Value, v: Value)
    requires Equivalent(s, u, v)
    ensures Equivalent(s, v, u)
  {}

  lemma EquivalentTransitive(s: Source, u: Value, v: Value, w: Value)
    requires Equivalent(s, u, v) && Equivalent(s, v, w)
    ensures Equivalent(s, u, w)
  {
    forall i | 1 <= i < |s.t[u]| ensures AreSameOrSameVal(s, s.t[u][i], s.t[w][i]) {
      assert AreSameOrSameVal(s, s.t[u][i], s.t[v][i]) && AreSameOrSameVal(s, s.t[v][i], s.t[w][i]);
    }
  }

  lemma NeverFailsShared(s: Source, u: Value, v: Value)
    requires Equivalent(s, u, v) && NeverFails(s, u)
    ensures NeverFails(s, v)
  {}

  lemma StandsBeforeTransitive(body: Code, b: Block, u: Value, v: Value, w: Value)
    requires UniqueIds(body) && StandsBefore(body, b, u, v) && StandsBefore(body, b, v, w)
    ensures StandsBefore(body, b, u, w) && u != w
  {
    var j, k :| j < k && InstDef(body, b, j, u) && InstDef(body, b, k, v);
    var k', l :| k' < l && InstDef(body, b, k', v) && InstDef(body, b, l, w);
    assert k == k';
  }

  lemma DominatesAntisymmetric(g: Graph, a: Block, b: Block)
    requires Dominates(g, a, b) && Dominates(g, b, a) && Reachable(g, a)
    ensures a == b
  {
    var p :| PathFromTo(g, p, START, a);
    DT.DominanceAntisymmetric(g, a, b, p);
  }

  lemma PrecedesTransitive(s: Source, u: Value, v: Value, w: Value)
    requires Proper(s) && IsCheck(s, u) && IsCheck(s, v) && IsCheck(s, w) && u != w
    requires Precedes(s, u, v) && Precedes(s, v, w)
    ensures Precedes(s, u, w)
  {
    var a, b, c := s.blockOf[u], s.blockOf[v], s.blockOf[w];
    if a == b && b == c {
      StandsBeforeTransitive(s.body, a, u, v, w);
    } else if a != b && b != c {
      DT.DominatesTransitive(s.g, a, b, c);
      if a == c {
        DominatesAntisymmetric(s.g, b, c);
      }
    }
  }

  /** The check that deletes takes over what the deleted check justified. */
  lemma JustifiesTransitive(s: Source, u: Value, v: Value, w: Value)
    requires Proper(s) && Justifies(s, u, v) && Justifies(s, v, w)
    ensures Justifies(s, u, w)
  {
    EquivalentTransitive(s, u, v, w);
    if u != w {
      PrecedesTransitive(s, u, v, w);
    } else {
      NotMutual(s, u, v);
    }
  }

  lemma NotMutual(s: Source, u: Value, v: Value)
    requires Proper(s) && IsCheck(s, u) && IsCheck(s, v) && u != v && Precedes(s, u, v)
    ensures !Precedes(s, v, u)
  {
    if s.blockOf[u] == s.blockOf[v] {
      if StandsBefore(s.body, s.blockOf[u], v, u) {
        StandsBeforeTransitive(s.body, s.blockOf[u], u, v, u);
      }
    } else if Dominates(s.g, s.blockOf[v], s.blockOf[u]) && Reachable(s.g, s.blockOf[u]) {
      DominatesAntisymmetric(s.g, s.blockOf[u], s.blockOf[v]);
    }
  }

  lemma JustifiesDeletes(s: Source, u: Value, v: Value)
    requires Justifies(s, u, v)
    ensures Deletes(s, u, v)
  {}

  // ---- The invariant of the visits ---------------------------------------------------------------

  /** Everything deleted is justified by a visited check that is still there. */
  ghost predicate AllJustified(s: Source, gone: set<Value>, seen: set<Value>) {
    forall u :: u in gone ==> exists w :: w in seen && w !in gone && Justifies(s, w, u)
  }

  /** A visited check that is still there has nothing left to delete. */
  ghost predicate NothingToDelete(s: Source, gone: set<Value>, seen: set<Value>) {
    forall w, u :: w in seen && w !in gone && u in s.t && u !in gone ==> !Deletes(s, w, u)
  }

  /** The checks to be removed at the end are the visited ones that cannot fail, each once. */
  ghost predicate Pending(s: Source, gone: set<Value>, seen: set<Value>, redundant: seq<Value>) {
    && (forall v :: v in redundant <==> v in seen && v !in gone && NeverFails(s, v))
    && (forall i, j :: 0 <= i < j < |redundant| ==> redundant[i] != redundant[j])
  }

  /** Nothing deleted names its subject twice. */
  ghost predicate NoneDoubled(s: Source, gone: set<Value>) {
    forall u :: u in gone ==> u in s.t && |s.t[u]| > 0 && Uses(s.t[u], s.t[u][0]) == 1
  }

  /** What a visit might have failed on had been taken away. */
  ghost predicate SeenCovered(s: Source, seen: set<Value>) {
    forall x, u :: x in seen && WrongSubject(s, x, u) ==> Covered(s, x, u)
  }

  /** Checks before a visited one have been visited or are gone. */
  ghost predicate SeenInOrder(s: Source, gone: set<Value>, seen: set<Value>) {
    && (forall w :: w in seen ==> IsCheck(s, w) && Reachable(s.g, s.blockOf[w]))
    && (forall v, w :: w in seen && IsCheck(s, v) && v !in gone && s.blockOf[v] == s.blockOf[w] ==>
          StandsBefore(s.body, s.blockOf[w], v, w) ==> v in seen)
  }

  ghost predicate Inv(s: Source, gone: set<Value>, seen: set<Value>, redundant: seq<Value>) {
    && AllJustified(s, gone, seen) && NothingToDelete(s, gone, seen) && Pending(s, gone, seen, redundant)
    && NoneDoubled(s, gone) && SeenCovered(s, seen) && SeenInOrder(s, gone, seen)
  }

  /** The visiting order: checks before `x` have been visited or are gone, and no check in a block that
      the block of `x` strictly dominates has been visited. */
  ghost predicate InTurn(s: Source, gone: set<Value>, seen: set<Value>, x: Value) {
    && IsCheck(s, x) && x !in gone && x !in seen && Reachable(s.g, s.blockOf[x])
    && (forall u :: IsCheck(s, u) && u !in gone && u != x && Precedes(s, u, x) ==> u in seen)
    && (forall u :: u in seen && IsCheck(s, u) && s.blockOf[u] != s.blockOf[x] ==>
          !Dominates(s.g, s.blockOf[x], s.blockOf[u]))
  }

  lemma SameBlockOrder(s: Source, u: Value, v: Value)
    requires Proper(s) && IsCheck(s, u) && IsCheck(s, v) && u != v && s.blockOf[u] == s.blockOf[v]
    ensures StandsBefore(s.body, s.blockOf[u], u, v) || StandsBefore(s.body, s.blockOf[u], v, u)
  {
    var b := s.blockOf[u];
    var j :| InstDef(s.body, b, j, u);
    var k :| InstDef(s.body, b, k, v);
    assert j != k;
  }

  /** The order inside a block need not be tested: an equivalent check that stands earlier would have
      deleted `x` when it was visited. */
  lemma VictimsAreJustified(s: Source, gone: set<Value>, seen: set<Value>, redundant: seq<Value>, x: Value, u: Value)
    requires Proper(s) && Inv(s, gone, seen, redundant) && InTurn(s, gone, seen, x) && u in Victims(s, gone, x)
    ensures Justifies(s, x, u) && u !in seen
  {
    if s.blockOf[u] == s.blockOf[x] {
      SameBlockOrder(s, x, u);
      EquivalentSymmetric(s, x, u);
      assert u in seen ==> !Deletes(s, u, x);
    }
  }

  lemma JustifiedGrows(s: Source, gone: set<Value>, seen: set<Value>, redundant: seq<Value>, x: Value)
    requires Proper(s) && Inv(s, gone, seen, redundant) && InTurn(s, gone, seen, x)
    ensures AllJustified(s, gone + Victims(s, gone, x), seen + {x})
    ensures x !in gone && x !in seen && x !in Victims(s, gone, x)
    ensures forall v :: v in Victims(s, gone, x) ==> v !in seen && Justifies(s, x, v)
  {
    forall v | v in Victims(s, gone, x) ensures v !in seen && Justifies(s, x, v) {
      VictimsAreJustified(s, gone, seen, redundant, x, v);
    }
    hide Justifies, Proper;
  }

  lemma DoubledGrows(s: Source, gone: set<Value>, x: Value)
    requires NoneDoubled(s, gone) && !Fails(s, gone, x)
    ensures NoneDoubled(s, gone + Victims(s, gone, x))
  {
    forall u | u in Victims(s, gone, x) ensures |s.t[u]| > 0 && Uses(s.t[u], s.t[u][0]) == 1 {
      assert !Doubled(s, x, u);
    }
  }

  /** A visited check that the same block follows comes before the next one visited. */
  lemma SeenPrecedes(s: Source, gone: set<Value>, seen: set<Value>, x: Value, w: Value, u: Value)
    requires Proper(s) && SeenInOrder(s, gone, seen) && InTurn(s, gone, seen, x) && w in seen
    requires u in s.blockOf && w in s.blockOf && Near(s, w, u) && Near(s, x, u)
    ensures Precedes(s, w, x)
  {
    var a, b, c := s.blockOf[w], s.blockOf[x], s.blockOf[u];
    if a == b {
      SameBlockOrder(s, w, x);
    } else {
      DT.SelfDominates(s.g, c);
      hide Proper, Dominates, Reachable;
      DominatorsComparable(s.g, a, b, c);
    }
  }

  lemma CoveredGrows(s: Source, gone: set<Value>, seen: set<Value>, redundant: seq<Value>, x: Value)
    requires Proper(s) && Inv(s, gone, seen, redundant) && InTurn(s, gone, seen, x) && !Fails(s, gone, x)
    ensures SeenCovered(s, seen + {x})
  {
    forall u | WrongSubject(s, x, u) ensures Covered(s, x, u) {
      var w :| w in seen && w !in gone && Justifies(s, w, u);
      JustifiesDeletes(s, w, u);
      SeenPrecedes(s, gone, seen, x, w, u);
    }
  }

  lemma DeletedAll(s: Source, gone: set<Value>, seen: set<Value>, x: Value)
    requires NothingToDelete(s, gone, seen)
    ensures NothingToDelete(s, gone + Victims(s, gone, x), seen + {x})
  {
    hide Deletes;
  }

  /** One visit that does not fail keeps the invariant. */
  lemma VisitKeepsInv(s: Source, gone: set<Value>, seen: set<Value>, redundant: seq<Value>, x: Value)
    requires Proper(s) && Inv(s, gone, seen, redundant) && InTurn(s, gone, seen, x) && !Fails(s, gone, x)
    ensures Inv(s, gone + Victims(s, gone, x), seen + {x},
                if NeverFails(s, x) then redundant + [x] else redundant)
  {
    JustifiedGrows(s, gone, seen, redundant, x);
    DoubledGrows(s, gone, x);
    CoveredGrows(s, gone, seen, redundant, x);
    OrderGrows(s, gone, seen, Victims(s, gone, x), x);
    hide AllJustified, NothingToDelete, Pending, Proper, InTurn, Victims, NoneDoubled, SeenCovered, SeenInOrder;
    DeletedAll(s, gone, seen, x);
    PendingGrows(s, gone, Victims(s, gone, x), seen, redundant, x);
  }

  lemma OrderGrows(s: Source, gone: set<Value>, seen: set<Value>, more: set<Value>, x: Value)
    requires SeenInOrder(s, gone, seen) && InTurn(s, gone, seen, x)
    ensures SeenInOrder(s, gone + more, seen + {x})
  {
    forall v | IsCheck(s, v) && v !in gone && s.blockOf[v] == s.blockOf[x] && StandsBefore(s.body, s.blockOf[x], v, x)
      ensures v in seen + {x}
    {
      assert v != x ==> Precedes(s, v, x);
    }
    hide StandsBefore, Reachable;
  }

  lemma PendingGrows(s: Source, gone: set<Value>, more: set<Value>, seen: set<Value>, redundant: seq<Value>, x: Value)
    requires Pending(s, gone, seen, redundant) && x !in gone && x !in seen && x !in more
    requires forall v :: v in more ==> v !in seen
    ensures Pending(s, gone + more, seen + {x}, if NeverFails(s, x) then redundant + [x] else redundant)
  {
    hide NeverFails;
  }

  lemma StartKeepsInv(s: Source)
    ensures Inv(s, {}, {}, [])
  {}

  /** What is left at the end: every deleted check cannot fail, or is justified by a check that
      stays. */
  ghost predicate Eliminated(s: Source, gone: set<Value>) {
    forall u :: u in gone ==> IsCheck(s, u) && (NeverFails(s, u) || exists w :: w !in gone && Justifies(s, w, u))
  }

  lemma InvIsEliminated(s: Source, gone: set<Value>, seen: set<Value>, redundant: seq<Value>)
    requires AllJustified(s, gone, seen) && Pending(s, gone, seen, redundant)
    ensures Eliminated(s, gone + Elems(redundant))
  {
    var gone' := gone + Elems(redundant);
    forall u | u in gone' ensures IsCheck(s, u) && (NeverFails(s, u) || exists w :: w !in gone' && Justifies(s, w, u)) {
      if u in gone {
        var w :| w in seen && w !in gone && Justifies(s, w, u);
        if w in redundant {
          NeverFailsShared(s, w, u);
        }
      }
    }
  }

  // ---- Exactly when the pass fails -------------------------------------------------------------------

  /** What an equivalent check before `x` justifies has been taken away when `x` is visited. */
  lemma PrecedingIsSeen(s: Source, gone: set<Value>, seen: set<Value>, redundant: seq<Value>,
                        x: Value, u: Value, w: Value)
    requires Proper(s) && Inv(s, gone, seen, redundant) && InTurn(s, gone, seen, x)
    requires w != x && Justifies(s, w, u) && Precedes(s, w, x)
    ensures u in gone
  {
    var w' := w;
    if w in gone {
      w' :| w' in seen && w' !in gone && Justifies(s, w', w);
      JustifiesTransitive(s, w', w, u);
    }
    JustifiesDeletes(s, w', u);
    assert w' in seen && w' !in gone;
  }

  /** A visit that fails shows a clash in the program. */
  lemma FailureIsClash(s: Source, gone: set<Value>, seen: set<Value>, redundant: seq<Value>, x: Value)
    requires Proper(s) && Inv(s, gone, seen, redundant) && InTurn(s, gone, seen, x) && Fails(s, gone, x)
    ensures Clashing(s)
  {
    var u :| u !in gone && (WrongSubject(s, x, u) || Doubled(s, x, u));
    if WrongSubject(s, x, u) {
      if Covered(s, x, u) {
        var w :| Justifies(s, w, u) && Precedes(s, w, x);
        PrecedingIsSeen(s, gone, seen, redundant, x, u, w);
      }
    } else {
      VictimsAreJustified(s, gone, seen, redundant, x, u);
    }
  }

  lemma WrongSubjectUp(s: Source, x: Value, x': Value, u: Value)
    requires Proper(s) && WrongSubject(s, x, u) && Justifies(s, x', x) && Reachable(s.g, s.blockOf[x])
    ensures WrongSubject(s, x', u) && (Covered(s, x', u) ==> Covered(s, x, u))
  {
    if s.blockOf[x'] != s.blockOf[x] {
      DT.DominatesTransitive(s.g, s.blockOf[x'], s.blockOf[x], s.blockOf[u]);
    }
    if Covered(s, x', u) {
      var w :| Justifies(s, w, u) && Precedes(s, w, x');
      PrecedesTransitive(s, w, x', x);
    }
  }

  lemma NoWrongSubject(s: Source, gone: set<Value>, seen: set<Value>, redundant: seq<Value>, x: Value, u: Value)
    requires Proper(s) && Inv(s, gone, seen, redundant) && WrongSubject(s, x, u) && Reachable(s.g, s.blockOf[x])
    requires x !in gone ==> x in seen
    ensures Covered(s, x, u)
  {
    if x in gone {
      var x' :| x' in seen && x' !in gone && Justifies(s, x', x);
      WrongSubjectUp(s, x, x', u);
    }
  }

  lemma NoDoubled(s: Source, gone: set<Value>, seen: set<Value>, redundant: seq<Value>, x: Value, u: Value)
    requires Proper(s) && Inv(s, gone, seen, redundant) && Justifies(s, x, u)
    requires x !in gone ==> x in seen
    ensures !Doubled(s, x, u)
  {
    if u !in gone {
      var x' := x;
      if x in gone {
        x' :| x' in seen && x' !in gone && Justifies(s, x', x);
        JustifiesTransitive(s, x', x, u);
      }
      JustifiesDeletes(s, x', u);
      assert false;
    }
  }

  /** When all visits have gone through, there is no clash in the program. */
  lemma FinishedIsClear(s: Source, gone: set<Value>, seen: set<Value>, redundant: seq<Value>)
    requires Proper(s) && Inv(s, gone, seen, redundant)
    requires forall x :: IsCheck(s, x) && Reachable(s.g, s.blockOf[x]) && x !in gone ==> x in seen
    ensures !Clashing(s)
  {
    hide Proper, Inv, Reachable;
    forall x, u | IsCheck(s, x) && Reachable(s.g, s.blockOf[x])
      ensures !((WrongSubject(s, x, u) && !Covered(s, x, u)) || (Justifies(s, x, u) && Doubled(s, x, u)))
    {
      if WrongSubject(s, x, u) {
        NoWrongSubject(s, gone, seen, redundant, x, u);
      }
      if Justifies(s, x, u) {
        NoDoubled(s, gone, seen, redundant, x, u);
      }
    }
  }

  // ---- Failing inputs --------------------------------------------------------------------------------

  /** One block with three values and two size checks of them. */
  function TwoSizeChecks(a: seq<Value>, b: seq<Value>): Source {
    var values := [Inst(0, []), Inst(1, []), Inst(2, [])];
    Source([[]], [BasicBlock([], values + [Inst(3, a), Inst(4, b)])], map[0 := [], 1 := [], 2 := [], 3 := a, 4 := b],
           map[0 := Plain, 1 := Plain, 2 := Plain, 3 := Check(CHECK_SIZE), 4 := Check(CHECK_SIZE)],
           map[3 := START, 4 := START])
  }

  lemma TwoSizeIds(a: seq<Value>, b: seq<Value>)
    ensures UniqueIds(TwoSizeChecks(a, b).body)
  {
    var body := TwoSizeChecks(a, b).body;
    assert |body[0].insts| == 5 && forall k :: 0 <= k < 5 ==> body[0].insts[k].id == k;
  }

  lemma TwoSizeTable(a: seq<Value>, b: seq<Value>)
    requires |a| == |b| == 2 && a[0] < 3 && a[1] < 3 && b[0] < 3 && b[1] < 3
    ensures TableOf(TwoSizeChecks(a, b).body, TwoSizeChecks(a, b).t)
    ensures forall v, u :: v in TwoSizeChecks(a, b).t && u in TwoSizeChecks(a, b).t[v] ==> u < 3
  {
    var s := TwoSizeChecks(a, b);
    assert a == [a[0], a[1]] && b == [b[0], b[1]];
    assert s.t.Keys == {0, 1, 2, 3, 4};
    forall v, u | v in s.t && u in s.t[v] ensures u < 3 {}
    assert |s.body[0].insts| == 5;
  }

  lemma TwoSizeChecksProper(a: seq<Value>, b: seq<Value>)
    requires |a| == |b| == 2 && a[0] < 3 && a[1] < 3 && b[0] < 3 && b[1] < 3
    ensures var s := TwoSizeChecks(a, b);
      Proper(s) && IsCheck(s, 3) && IsCheck(s, 4) && Reachable(s.g, START) && StandsBefore(s.body, START, 3, 4)
  {
    var s := TwoSizeChecks(a, b);
    TwoSizeIds(a, b);
    TwoSizeTable(a, b);
    SinglePath(s.g, START);
    assert InstDef(s.body, START, 3, 3) && InstDef(s.body, START, 4, 4);
    hide UniqueIds, TableOf;
    assert s.attrs.Keys == s.t.Keys == {0, 1, 2, 3, 4};
  }

  /** The second check has the index of the first one for its subject. */
  lemma WrongSubjectExample()
    ensures Proper(TwoSizeChecks([0, 1], [1, 2])) && Clashing(TwoSizeChecks([0, 1], [1, 2]))
  {
    var s := TwoSizeChecks([0, 1], [1, 2]);
    TwoSizeChecksProper([0, 1], [1, 2]);
    assert WrongSubject(s, 4, 3);
    assert forall w :: IsCheck(s, w) ==> w == 3 || w == 4;
    assert !Covered(s, 4, 3);
  }

  /** A check of a value against itself, twice. */
  lemma DoubledExample()
    ensures Proper(TwoSizeChecks([0, 0], [0, 0])) && Clashing(TwoSizeChecks([0, 0], [0, 0]))
  {
    var s := TwoSizeChecks([0, 0], [0, 0]);
    TwoSizeChecksProper([0, 0], [0, 0]);
    assert Justifies(s, 3, 4);
    assert s.t[4] == [0, 0] && s.t[4][1..] == [0] && [0][1..] == [];
    assert Uses(s.t[4], 0) == 2;
    assert Doubled(s, 3, 4);
  }

  lemma TwoSizeTableAt(a: seq<Value>, b: seq<Value>)
    ensures var s := TwoSizeChecks(a, b);
      && 3 in s.t && 4 in s.t && s.t[3] == a && s.t[4] == b
      && forall x :: IsCheck(s, x) ==> x == 3 || x == 4
  {}

  /** One check of a value against itself, beside a check of other values, does no harm. */
  lemma SelfCheckExample()
    ensures Proper(TwoSizeChecks([0, 0], [1, 2])) && !Clashing(TwoSizeChecks([0, 0], [1, 2]))
  {
    var s := TwoSizeChecks([0, 0], [1, 2]);
    TwoSizeChecksProper([0, 0], [1, 2]);
    TwoSizeTableAt([0, 0], [1, 2]);
    hide Near, Precedes, Proper, Reachable, Uses, TwoSizeChecks, IsCheck;
    forall x, u ensures !WrongSubject(s, x, u) && !Justifies(s, x, u) {}
  }
}
