/** Check elimination preserves failure behaviour: on every run a check is deleted only if it cannot
    fail or if an equivalent check that stays has passed on the same operand values. */
module CheckSafety {
  import opened Cfg
  import opened Ssa
  import opened Execution
  import opened Editing
  import opened Thinning
  import opened Checks
  import opened Traversal
  import CE = CheckElimination
  import DT = DominatorTree

  // ---- Values stay until they are defined again ----------------------------------------------------

  ghost predicate NoDefIn(body: Code, b: Block, v: Value) {
    !PhiDef(body, b, v) && forall q :: !InstDef(body, b, q, v)
  }

  lemma {:induction false} StepsKeepValue(c: Program, s: Store<Value>, f: Semantics, insts: seq<Inst>, j: nat, k: nat,
                                          v: Value)
    requires j <= k <= |insts| && forall q :: j <= q < k ==> insts[q].id != v
    ensures Read(Steps(c, s, Id(), f, insts, k), v) == Read(Steps(c, s, Id(), f, insts, j), v)
    decreases k
  {
    if j < k {
      StepsKeepValue(c, s, f, insts, j, k - 1, v);
    }
  }

  lemma BlockKeepsValue(c: Program, s: Store<Value>, f: Semantics, b: Block, j: nat, k: nat, v: Value)
    requires b < |c.body| && j <= k <= |c.body[b].insts| && forall q :: j <= q ==> !InstDef(c.body, b, q, v)
    ensures Read(Steps(c, s, Id(), f, c.body[b].insts, k), v) == Read(Steps(c, s, Id(), f, c.body[b].insts, j), v)
  {
    forall q | j <= q < k ensures c.body[b].insts[q].id != v {
      assert !InstDef(c.body, b, q, v);
    }
    StepsKeepValue(c, s, f, c.body[b].insts, j, k, v);
  }

  lemma CrossKeepsValue(c: Program, st: Store<Value>, a: Block, b: Block, v: Value)
    requires b < |c.body| && !PhiDef(c.body, b, v)
    ensures Read(Cross(c, st, Id(), a, b), v) == Read(st, v)
  {
    var phis := c.body[b].phis;
    assert Untouched(Id(), phis, c.moved, 0, v);
    CopiesOther(st, st.vals, Id(), phis, a, c.moved, v);
  }

  lemma Prefix(g: Graph, p: seq<Block>, i: nat)
    requires IsPath(g, p) && i < |p|
    ensures IsPath(g, p[0..i + 1]) && |p[0..i + 1]| == i + 1 && p[0..i + 1][0] == p[0] && p[0..i + 1][i] == p[i]
  {
    PathSlice(g, p, 0, i + 1);
  }

  /** The store at the point before instruction `j` of the `i`-th block of the path. */
  ghost function Point(c: Program, f: Semantics, p: seq<Block>, i: nat, j: nat): Store<Value>
    requires InProgram(c, p) && i < |p| && j <= |c.body[p[i]].insts|
  {
    Prefix(c.g, p, i);
    At(c, Id(), f, p[0..i + 1], j)
  }

  lemma {:induction false} EnterKeepsValue(c: Program, f: Semantics, p: seq<Block>, i: nat, v: Value)
    requires InProgram(c, p) && i < |p| - 1 && forall x :: i < x < |p| ==> NoDefIn(c.body, p[x], v)
    ensures Read(Enter(c, Id(), f, p), v) == Read(Point(c, f, p, i, |c.body[p[i]].insts|), v)
    decreases |p|
  {
    PathSlice(c.g, p, 0, |p| - 1);
    var q := p[0..|p| - 1];
    EnterStep(c, Id(), f, p, q);
    var a := q[|q| - 1];
    CrossKeepsValue(c, End(c, Id(), f, q), a, p[|p| - 1], v);
    if i < |p| - 2 {
      EnterKeepsValue(c, f, q, i, v);
      assert q[0..i + 1] == p[0..i + 1];
      BlockKeepsValue(c, Enter(c, Id(), f, q), f, a, 0, |c.body[a].insts|, v);
    }
  }

  /** A value read at the end of the path is the one that stood at an earlier point after which its
      definition was not executed. */
  lemma ValueKept(c: Program, f: Semantics, p: seq<Block>, i: nat, j: nat, k: nat, v: Value)
    requires InProgram(c, p) && i < |p| && j <= |c.body[p[i]].insts| && k <= |c.body[p[|p| - 1]].insts|
    requires i == |p| - 1 ==> j <= k
    requires forall q :: j <= q ==> !InstDef(c.body, p[i], q, v)
    requires forall x :: i < x < |p| ==> NoDefIn(c.body, p[x], v)
    ensures Read(At(c, Id(), f, p, k), v) == Read(Point(c, f, p, i, j), v)
  {
    Prefix(c.g, p, i);
    var q := p[0..i + 1];
    if i == |p| - 1 {
      assert q == p;
      BlockKeepsValue(c, Enter(c, Id(), f, p), f, p[i], j, k, v);
    } else {
      BlockKeepsValue(c, Enter(c, Id(), f, q), f, p[i], j, |c.body[p[i]].insts|, v);
      EnterKeepsValue(c, f, p, i, v);
      BlockKeepsValue(c, Enter(c, Id(), f, p), f, p[|p| - 1], 0, k, v);
    }
  }

  /** After the last visit of `a` a block that dominates `a` is not visited any more before a block
      that `a` dominates. */
  lemma NotVisitedAgain(g: Graph, p: seq<Block>, i: nat, d: Block)
    requires IsPath(g, p) && p[0] == START && i < |p| && p[i] !in p[i + 1..]
    requires Dominates(g, p[i], p[|p| - 1]) && Dominates(g, d, p[i])
    ensures d !in p[i + 1..]
  {
    var a, b := p[i], p[|p| - 1];
    if d in p[i + 1..] {
      var x :| 0 <= x < |p[i + 1..]| && p[i + 1..][x] == d;
      var y := i + 1 + x;
      PathSlice(g, p, 0, y + 1);
      PathSlice(g, p, y, |p|);
      assert p[y] == d;
      if Dominates(g, a, d) {
        DT.DominanceAntisymmetric(g, d, a, p[0..y + 1]);
      } else {
        var q :| PathFromTo(g, q, START, d) && a !in q;
        assert forall z :: z in p[y..|p|] ==> z in p[i + 1..];
        PathConcat(g, q, p[y..|p|]);
      }
    }
  }

  // ---- Operands ------------------------------------------------------------------------------------

  /** The program that the source describes.  Passing checks are not observable, constants are
      instructions that compute their value. */
  ghost predicate Runs(s: Source, c: Program, f: Semantics) {
    && Proper(s) && c.g == s.g && c.body == s.body && StrictSsa(s.g, s.body) && PhisComplete(s.g, s.body)
    && (forall v :: IsCheck(s, v) ==> v in c.noUse && v !in c.effects)
    && (forall v :: v in s.attrs && s.attrs[v].Const? ==> v !in c.noUse && forall b :: !PhiDef(s.body, b, v))
    && (forall v, trace, ops :: v in s.attrs && s.attrs[v].Const? ==> f(trace, v, ops) == s.attrs[v].raw)
  }

  /** The definition of an operand of the instruction at `b`, `j`, and what SSA says about it. */
  ghost predicate Operand(s: Source, b: Block, j: nat, v: Value, d: Block, m: nat, isPhi: bool) {
    && DefinedAt(s.body, v, d, m, isPhi) && Dominates(s.g, d, b) && (d == b && !isPhi ==> m < j)
  }

  lemma OperandDef(s: Source, b: Block, j: nat, v: Value) returns (d: Block, m: nat, isPhi: bool)
    requires StrictSsa(s.g, s.body) && InstUse(s.body, b, j, v)
    ensures Operand(s, b, j, v, d, m, isPhi)
  {
    assert Used(s.g, s.body, v);
    d, m, isPhi :| DefinedAt(s.body, v, d, m, isPhi) && UsesDominated(s.g, s.body, v, d, m, isPhi);
  }

  lemma NoDefAfter(s: Source, p: seq<Block>, i: nat, v: Value, d: Block, m: nat, isPhi: bool)
    requires DefinedAt(s.body, v, d, m, isPhi) && i < |p| && d !in p[i + 1..]
    ensures forall x :: i < x < |p| ==> NoDefIn(s.body, p[x], v)
  {
    forall x | i < x < |p| ensures p[x] != d {
      assert p[i + 1..][x - i - 1] == p[x];
    }
  }

  /** An operand that was read at the last visit of a dominating block is read again unchanged. */
  lemma SameOperand(s: Source, c: Program, f: Semantics, p: seq<Block>, i: nat, j: nat, k: nat, v: Value)
    requires Runs(s, c, f) && InProgram(c, p) && p[0] == START && i < |p| && p[i] !in p[i + 1..]
    requires Dominates(c.g, p[i], p[|p| - 1]) && InstUse(c.body, p[i], j, v)
    requires k <= |c.body[p[|p| - 1]].insts| && (i == |p| - 1 ==> j <= k)
    ensures Read(At(c, Id(), f, p, k), v) == Read(Point(c, f, p, i, j), v)
  {
    var d, m, isPhi := OperandDef(s, p[i], j, v);
    NotVisitedAgain(c.g, p, i, d);
    NoDefAfter(s, p, i, v, d, m, isPhi);
    ValueKept(c, f, p, i, j, k, v);
  }

  /** Where a constant is an operand it has its value. */
  lemma ConstOperand(s: Source, c: Program, f: Semantics, p: seq<Block>, k: nat, v: Value)
    requires Runs(s, c, f) && InProgram(c, p) && p[0] == START && v in s.attrs && s.attrs[v].Const?
    requires InstUse(c.body, p[|p| - 1], k, v)
    ensures Read(At(c, Id(), f, p, k), v) == s.attrs[v].raw
  {
    var b := p[|p| - 1];
    var d, m, isPhi := OperandDef(s, b, k, v);
    assert !PhiDef(s.body, d, v);
    assert PathFromTo(c.g, p, START, b);
    var i := LastVisit(p, d);
    Prefix(c.g, p, i);
    NoDefAfter(s, p, i, v, d, m, isPhi);
    assert InstDef(c.body, d, m, v);
    ConstComputed(s, c, f, p, i, m, v);
    forall q | m + 1 <= q ensures !InstDef(c.body, p[i], q, v) {}
    ValueKept(c, f, p, i, m + 1, k, v);
  }

  lemma ConstComputed(s: Source, c: Program, f: Semantics, p: seq<Block>, i: nat, m: nat, v: Value)
    requires Runs(s, c, f) && InProgram(c, p) && i < |p| && v in s.attrs && s.attrs[v].Const?
    requires InstDef(c.body, p[i], m, v)
    ensures Read(Point(c, f, p, i, m + 1), v) == s.attrs[v].raw
  {
    Prefix(c.g, p, i);
    var q := p[0..i + 1];
    var st := Steps(c, Enter(c, Id(), f, q), Id(), f, c.body[p[i]].insts, m);
    assert Point(c, f, p, i, m + 1) == Step(c, st, Id(), f, c.body[p[i]].insts[m]);
  }

  lemma {:induction false} EqualOperands(st: Store<Value>, st': Store<Value>, ins: seq<Value>, ins': seq<Value>)
    requires |ins| == |ins'| && forall o :: 0 <= o < |ins| ==> Read(st, ins[o]) == Read(st', ins'[o])
    ensures Operands(st, Id(), ins) == Operands(st', Id(), ins')
    decreases |ins|
  {
    if ins != [] {
      forall o | 0 <= o < |ins| - 1 ensures Read(st, ins[1..][o]) == Read(st', ins'[1..][o]) {
        assert ins[1..][o] == ins[o + 1] && ins'[1..][o] == ins'[o + 1];
      }
      EqualOperands(st, st', ins[1..], ins'[1..]);
    }
  }

  /** The operand values of the instruction at a point of the path. */
  ghost function OperandsAt(c: Program, f: Semantics, p: seq<Block>, i: nat, j: nat): seq<int>
    requires InProgram(c, p) && i < |p| && j < |c.body[p[i]].insts|
  {
    Operands(Point(c, f, p, i, j), Id(), c.body[p[i]].insts[j].inputs)
  }

  /** Point `i`, `j` of the path comes before point `k` of its last block. */
  predicate Earlier(p: seq<Block>, i: nat, j: nat, k: nat) {
    i < |p| && (i < |p| - 1 || j < k)
  }

  lemma SamePosition(s: Source, u: Value, v: Value, j: nat, k: nat)
    requires Proper(s) && IsCheck(s, u) && IsCheck(s, v) && Precedes(s, u, v) && s.blockOf[u] == s.blockOf[v]
    requires InstDef(s.body, s.blockOf[u], j, u) && InstDef(s.body, s.blockOf[v], k, v)
    ensures j < k
  {}

  /** Where the justifying check was executed last: in the same visit of the block, or at the last
      visit of its block. */
  lemma LastExecution(s: Source, c: Program, p: seq<Block>, k: nat, w: Value, v: Value) returns (i: nat, j: nat)
    requires Proper(s) && c.g == s.g && c.body == s.body && InProgram(c, p) && p[0] == START
    requires Justifies(s, w, v) && s.blockOf[v] == p[|p| - 1] && InstDef(c.body, p[|p| - 1], k, v)
    ensures Earlier(p, i, j, k) && p[i] == s.blockOf[w] && InstDef(c.body, p[i], j, w)
    ensures p[i] !in p[i + 1..] && Dominates(c.g, p[i], p[|p| - 1])
  {
    var a, b := s.blockOf[w], s.blockOf[v];
    j :| InstDef(s.body, a, j, w);
    if a == b {
      i := |p| - 1;
      SamePosition(s, w, v, j, k);
      DT.SelfDominates(c.g, b);
    } else {
      assert PathFromTo(c.g, p, START, b);
      i := LastVisit(p, a);
    }
  }

  lemma InputAt(s: Source, b: Block, j: nat, v: Value, o: nat)
    requires Proper(s) && IsCheck(s, v) && InstDef(s.body, b, j, v) && o < |s.t[v]|
    ensures s.body[b].insts[j].inputs == s.t[v] && InstUse(s.body, b, j, s.t[v][o])
  {
    assert s.t[v][o] in s.t[v];
  }

  /** Before a justified check is executed, the justifying check has been executed on the same operand
      values. */
  lemma JustifiedOnSameValues(s: Source, c: Program, f: Semantics, p: seq<Block>, k: nat, w: Value, v: Value)
    returns (i: nat, j: nat)
    requires Runs(s, c, f) && InProgram(c, p) && p[0] == START
    requires Justifies(s, w, v) && s.blockOf[v] == p[|p| - 1] && InstDef(c.body, p[|p| - 1], k, v)
    ensures Earlier(p, i, j, k) && p[i] == s.blockOf[w] && InstDef(c.body, p[i], j, w)
    ensures OperandsAt(c, f, p, i, j) == Operands(At(c, Id(), f, p, k), Id(), s.t[v])
  {
    i, j := LastExecution(s, c, p, k, w, v);
    Prefix(c.g, p, i);
    forall o | 0 <= o < |s.t[w]|
      ensures Read(Point(c, f, p, i, j), s.t[w][o]) == Read(At(c, Id(), f, p, k), s.t[v][o])
    {
      InputAt(s, p[i], j, w, o);
      InputAt(s, p[|p| - 1], k, v, o);
      hide Proper, Point, At, InstUse, IsCheck;
      OperandOfBoth(s, c, f, p, i, j, k, w, v, o);
    }
    CheckInputs(s, p[i], j, w);
    hide Proper, At, Operands;
    EqualOperands(Point(c, f, p, i, j), At(c, Id(), f, p, k), s.t[w], s.t[v]);
  }

  lemma CheckInputs(s: Source, b: Block, j: nat, w: Value)
    requires Proper(s) && IsCheck(s, w) && InstDef(s.body, b, j, w)
    ensures s.body[b].insts[j].inputs == s.t[w]
  {}

  lemma OperandOfBoth(s: Source, c: Program, f: Semantics, p: seq<Block>, i: nat, j: nat, k: nat, w: Value, v: Value,
                      o: nat)
    requires Runs(s, c, f) && InProgram(c, p) && p[0] == START && Equivalent(s, w, v) && o < |s.t[w]|
    requires i < |p| && p[i] !in p[i + 1..] && Dominates(c.g, p[i], p[|p| - 1]) && (i == |p| - 1 ==> j <= k)
    requires InstUse(c.body, p[i], j, s.t[w][o]) && InstUse(c.body, p[|p| - 1], k, s.t[v][o])
    ensures Read(Point(c, f, p, i, j), s.t[w][o]) == Read(At(c, Id(), f, p, k), s.t[v][o])
  {
    assert AreSameOrSameVal(s, s.t[w][o], s.t[v][o]);
    Prefix(c.g, p, i);
    if s.t[w][o] == s.t[v][o] {
      SameOperand(s, c, f, p, i, j, k, s.t[v][o]);
    } else {
      ConstOperand(s, c, f, p[0..i + 1], j, s.t[w][o]);
      ConstOperand(s, c, f, p, k, s.t[v][o]);
    }
  }

  // ---- Failing ---------------------------------------------------------------------------------------

  /** The check at the point, if there is one that is not in `gone`, passes. */
  ghost predicate PassesAt(s: Source, c: Program, f: Semantics, sizeOk: SizeTest, p: seq<Block>, i: nat, j: nat,
                           gone: set<Value>)
    requires InProgram(c, p) && i < |p| && j < |c.body[p[i]].insts|
  {
    var v := c.body[p[i]].insts[j].id;
    IsCheck(s, v) && v !in gone ==> Passes(s.attrs[v].kind, OperandsAt(c, f, p, i, j), sizeOk)
  }

  /** No check outside `gone` fails before instruction `k` of the last block of the path. */
  ghost predicate FailFree(s: Source, c: Program, f: Semantics, sizeOk: SizeTest, p: seq<Block>, k: nat,
                           gone: set<Value>)
    requires InProgram(c, p)
  {
    forall i: nat, j: nat :: Earlier(p, i, j, k) && j < |c.body[p[i]].insts| ==>
      PassesAt(s, c, f, sizeOk, p, i, j, gone)
  }

  lemma NonZeroPasses(s: Source, c: Program, f: Semantics, sizeOk: SizeTest, p: seq<Block>, k: nat, v: Value)
    requires Runs(s, c, f) && InProgram(c, p) && p[0] == START && NeverFails(s, v)
    requires InstDef(c.body, p[|p| - 1], k, v)
    ensures Passes(s.attrs[v].kind, Operands(At(c, Id(), f, p, k), Id(), s.t[v]), sizeOk)
  {
    InputAt(s, p[|p| - 1], k, v, 0);
    ConstOperand(s, c, f, p, k, s.t[v][0]);
    assert |s.t[v]| == 1 && s.t[v][1..] == [];
    assert s.t[v] == [s.t[v][0]];
    hide At, Proper;
    var st := At(c, Id(), f, p, k);
    assert Operands(st, Id(), s.t[v]) == [Read(st, s.t[v][0])] + Operands(st, Id(), []);
  }

  lemma CheckPlace(s: Source, b: Block, k: nat, v: Value)
    requires Proper(s) && IsCheck(s, v) && InstDef(s.body, b, k, v)
    ensures s.blockOf[v] == b
  {
    assert InBlock(s.body[b], v);
    CE.CheckBlock(s, v, b);
  }

  /** A deleted check does not fail on any run on which the checks that stay have passed so far. */
  lemma DeletedPass(s: Source, c: Program, f: Semantics, sizeOk: SizeTest, p: seq<Block>, k: nat, gone: set<Value>,
                    v: Value)
    requires Runs(s, c, f) && InProgram(c, p) && p[0] == START && Eliminated(s, gone)
    requires InstDef(c.body, p[|p| - 1], k, v) && v in gone && FailFree(s, c, f, sizeOk, p, k, gone)
    ensures IsCheck(s, v) && Passes(s.attrs[v].kind, Operands(At(c, Id(), f, p, k), Id(), s.t[v]), sizeOk)
  {
    CheckPlace(s, p[|p| - 1], k, v);
    if NeverFails(s, v) {
      NonZeroPasses(s, c, f, sizeOk, p, k, v);
    } else {
      var w :| w !in gone && Justifies(s, w, v);
      var i, j := JustifiedOnSameValues(s, c, f, p, k, w, v);
      hide Runs, Proper, Point, At, Passes, Operands;
      assert PassesAt(s, c, f, sizeOk, p, i, j, gone);
    }
  }

  lemma PrefixPoint(c: Program, f: Semantics, p: seq<Block>, i: nat, x: nat, j: nat)
    requires InProgram(c, p) && x <= i < |p| && j < |c.body[p[x]].insts|
    ensures InProgram(c, p[0..i + 1]) && OperandsAt(c, f, p[0..i + 1], x, j) == OperandsAt(c, f, p, x, j)
  {
    Prefix(c.g, p, i);
    assert p[0..i + 1][0..x + 1] == p[0..x + 1];
  }

  lemma FailFreePrefix(s: Source, c: Program, f: Semantics, sizeOk: SizeTest, p: seq<Block>, k: nat, gone: set<Value>,
                       i: nat, j: nat)
    requires InProgram(c, p) && FailFree(s, c, f, sizeOk, p, k, gone) && Earlier(p, i, j, k)
    ensures InProgram(c, p[0..i + 1]) && FailFree(s, c, f, sizeOk, p[0..i + 1], j, gone)
  {
    Prefix(c.g, p, i);
    var q := p[0..i + 1];
    forall x: nat, y: nat | Earlier(q, x, y, j) && y < |c.body[q[x]].insts|
      ensures PassesAt(s, c, f, sizeOk, q, x, y, gone)
    {
      PrefixPoint(c, f, p, i, x, y);
      assert PassesAt(s, c, f, sizeOk, p, x, y, gone);
    }
  }

  /** As far as the checks that stay pass, all checks pass. */
  lemma FailFreeIff(s: Source, c: Program, f: Semantics, sizeOk: SizeTest, p: seq<Block>, k: nat, gone: set<Value>)
    requires Runs(s, c, f) && InProgram(c, p) && p[0] == START && Eliminated(s, gone)
    ensures FailFree(s, c, f, sizeOk, p, k, gone) <==> FailFree(s, c, f, sizeOk, p, k, {})
  {
    if FailFree(s, c, f, sizeOk, p, k, gone) {
      forall i: nat, j: nat | Earlier(p, i, j, k) && j < |c.body[p[i]].insts|
        ensures PassesAt(s, c, f, sizeOk, p, i, j, {})
      {
        PointPasses(s, c, f, sizeOk, p, k, gone, i, j);
      }
    }
    if FailFree(s, c, f, sizeOk, p, k, {}) {
      forall i: nat, j: nat | Earlier(p, i, j, k) && j < |c.body[p[i]].insts|
        ensures PassesAt(s, c, f, sizeOk, p, i, j, gone)
      {
        assert PassesAt(s, c, f, sizeOk, p, i, j, {});
      }
    }
  }

  lemma PointPasses(s: Source, c: Program, f: Semantics, sizeOk: SizeTest, p: seq<Block>, k: nat, gone: set<Value>,
                    i: nat, j: nat)
    requires Runs(s, c, f) && InProgram(c, p) && p[0] == START && Eliminated(s, gone)
    requires FailFree(s, c, f, sizeOk, p, k, gone) && Earlier(p, i, j, k) && j < |c.body[p[i]].insts|
    ensures PassesAt(s, c, f, sizeOk, p, i, j, {})
  {
    var v := c.body[p[i]].insts[j].id;
    assert PassesAt(s, c, f, sizeOk, p, i, j, gone);
    FailFreePrefix(s, c, f, sizeOk, p, k, gone, i, j);
    Prefix(c.g, p, i);
    assert InstDef(c.body, p[i], j, v);
    if IsCheck(s, v) && v in gone {
      DeletedPass(s, c, f, sizeOk, p[0..i + 1], j, gone, v);
      CheckInputs(s, p[i], j, v);
    }
  }

  // ---- Before and after the pass -----------------------------------------------------------------------

  /** The program that the pass leaves. */
  function Cleaned(c: Program, gone: set<Value>): Program {
    c.(body := CE.DropAll(c.body, gone))
  }

  function Stay(s: Source, gone: set<Value>): set<Value> {
    s.t.Keys - gone
  }

  lemma DroppedIsKept(s: Source, gone: set<Value>)
    requires Proper(s)
    ensures CE.DropAll(s.body, gone) == Swept(s.body, All(s.g), Stay(s, gone))
  {
    forall b | 0 <= b < |s.body| ensures Drop(s.body[b], gone) == KeepIn(s.body[b], Stay(s, gone)) {
      DropInstsDead(s.body[b].insts, gone, Stay(s, gone));
      DropPhisDead(s.body[b].phis, gone, Stay(s, gone));
    }
    assert forall b :: 0 <= b < |s.body| ==> s.g[b] == s.g[b] && b in All(s.g);
  }

  lemma OperandsStay(s: Source, gone: set<Value>, v: Value, u: Value)
    requires Proper(s) && Eliminated(s, gone) && v in s.t && u in s.t[v]
    ensures u in Stay(s, gone)
  {}

  lemma CleanedThins(s: Source, c: Program, f: Semantics, gone: set<Value>)
    requires Runs(s, c, f) && Eliminated(s, gone)
    ensures Thinned(c, Cleaned(c, gone), All(c.g), Stay(s, gone))
  {
    DroppedIsKept(s, gone);
    var keep := Stay(s, gone);
    forall b: Block | b < |c.g| ensures InstsClosed(c.body[b].insts, keep, c.effects) {
      forall k | 0 <= k < |c.body[b].insts|
        ensures forall u :: u in c.body[b].insts[k].inputs ==> u in keep
        ensures c.body[b].insts[k].id in c.effects ==> c.body[b].insts[k].id in keep
      {
        var x := c.body[b].insts[k];
        forall u | u in x.inputs ensures u in keep {
          OperandsStay(s, gone, x.id, u);
        }
      }
    }
    forall a: Block, b: Block | Edge(c.g, a, b) && b < |c.g| ensures PhisClosed(c.body[b].phis, a, keep) {
      PhisStay(s, c, f, gone, a, b);
    }
    assert forall b: Block :: b < |c.g| ==> c.g[b] == c.g[b] && b in All(c.g);
  }

  lemma PhisStay(s: Source, c: Program, f: Semantics, gone: set<Value>, a: Block, b: Block)
    requires Runs(s, c, f) && Eliminated(s, gone) && Edge(c.g, a, b) && b < |c.g|
    ensures PhisClosed(c.body[b].phis, a, Stay(s, gone))
  {
    var phis := c.body[b].phis;
    forall q | 0 <= q < |phis| ensures SourceOf(phis[q].inputs, a) in Stay(s, gone) {
      assert HasSource(phis[q].inputs, a);
      var k :| 0 <= k < |phis[q].inputs| && phis[q].inputs[k] == PhiInput(SourceOf(phis[q].inputs, a), a);
      assert s.t[phis[q].id][k] in s.t[phis[q].id];
      OperandsStay(s, gone, phis[q].id, s.t[phis[q].id][k]);
    }
  }

  /** The position, in the block that is left, of what stands at position `q`. */
  ghost function NewPosition(s: Source, c: Program, gone: set<Value>, b: Block, q: nat): nat
    requires b < |c.body| && q <= |c.body[b].insts|
  {
    |Kept(c.body[b].insts[..q], Stay(s, gone))|
  }

  /** A check that stays reads the same operand values in both programs. */
  lemma SameCheck(s: Source, c: Program, f: Semantics, p: seq<Block>, gone: set<Value>, i: nat, q: nat)
    requires Runs(s, c, f) && InProgram(c, p) && p[0] == START && Eliminated(s, gone)
    requires i < |p| && q < |c.body[p[i]].insts| && c.body[p[i]].insts[q].id in Stay(s, gone)
    ensures var d, j := Cleaned(c, gone), NewPosition(s, c, gone, p[i], q);
      && InProgram(d, p) && j < |d.body[p[i]].insts| && d.body[p[i]].insts[j] == c.body[p[i]].insts[q]
      && OperandsAt(d, f, p, i, j) == OperandsAt(c, f, p, i, q)
  {
    var d, keep := Cleaned(c, gone), Stay(s, gone);
    CleanedThins(s, c, f, gone);
    Prefix(c.g, p, i);
    var x := c.body[p[i]].insts[q];
    forall u | u in x.inputs ensures u in keep {
      OperandsStay(s, gone, x.id, u);
    }
    hide Runs, Eliminated, Stay, Thinned, Same, At;
    PointSame(c, d, All(c.g), keep, f, p[0..i + 1], q);
    KeptAt(c.body[p[i]].insts, keep, q, |c.body[p[i]].insts|);
    var j := NewPosition(s, c, gone, p[i], q);
    SameOperands(keep, Point(c, f, p, i, q), Point(d, f, p, i, j), x.inputs);
  }

  lemma CleanedFailFree(s: Source, c: Program, f: Semantics, sizeOk: SizeTest, p: seq<Block>, k: nat, gone: set<Value>)
    requires Runs(s, c, f) && InProgram(c, p) && InProgram(Cleaned(c, gone), p) && p[0] == START
    requires Eliminated(s, gone) && k <= |c.body[p[|p| - 1]].insts|
    requires FailFree(s, c, f, sizeOk, p, k, gone)
    ensures FailFree(s, Cleaned(c, gone), f, sizeOk, p, NewPosition(s, c, gone, p[|p| - 1], k), {})
  {
    var d := Cleaned(c, gone);
    var k' := NewPosition(s, c, gone, p[|p| - 1], k);
    hide Runs, Eliminated, Stay, Kept, FailFree, PassesAt, InProgram, NewPosition;
    forall i: nat, j: nat | Earlier(p, i, j, k') && j < |d.body[p[i]].insts|
      ensures PassesAt(s, d, f, sizeOk, p, i, j, {})
    {
      CleanedPasses(s, c, f, sizeOk, p, k, gone, i, j);
    }
    CleanedFree(s, d, f, sizeOk, p, k');
  }

  lemma CleanedFree(s: Source, d: Program, f: Semantics, sizeOk: SizeTest, p: seq<Block>, k: nat)
    requires InProgram(d, p)
    requires forall i: nat, j: nat :: Earlier(p, i, j, k) && j < |d.body[p[i]].insts| ==>
               PassesAt(s, d, f, sizeOk, p, i, j, {})
    ensures FailFree(s, d, f, sizeOk, p, k, {})
  {
    hide PassesAt;
  }

  lemma CleanedPasses(s: Source, c: Program, f: Semantics, sizeOk: SizeTest, p: seq<Block>, k: nat, gone: set<Value>,
                      i: nat, j: nat)
    requires Runs(s, c, f) && InProgram(c, p) && InProgram(Cleaned(c, gone), p) && p[0] == START
    requires Eliminated(s, gone) && k <= |c.body[p[|p| - 1]].insts|
    requires FailFree(s, c, f, sizeOk, p, k, gone)
    requires Earlier(p, i, j, NewPosition(s, c, gone, p[|p| - 1], k)) && j < |Cleaned(c, gone).body[p[i]].insts|
    ensures PassesAt(s, Cleaned(c, gone), f, sizeOk, p, i, j, {})
  {
    hide Runs, Eliminated, Stay, Kept, FailFree, OperandsAt;
    var q := WhereFrom(s, c, f, p, k, gone, i, j);
    SameCheck(s, c, f, p, gone, i, q);
    EarlierPasses(s, c, f, sizeOk, p, k, gone, i, q);
    StaysNotGone(s, gone, c.body[p[i]].insts[q].id);
  }

  lemma EarlierPasses(s: Source, c: Program, f: Semantics, sizeOk: SizeTest, p: seq<Block>, k: nat, gone: set<Value>,
                      i: nat, q: nat)
    requires InProgram(c, p) && FailFree(s, c, f, sizeOk, p, k, gone)
    requires Earlier(p, i, q, k) && q < |c.body[p[i]].insts|
    ensures PassesAt(s, c, f, sizeOk, p, i, q, gone)
  {
    hide PassesAt;
  }

  /** Where the instruction at position `j` of the block that is left stood before. */
  lemma WhereFrom(s: Source, c: Program, f: Semantics, p: seq<Block>, k: nat, gone: set<Value>, i: nat, j: nat)
    returns (q: nat)
    requires Runs(s, c, f) && InProgram(c, p) && InProgram(Cleaned(c, gone), p) && k <= |c.body[p[|p| - 1]].insts|
    requires Earlier(p, i, j, NewPosition(s, c, gone, p[|p| - 1], k)) && j < |Cleaned(c, gone).body[p[i]].insts|
    ensures q < |c.body[p[i]].insts| && Earlier(p, i, q, k) && NewPosition(s, c, gone, p[i], q) == j
    ensures c.body[p[i]].insts[q].id in Stay(s, gone)
  {
    var keep, insts := Stay(s, gone), c.body[p[i]].insts;
    BlockLeft(s, c, f, gone, p[i]);
    hide Runs, Stay, Kept;
    q := KeptIndex(insts, keep, j);
    if i == |p| - 1 && q >= k {
      KeptMonotone(insts, keep, k, q);
    }
  }

  lemma StaysNotGone(s: Source, gone: set<Value>, v: Value)
    requires v in Stay(s, gone)
    ensures v !in gone
  {}

  lemma KeptMonotone(insts: seq<Inst>, keep: set<Value>, k: nat, q: nat)
    requires k <= q <= |insts|
    ensures |Kept(insts[..k], keep)| <= |Kept(insts[..q], keep)|
  {
    assert insts[..q][..k] == insts[..k];
    KeptPrefix(insts[..q], keep, k);
  }

  lemma BlockLeft(s: Source, c: Program, f: Semantics, gone: set<Value>, b: Block)
    requires Runs(s, c, f) && b < |c.body|
    ensures Cleaned(c, gone).body[b].insts == Kept(c.body[b].insts, Stay(s, gone))
  {
    DroppedIsKept(s, gone);
    assert s.g[b] == s.g[b] && b in All(s.g);
  }

  lemma OriginalFailFree(s: Source, c: Program, f: Semantics, sizeOk: SizeTest, p: seq<Block>, k: nat, gone: set<Value>)
    requires Runs(s, c, f) && InProgram(c, p) && InProgram(Cleaned(c, gone), p) && p[0] == START
    requires Eliminated(s, gone) && k <= |c.body[p[|p| - 1]].insts|
    requires FailFree(s, Cleaned(c, gone), f, sizeOk, p, NewPosition(s, c, gone, p[|p| - 1], k), {})
    ensures FailFree(s, c, f, sizeOk, p, k, gone)
  {
    var d, keep := Cleaned(c, gone), Stay(s, gone);
    var k' := NewPosition(s, c, gone, p[|p| - 1], k);
    forall i: nat, q: nat | Earlier(p, i, q, k) && q < |c.body[p[i]].insts|
      ensures PassesAt(s, c, f, sizeOk, p, i, q, gone)
    {
      var insts := c.body[p[i]].insts;
      var v := insts[q].id;
      InTable(s, p[i], q);
      if v !in gone {
        SameCheck(s, c, f, p, gone, i, q);
        var j := NewPosition(s, c, gone, p[i], q);
        if i == |p| - 1 {
          KeptAt(insts, keep, q, k);
        }
        hide Runs, Eliminated, Kept;
        assert PassesAt(s, d, f, sizeOk, p, i, j, {});
      }
    }
  }

  lemma InTable(s: Source, b: Block, q: nat)
    requires Proper(s) && b < |s.body| && q < |s.body[b].insts|
    ensures s.body[b].insts[q].id in s.t
  {}

  /** Check elimination preserves failure behaviour: on every path, up to any point, a check fails in
      the original program if and only if one fails in the program that is left. */
  lemma FailuresPreserved(s: Source, c: Program, f: Semantics, sizeOk: SizeTest, p: seq<Block>, k: nat,
                          gone: set<Value>)
    requires Runs(s, c, f) && Eliminated(s, gone) && InProgram(c, p) && InProgram(Cleaned(c, gone), p)
    requires p[0] == START && k <= |c.body[p[|p| - 1]].insts|
    ensures FailFree(s, c, f, sizeOk, p, k, {})
       <==> FailFree(s, Cleaned(c, gone), f, sizeOk, p, NewPosition(s, c, gone, p[|p| - 1], k), {})
  {
    var k' := NewPosition(s, c, gone, p[|p| - 1], k);
    hide *;
    FailFreeIff(s, c, f, sizeOk, p, k, gone);
    if FailFree(s, c, f, sizeOk, p, k, gone) {
      CleanedFailFree(s, c, f, sizeOk, p, k, gone);
    }
    if FailFree(s, Cleaned(c, gone), f, sizeOk, p, k', {}) {
      OriginalFailFree(s, c, f, sizeOk, p, k, gone);
    }
  }

  /** Apart from the checks, the program that is left runs as before: the same path, the same events,
      the same values. */
  lemma RunsUnchanged(s: Source, c: Program, f: Semantics, choose: Control, p: seq<Block>, gone: set<Value>)
    requires Runs(s, c, f) && Eliminated(s, gone)
    ensures Taken(c, f, choose, p) <==> Taken(Cleaned(c, gone), f, choose, p)
    ensures Taken(c, f, choose, p) ==> Same(Stay(s, gone), End(c, Id(), f, p), End(Cleaned(c, gone), Id(), f, p))
  {
    CleanedThins(s, c, f, gone);
    RunsPreserved(c, Cleaned(c, gone), All(c.g), Stay(s, gone), f, choose, p);
  }
}
