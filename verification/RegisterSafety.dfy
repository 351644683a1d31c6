/** What the linear-scan allocator guarantees, for every sorted input and every number of
    registers. */
module RegisterSafety {
  import opened Ranges
  import opened LinearScan

  function End(rs: Input, a: nat): nat
    requires a < |rs|
  {
    rs[a].range.end
  }

  function Start(rs: Input, a: nat): nat
    requires a < |rs|
  {
    rs[a].range.start
  }

  ghost predicate ByEnd(rs: Input, act: seq<nat>)
    requires forall k :: 0 <= k < |act| ==> act[k] < |rs|
  {
    && (forall x, y :: 0 <= x < y < |act| ==> End(rs, act[x]) <= End(rs, act[y]))
    && (forall x, y :: 0 <= x < y < |act| ==> act[x] != act[y])
  }

  ghost predicate HeldBy(s: State, p: nat, a: nat) {
    a in s.active && a < |s.loc| && s.loc[a].slot == p
  }

  /** The active list is sorted by end and holds distinct earlier ranges in registers; every
      marked register belongs to an active range. */
  ghost predicate ListOk(rs: Input, n: nat, s: State, i: nat) {
    && InBounds(rs, s) && |s.regMap| == n && i <= |rs| && |s.active| <= n
    && ByEnd(rs, s.active)
    && (forall a :: a in s.active ==>
          a < i && s.loc[a].where == REGISTER && s.loc[a].slot < n)
    && (forall p :: 0 <= p < n && s.regMap[p] ==> exists a :: HeldBy(s, p, a))
  }

  /** Every processed range has a location, stack slots are pairwise distinct, and a range in a
      register that outlives `now` is still active. */
  ghost predicate LocOk(rs: Input, n: nat, s: State, i: nat, now: nat)
    requires |s.loc| == |rs| && i <= |rs|
  {
    && (forall a :: 0 <= a < |rs| ==> (s.loc[a].where == UNSET <==> i <= a))
    && (forall a :: 0 <= a < i && s.loc[a].where == REGISTER ==> s.loc[a].slot < n)
    && (forall a :: 0 <= a < i && s.loc[a].where == STACK ==> s.loc[a].slot < s.nextSlot)
    && (forall a, b :: 0 <= a < b < i && s.loc[a].where == STACK && s.loc[b].where == STACK ==>
          s.loc[a].slot != s.loc[b].slot)
    && (forall a :: 0 <= a < i && s.loc[a].where == REGISTER && now < End(rs, a) ==> a in s.active)
  }

  /** The start of the last processed range. */
  function Now(rs: Input, i: nat): nat
    requires i <= |rs|
  {
    if i == 0 then 0 else Start(rs, i - 1)
  }

  lemma AddActiveFacts(rs: Input, s: State, i: nat)
    requires InBounds(rs, s) && i < |rs| && ByEnd(rs, s.active) && i !in s.active
    ensures var r := AddActive(rs, s, i);
      && ByEnd(rs, r.active) && |r.active| == |s.active| + 1
      && forall a :: a in r.active <==> a in s.active || a == i
  {
    InsertSorted(rs, s.active, InsertAt(rs, s.active, End(rs, i)), i);
  }

  lemma InsertSorted(rs: Input, act: seq<nat>, k: nat, i: nat)
    requires i < |rs| && k <= |act| && i !in act
    requires (forall j :: 0 <= j < |act| ==> act[j] < |rs|) && ByEnd(rs, act)
    requires forall j :: 0 <= j < k ==> End(rs, act[j]) <= End(rs, i)
    requires k < |act| ==> End(rs, i) < End(rs, act[k])
    ensures var r := act[..k] + [i] + act[k..];
      && (forall a :: a in r <==> a in act || a == i)
      && (forall j :: 0 <= j < |r| ==> r[j] < |rs|) && ByEnd(rs, r)
  {
    var r := act[..k] + [i] + act[k..];
    assert act == act[..k] + act[k..];
    forall j | 0 <= j < |r| ensures r[j] == InsertedAt(act, k, i, j) {}
    forall x, y | 0 <= x < y < |r| ensures End(rs, r[x]) <= End(rs, r[y]) && r[x] != r[y] {
      if x == k {
        assert End(rs, act[k]) <= End(rs, act[y - 1]);
        assert act[y - 1] in act;
      } else if y == k {
        assert act[x] in act;
      }
    }
  }

  function InsertedAt(act: seq<nat>, k: nat, i: nat, j: nat): nat
    requires k <= |act| && j <= |act|
  {
    if j < k then act[j] else if j == k then i else act[j - 1]
  }

  /** `r` is left of `s` when the ranges that end by `start` have expired. */
  ghost predicate Expiry(rs: Input, s: State, r: State, start: nat)
    requires InBounds(rs, s) && InBounds(rs, r)
  {
    && |r.regMap| == |s.regMap| && ByEnd(rs, r.active) && |r.active| <= |s.active|
    && (forall a :: a in r.active ==> a in s.active)
    && (forall a :: a in s.active && start < End(rs, a) ==> a in r.active)
    && (forall p :: 0 <= p < |s.regMap| ==>
          (r.regMap[p] <==> s.regMap[p] && forall a :: HeldBy(s, p, a) ==> start < End(rs, a)))
    && ((forall a :: a in r.active ==> start < End(rs, a)) ||
        (|r.active| == 1 && forall a :: a in s.active ==> End(rs, a) <= start))
  }

  /** What one expiry keeps and releases, in terms of the ranges alone. */
  lemma ExpireElems(rs: Input, s: State, start: nat)
    requires InBounds(rs, s) && ByEnd(rs, s.active)
    ensures Expiry(rs, s, ExpireOld(rs, s, start), start)
  {
    var k := Expired(rs, s.active, start);
    var r := ExpireOld(rs, s, start);
    var kept := |s.active| - |r.active|;
    assert r.active == s.active[kept..];
    SuffixSorted(rs, s.active, k, kept, start);
    SuffixFacts(rs, s.active, k, kept, start);
    forall p | 0 <= p < |s.regMap|
      ensures r.regMap[p] <==> s.regMap[p] && forall a :: HeldBy(s, p, a) ==> start < End(rs, a)
    {
      ReleasedExactly(rs, s, start, k, p);
    }
  }

  lemma SuffixSorted(rs: Input, act: seq<nat>, k: nat, kept: nat, start: nat)
    requires kept <= k <= |act| && (forall j :: 0 <= j < |act| ==> act[j] < |rs|) && ByEnd(rs, act)
    requires k < |act| ==> start < End(rs, act[k])
    ensures ByEnd(rs, act[kept..])
    ensures forall j :: k <= j < |act| ==> start < End(rs, act[j])
  {
    forall j | k < j < |act| ensures start < End(rs, act[j]) {
      assert End(rs, act[k]) <= End(rs, act[j]);
    }
  }

  lemma SuffixFacts(rs: Input, act: seq<nat>, k: nat, kept: nat, start: nat)
    requires kept <= k <= |act| && (forall j :: 0 <= j < |act| ==> act[j] < |rs|)
    requires forall j :: 0 <= j < k ==> End(rs, act[j]) <= start
    requires forall j :: k <= j < |act| ==> start < End(rs, act[j])
    requires kept == k || (k == |act| && kept == k - 1)
    ensures forall a :: a in act[kept..] ==> a in act
    ensures forall a :: a in act && start < End(rs, a) ==> a in act[kept..]
    ensures (forall a :: a in act[kept..] ==> start < End(rs, a)) ||
            (|act[kept..]| == 1 && forall a :: a in act ==> End(rs, a) <= start)
  {
    var r := act[kept..];
    forall a | a in act && start < End(rs, a) ensures a in r {
      var j :| 0 <= j < |act| && act[j] == a;
      assert r[j - kept] == a;
    }
    if kept == k {
      forall a | a in r ensures start < End(rs, a) {
        var j :| 0 <= j < |r| && r[j] == a;
        assert r[j] == act[kept + j];
      }
    }
  }

  lemma ReleasedExactly(rs: Input, s: State, start: nat, k: nat, p: nat)
    requires InBounds(rs, s) && k <= |s.active| && p < |s.regMap|
    requires forall j :: 0 <= j < k ==> End(rs, s.active[j]) <= start
    requires forall j :: k <= j < |s.active| ==> start < End(rs, s.active[j])
    ensures Release(s.regMap, s.loc, s.active[..k])[p] <==>
              s.regMap[p] && forall a :: HeldBy(s, p, a) ==> start < End(rs, a)
  {
    var pre := s.active[..k];
    assert forall j :: 0 <= j < k ==> pre[j] == s.active[j];
    if Release(s.regMap, s.loc, pre)[p] {
      forall a | HeldBy(s, p, a) ensures start < End(rs, a) {
        var j :| 0 <= j < |s.active| && s.active[j] == a;
        assert k <= j;
      }
    }
    if s.regMap[p] && forall a :: HeldBy(s, p, a) ==> start < End(rs, a) {
      forall j | 0 <= j < |pre| ensures s.loc[pre[j]].slot != p {
        assert s.loc[pre[j]].slot == p ==> HeldBy(s, p, s.active[j]);
      }
    }
  }

  lemma ExpireFacts(rs: Input, n: nat, s: State, i: nat, now: nat)
    requires Sorted(rs) && i < |rs| && ListOk(rs, n, s, i) && LocOk(rs, n, s, i, now)
    requires now <= Start(rs, i)
    ensures var r := ExpireOld(rs, s, Start(rs, i));
      && ListOk(rs, n, r, i) && LocOk(rs, n, r, i, Start(rs, i))
  {
    hide ByEnd, Release, Expired, Sorted;
    var start := Start(rs, i);
    var r := ExpireOld(rs, s, start);
    ExpireElems(rs, s, start);
    assert r.loc == s.loc && r.nextSlot == s.nextSlot;
    hide ExpireOld;
    forall p | 0 <= p < n && r.regMap[p] ensures exists a :: HeldBy(r, p, a) {
      var a :| HeldBy(s, p, a);
      assert HeldBy(r, p, a);
    }
  }

  lemma ElemsBound(act: seq<nat>, s: set<nat>)
    requires forall x :: x in s ==> x in act
    ensures |s| <= |act|
  {
    if act == [] {
      assert s == {};
    } else {
      ElemsBound(act[1..], s - {act[0]});
    }
  }

  function UpTo(n: nat): (s: set<nat>)
    ensures |s| == n && forall x: nat :: x in s <==> x < n
  {
    if n == 0 then {} else UpTo(n - 1) + {n - 1}
  }

  /** With a register to spare in the active list there is an unmarked register. */
  lemma FreeRegister(rs: Input, n: nat, s: State, i: nat)
    requires ListOk(rs, n, s, i) && |s.active| < n
    ensures FirstFree(s.regMap) < n
  {
    hide ByEnd;
    if FirstFree(s.regMap) == n {
      var slots := seq(|s.active|, k requires 0 <= k < |s.active| => s.loc[s.active[k]].slot);
      forall p | p in UpTo(n) ensures p in slots {
        assert s.regMap[p];
        var a :| HeldBy(s, p, a);
        var k :| 0 <= k < |s.active| && s.active[k] == a;
        assert slots[k] == p;
      }
      ElemsBound(slots, UpTo(n));
    }
  }

  lemma AssignFacts(rs: Input, n: nat, s: State, i: nat)
    requires Sorted(rs) && i < |rs| && ListOk(rs, n, s, i) && LocOk(rs, n, s, i, Start(rs, i))
    requires |s.active| < n
    ensures var r := AddActive(rs, Assign(s, i), i);
      ListOk(rs, n, r, i + 1) && LocOk(rs, n, r, i + 1, Start(rs, i))
  {
    hide ByEnd, Sorted;
    FreeRegister(rs, n, s, i);
    var p := FirstFree(s.regMap);
    var t := Assign(s, i);
    var r := AddActive(rs, t, i);
    AddActiveFacts(rs, t, i);
    assert r.nextSlot == s.nextSlot;
    hide AddActive;
    forall q | 0 <= q < n && r.regMap[q] ensures exists a :: HeldBy(r, q, a) {
      if q == p {
        assert HeldBy(r, q, i);
      } else {
        var a :| HeldBy(s, q, a);
        assert HeldBy(r, q, a);
      }
    }
  }

  /** The range that a spill sends to the stack. */
  function SpillVictim(rs: Input, s: State, i: nat): nat
    requires InBounds(rs, s) && i < |rs| && |s.active| > 0
  {
    var b := s.active[|s.active| - 1];
    if End(rs, b) > End(rs, i) then b else i
  }

  /** A spill sends exactly one range to a new stack slot: one that ends last among the active
      ranges and the current one, the current one among equals.  Otherwise the current range takes over the
      register of the victim. */
  lemma SpillFurthest(rs: Input, n: nat, s: State, i: nat)
    requires i < |rs| && ListOk(rs, n, s, i) && |s.active| > 0
    ensures var v := SpillVictim(rs, s, i);
      var r := Spill(rs, s, i);
      && (forall a :: a in s.active ==> End(rs, a) <= End(rs, v)) && End(rs, i) <= End(rs, v)
      && (v == i <==> forall a :: a in s.active ==> End(rs, a) <= End(rs, i))
      && r.loc[v] == Location(STACK, s.nextSlot)
      && (v != i ==> r.loc[i] == s.loc[v])
      && (forall a :: 0 <= a < |rs| && a != v && a != i ==> r.loc[a] == s.loc[a])
  {
    var b := s.active[|s.active| - 1];
    assert b in s.active;
    forall a | a in s.active ensures End(rs, a) <= End(rs, b) {
      var j :| 0 <= j < |s.active| && s.active[j] == a;
    }
  }

  lemma DropLast(rs: Input, act: seq<nat>)
    requires (forall j :: 0 <= j < |act| ==> act[j] < |rs|) && ByEnd(rs, act) && |act| > 0
    ensures ByEnd(rs, act[..|act| - 1])
    ensures forall a :: a in act[..|act| - 1] <==> a in act && a != act[|act| - 1]
  {
    var pre := act[..|act| - 1];
    assert act == pre + [act[|act| - 1]];
    forall a | a in pre ensures a != act[|act| - 1] {
      var j :| 0 <= j < |pre| && pre[j] == a;
      assert act[j] == a;
    }
  }

  lemma SpillMembers(rs: Input, n: nat, s: State, i: nat)
    requires i < |rs| && ListOk(rs, n, s, i) && |s.active| > 0
    ensures var v := SpillVictim(rs, s, i);
      var r := Spill(rs, s, i);
      && ByEnd(rs, r.active) && |r.active| == |s.active|
      && (forall a :: a in r.active <==> (a in s.active || a == i) && a != v)
      && r.regMap == s.regMap && r.nextSlot == s.nextSlot + 1
  {
    var b := s.active[|s.active| - 1];
    assert b in s.active && i !in s.active;
    if End(rs, b) > End(rs, i) {
      DropLast(rs, s.active);
      var s1 := ToStack(s, b);
      var s2 := s1.(loc := s1.loc[i := Location(REGISTER, s.loc[b].slot)],
                    active := s.active[..|s.active| - 1]);
      hide ByEnd;
      AddActiveFacts(rs, s2, i);
    }
  }

  lemma SpillFacts(rs: Input, n: nat, s: State, i: nat)
    requires i < |rs| && ListOk(rs, n, s, i) && LocOk(rs, n, s, i, Start(rs, i))
    requires |s.active| > 0
    ensures var r := Spill(rs, s, i);
      ListOk(rs, n, r, i + 1) && LocOk(rs, n, r, i + 1, Start(rs, i))
  {
    SpillFurthest(rs, n, s, i);
    SpillMembers(rs, n, s, i);
    hide ByEnd;
    var v := SpillVictim(rs, s, i);
    assert v == i || v in s.active;
    var r := Spill(rs, s, i);
    hide Spill, SpillVictim;
    forall p | 0 <= p < n && r.regMap[p] ensures exists a :: HeldBy(r, p, a) {
      var a :| HeldBy(s, p, a);
      assert HeldBy(r, p, if a == v then i else a);
    }
  }

  lemma ProcessFacts(rs: Input, n: nat, s: State, i: nat)
    requires Sorted(rs) && n > 0 && i < |rs| && ListOk(rs, n, s, i) && LocOk(rs, n, s, i, Now(rs, i))
    ensures var r := Process(rs, s, i);
      ListOk(rs, n, r, i + 1) && LocOk(rs, n, r, i + 1, Now(rs, i + 1))
  {
    assert Now(rs, i) <= Start(rs, i);
    ExpireFacts(rs, n, s, i, Now(rs, i));
    hide ListOk, LocOk, ExpireOld, Assign, AddActive, Spill;
    var s1 := ExpireOld(rs, s, Start(rs, i));
    ActiveBound(rs, n, s1, i);
    if |s1.active| == |s1.regMap| {
      SpillFacts(rs, n, s1, i);
    } else {
      AssignFacts(rs, n, s1, i);
    }
  }

  lemma ActiveBound(rs: Input, n: nat, s: State, i: nat)
    requires ListOk(rs, n, s, i)
    ensures InBounds(rs, s) && |s.regMap| == n && |s.active| <= n
  {}

  /** Whatever the input, after every step: the active list is sorted and bounded by the number of
      registers, marks belong to active ranges, every processed range has a location, and stack
      slots are pairwise distinct. */
  lemma {:induction false} RunFacts(rs: Input, n: nat, i: nat)
    requires Sorted(rs) && n > 0 && i <= |rs|
    ensures ListOk(rs, n, Run(rs, n, i), i) && LocOk(rs, n, Run(rs, n, i), i, Now(rs, i))
    decreases i
  {
    if i > 0 {
      RunFacts(rs, n, i - 1);
      ProcessFacts(rs, n, Run(rs, n, i - 1), i - 1);
    }
  }

  /** The guard under which the retained range does harm: the first active range has expired, the
      second has not, and they name the same register, so releasing the first frees the register
      of the second. */
  predicate Hazard(rs: Input, s: State, i: nat)
    requires InBounds(rs, s) && i < |rs|
  {
    && |s.active| >= 2
    && End(rs, s.active[0]) <= Start(rs, i) < End(rs, s.active[1])
    && s.loc[s.active[0]].slot == s.loc[s.active[1]].slot
  }

  /** The registers of the active ranges are marked and pairwise distinct. */
  ghost predicate Exact(s: State) {
    && (forall a :: a in s.active ==>
          a < |s.loc| && s.loc[a].slot < |s.regMap| && s.regMap[s.loc[a].slot])
    && (forall a, b :: a in s.active && b in s.active && a != b ==> s.loc[a].slot != s.loc[b].slot)
  }

  /** The state after a step in which every active range had expired: the last of them, `e`, is
      still listed although its register is free again. */
  ghost predicate Retained(rs: Input, n: nat, s: State, i: nat)
    requires InBounds(rs, s) && i <= |rs|
  {
    && |s.regMap| == n && 1 <= |s.active| <= 2 && End(rs, s.active[0]) <= Now(rs, i)
    && (|s.active| == 1 <==> n == 1)
    && (|s.active| == 2 ==>
          s.active[0] != s.active[1] == i - 1 && s.loc[s.active[1]].slot == 0)
    && forall p :: 0 <= p < n ==> (s.regMap[p] <==> n > 1 && p == 0)
  }

  ghost predicate Mode(rs: Input, n: nat, s: State, i: nat)
    requires InBounds(rs, s) && i <= |rs|
  {
    Exact(s) || Retained(rs, n, s, i)
  }

  /** No two listed ranges that outlive the current point share a register. */
  ghost predicate Safe(rs: Input, s: State, i: nat)
    requires InBounds(rs, s) && i <= |rs|
  {
    forall a, b :: a in s.active && b in s.active && a != b && a < |rs| && b < |rs| ==>
      Now(rs, i) < End(rs, a) && Now(rs, i) < End(rs, b) ==> s.loc[a].slot != s.loc[b].slot
  }

  lemma ModeIsSafe(rs: Input, n: nat, s: State, i: nat)
    requires ListOk(rs, n, s, i) && Mode(rs, n, s, i)
    ensures Safe(rs, s, i)
  {}

  /** After expiry without a hazard the marks are exact again, unless everything had expired. */
  lemma ExpireMode(rs: Input, n: nat, s: State, i: nat)
    requires Sorted(rs) && i < |rs| && ListOk(rs, n, s, i) && Mode(rs, n, s, i)
    requires !Hazard(rs, s, i)
    ensures var r := ExpireOld(rs, s, Start(rs, i));
      || (Exact(r) && (forall a :: a in r.active ==> Start(rs, i) < End(rs, a)))
      || (|r.active| == 1 && End(rs, r.active[0]) <= Start(rs, i) && forall p :: 0 <= p < n ==> !r.regMap[p])
  {
    var start := Start(rs, i);
    var r := ExpireOld(rs, s, start);
    ExpireElems(rs, s, start);
    assert r.loc == s.loc;
    assert Now(rs, i) <= start;
    hide ExpireOld, ByEnd, Expiry;
    if Exact(s) {
      ExactExpire(rs, n, s, r, i);
    } else {
      RetainedExpire(rs, n, s, r, i);
    }
  }

  lemma ExactExpire(rs: Input, n: nat, s: State, r: State, i: nat)
    requires i < |rs| && ListOk(rs, n, s, i) && Exact(s) && InBounds(rs, r)
    requires r.loc == s.loc && |r.regMap| == n
    requires |s.regMap| == n && Expiry(rs, s, r, Start(rs, i))
    ensures || (Exact(r) && (forall a :: a in r.active ==> Start(rs, i) < End(rs, a)))
            || (|r.active| == 1 && End(rs, r.active[0]) <= Start(rs, i) && forall p :: 0 <= p < n ==> !r.regMap[p])
  {
    hide ByEnd;
    if forall a :: a in r.active ==> Start(rs, i) < End(rs, a) {
      forall a | a in r.active ensures r.regMap[s.loc[a].slot] {
        forall b | HeldBy(s, s.loc[a].slot, b) ensures Start(rs, i) < End(rs, b) {
          assert b == a;
        }
      }
    } else {
      assert r.active[0] in r.active;
      forall p | 0 <= p < n ensures !r.regMap[p] {
        if s.regMap[p] {
          var a :| HeldBy(s, p, a);
        }
      }
    }
  }

  lemma RetainedExpire(rs: Input, n: nat, s: State, r: State, i: nat)
    requires i < |rs| && ListOk(rs, n, s, i) && Retained(rs, n, s, i) && InBounds(rs, r)
    requires Now(rs, i) <= Start(rs, i) && !Hazard(rs, s, i)
    requires r.loc == s.loc && |r.regMap| == n && r.active != []
    requires |s.regMap| == n && Expiry(rs, s, r, Start(rs, i))
    ensures || (Exact(r) && (forall a :: a in r.active ==> Start(rs, i) < End(rs, a)))
            || (|r.active| == 1 && End(rs, r.active[0]) <= Start(rs, i) && forall p :: 0 <= p < n ==> !r.regMap[p])
  {
    hide ByEnd;
    var e := s.active[0];
    assert r.active[0] in r.active;
    if |s.active| == 2 {
      var x := s.active[1];
      assert s.active == [e, x];
      assert HeldBy(s, 0, x);
      if Start(rs, i) < End(rs, x) {
        assert forall a :: a in r.active ==> a == x;
        assert forall a :: HeldBy(s, 0, a) ==> a == x;
      }
    }
  }

  /** What expiry leaves when it did no harm. */
  ghost predicate AfterExpiry(rs: Input, n: nat, s: State, i: nat)
    requires InBounds(rs, s) && i < |rs|
  {
    || (Exact(s) && forall a :: a in s.active ==> Start(rs, i) < End(rs, a))
    || (|s.active| == 1 && End(rs, s.active[0]) <= Start(rs, i) && |s.regMap| == n
        && forall p :: 0 <= p < n ==> !s.regMap[p])
  }

  lemma AssignMode(rs: Input, n: nat, s: State, i: nat)
    requires Sorted(rs) && i < |rs| && ListOk(rs, n, s, i) && |s.active| < n
    requires AfterExpiry(rs, n, s, i)
    ensures var r := AddActive(rs, Assign(s, i), i);
      Mode(rs, n, r, i + 1) && i in r.active && forall a :: 0 <= a < i ==> r.loc[a] == s.loc[a]
  {
    hide AddActive, ByEnd;
    FreeRegister(rs, n, s, i);
    var t := Assign(s, i);
    AddActiveFacts(rs, t, i);
    var r := AddActive(rs, t, i);
    assert i in r.active && r.loc == t.loc && r.regMap == t.regMap;
    if !Exact(s) {
      AssignRetained(rs, n, s, i);
    } else {
      ExactExtend(s, r, i, FirstFree(s.regMap));
    }
  }

  /** Handing an unmarked register to a new range keeps the marks exact. */
  lemma ExactExtend(s: State, r: State, i: nat, p: nat)
    requires Exact(s) && i < |s.loc| && i !in s.active && p < |s.regMap| && !s.regMap[p]
    requires forall a :: a in r.active <==> a in s.active || a == i
    requires r.loc == s.loc[i := Location(REGISTER, p)] && r.regMap == s.regMap[p := true]
    ensures Exact(r)
  {}

  /** Passing the register of `v` on to `i` keeps the marks exact. */
  lemma ExactReplace(s: State, r: State, v: nat, i: nat)
    requires Exact(s) && i < |s.loc| == |r.loc| && i !in s.active && v in s.active
    requires forall a :: a in r.active <==> (a in s.active || a == i) && a != v
    requires r.loc[i].slot == s.loc[v].slot && r.regMap == s.regMap
    requires forall a :: 0 <= a < |s.loc| && a != v && a != i ==> r.loc[a] == s.loc[a]
    ensures Exact(r)
  {}

  lemma AssignRetained(rs: Input, n: nat, s: State, i: nat)
    requires Sorted(rs) && i < |rs| && ListOk(rs, n, s, i) && 1 < n
    requires |s.active| == 1 && End(rs, s.active[0]) <= Start(rs, i)
    requires forall p :: 0 <= p < n ==> !s.regMap[p]
    ensures Retained(rs, n, AddActive(rs, Assign(s, i), i), i + 1)
  {
    hide ByEnd;
    var e := s.active[0];
    assert e in s.active;
    assert s.active == [e];
    assert FirstFree(s.regMap) == 0;
    AddAfter(rs, Assign(s, i), e, i);
    hide AddActive;
  }

  lemma AddAfter(rs: Input, t: State, e: nat, i: nat)
    requires i < |rs| && InBounds(rs, t) && t.active == [e] && e < |rs| && End(rs, e) <= End(rs, i)
    ensures AddActive(rs, t, i).active == [e, i]
  {
    assert InsertAt(rs, [e], End(rs, i)) == 1;
  }

  lemma SpillMode(rs: Input, n: nat, s: State, i: nat)
    requires Sorted(rs) && i < |rs| && ListOk(rs, n, s, i) && |s.active| == n > 0
    requires AfterExpiry(rs, n, s, i)
    ensures var r := Spill(rs, s, i);
      && Mode(rs, n, r, i + 1) && (r.loc[i].where == REGISTER ==> i in r.active)
      && forall a :: 0 <= a < i ==> r.loc[a] == s.loc[a] || r.loc[a].where == STACK
  {
    hide *;
    ActiveBound(rs, n, s, i);
    if SpillVictim(rs, s, i) == i {
      SpillCurrent(rs, n, s, i);
    } else {
      SpillOther(rs, n, s, i);
    }
  }

  lemma SpillOther(rs: Input, n: nat, s: State, i: nat)
    requires Sorted(rs) && i < |rs| && ListOk(rs, n, s, i) && |s.active| == n > 0
    requires AfterExpiry(rs, n, s, i) && SpillVictim(rs, s, i) != i
    ensures var r := Spill(rs, s, i);
      && Mode(rs, n, r, i + 1) && i in r.active
      && forall a :: 0 <= a < i ==> r.loc[a] == s.loc[a] || r.loc[a].where == STACK
  {
    var v := SpillVictim(rs, s, i);
    var r := Spill(rs, s, i);
    OtherVictim(rs, n, s, i);
    SpillFurthest(rs, n, s, i);
    SpillMembers(rs, n, s, i);
    hide Spill, SpillVictim, ListOk, ByEnd, AfterExpiry, Sorted;
    ExactReplace(s, r, v, i);
  }

  lemma OtherVictim(rs: Input, n: nat, s: State, i: nat)
    requires Sorted(rs) && i < |rs| && ListOk(rs, n, s, i) && |s.active| == n > 0
    requires AfterExpiry(rs, n, s, i) && SpillVictim(rs, s, i) != i
    ensures SpillVictim(rs, s, i) in s.active && i !in s.active && Exact(s)
  {}

  lemma SpillCurrent(rs: Input, n: nat, s: State, i: nat)
    requires Sorted(rs) && i < |rs| && ListOk(rs, n, s, i) && |s.active| == n > 0
    requires AfterExpiry(rs, n, s, i) && SpillVictim(rs, s, i) == i
    ensures var r := Spill(rs, s, i);
      && Mode(rs, n, r, i + 1) && r.loc[i].where == STACK
      && forall a :: 0 <= a < i ==> r.loc[a] == s.loc[a]
  {
    hide ByEnd;
    assert s.active[n - 1] in s.active;
    var r := Spill(rs, s, i);
    assert r == ToStack(s, i);
    hide Spill;
  }

  /** A step without a hazard keeps the mode, and whatever register the new range gets is not the
      register of a range that outlives its start. */
  lemma ProcessMode(rs: Input, n: nat, s: State, i: nat)
    requires Sorted(rs) && n > 0 && i < |rs| && ListOk(rs, n, s, i)
    requires LocOk(rs, n, s, i, Now(rs, i)) && Mode(rs, n, s, i) && !Hazard(rs, s, i)
    ensures var r := Process(rs, s, i);
      && Mode(rs, n, r, i + 1) && (r.loc[i].where == REGISTER ==> i in r.active)
      && forall a :: 0 <= a < i ==> r.loc[a] == s.loc[a] || r.loc[a].where == STACK
  {
    assert Now(rs, i) <= Start(rs, i);
    ExpireFacts(rs, n, s, i, Now(rs, i));
    ExpireMode(rs, n, s, i);
    var s1 := ExpireOld(rs, s, Start(rs, i));
    assert s1.loc == s.loc;
    ActiveBound(rs, n, s1, i);
    assert AfterExpiry(rs, n, s1, i);
    hide ListOk, LocOk, ExpireOld, Assign, AddActive, Spill, Mode, AfterExpiry;
    if |s1.active| == |s1.regMap| {
      SpillMode(rs, n, s1, i);
    } else {
      AssignMode(rs, n, s1, i);
    }
  }

  /** Two processed ranges that intersect do not share a register. */
  ghost predicate NoClash(rs: Input, s: State, i: nat)
    requires |s.loc| == |rs| && i <= |rs|
  {
    forall a, b :: 0 <= a < b < i && s.loc[a].where == s.loc[b].where == REGISTER ==>
      IfIntersect(rs[a].range, rs[b].range) ==> s.loc[a].slot != s.loc[b].slot
  }

  lemma ClashStep(rs: Input, n: nat, s: State, r: State, i: nat)
    requires Sorted(rs) && i < |rs| && |s.loc| == |rs| && NoClash(rs, s, i)
    requires ListOk(rs, n, r, i + 1) && LocOk(rs, n, r, i + 1, Now(rs, i + 1)) && Mode(rs, n, r, i + 1)
    requires r.loc[i].where == REGISTER ==> i in r.active
    requires forall a :: 0 <= a < i ==> r.loc[a] == s.loc[a] || r.loc[a].where == STACK
    ensures NoClash(rs, r, i + 1)
  {
    hide ByEnd;
    forall a, b | 0 <= a < b < i + 1 && r.loc[a].where == REGISTER && r.loc[b].where == REGISTER
      && IfIntersect(rs[a].range, rs[b].range)
      ensures r.loc[a].slot != r.loc[b].slot
    {
      if b == i {
        assert Now(rs, i + 1) < End(rs, a);
        assert a in r.active && b in r.active;
      }
    }
  }

  predicate HazardAt(rs: Input, n: nat, i: nat)
    requires n > 0 && i < |rs|
  {
    Hazard(rs, Run(rs, n, i), i)
  }

  ghost predicate SafeAt(rs: Input, n: nat, i: nat)
    requires n > 0 && i <= |rs|
  {
    Safe(rs, Run(rs, n, i), i)
  }

  lemma ModeStep(rs: Input, n: nat, s: State, i: nat)
    requires Sorted(rs) && n > 0 && i < |rs| && ListOk(rs, n, s, i) && LocOk(rs, n, s, i, Now(rs, i))
    requires Mode(rs, n, s, i) && NoClash(rs, s, i) && !Hazard(rs, s, i)
    ensures var r := Process(rs, s, i);
      Mode(rs, n, r, i + 1) && NoClash(rs, r, i + 1)
  {
    ProcessFacts(rs, n, s, i);
    ProcessMode(rs, n, s, i);
    hide ListOk, LocOk, Mode, NoClash, Process, Hazard, Sorted;
    ClashStep(rs, n, s, Process(rs, s, i), i);
  }

  lemma RunStep(rs: Input, n: nat, i: nat)
    requires n > 0 && i < |rs|
    ensures Run(rs, n, i + 1) == Process(rs, Run(rs, n, i), i)
  {}

  lemma NoHazardAt(rs: Input, n: nat, i: nat)
    requires n > 0 && i < |rs| && !HazardAt(rs, n, i)
    ensures !Hazard(rs, Run(rs, n, i), i)
  {}

  lemma StartState(rs: Input, n: nat)
    requires n > 0
    ensures Mode(rs, n, Run(rs, n, 0), 0) && NoClash(rs, Run(rs, n, 0), 0)
    ensures AllInRegisters(Run(rs, n, 0), 0)
  {
    assert Run(rs, n, 0) == Initial(rs, n);
    hide Run;
    assert Exact(Initial(rs, n));
  }

  lemma {:induction false} RunMode(rs: Input, n: nat, i: nat)
    requires Sorted(rs) && n > 0 && i <= |rs|
    requires forall j :: 0 <= j < i ==> !HazardAt(rs, n, j)
    ensures Mode(rs, n, Run(rs, n, i), i) && NoClash(rs, Run(rs, n, i), i)
    decreases i
  {
    hide *;
    if i == 0 {
      StartState(rs, n);
    } else {
      RunMode(rs, n, i - 1);
      RunFacts(rs, n, i - 1);
      NoHazardAt(rs, n, i - 1);
      ModeStep(rs, n, Run(rs, n, i - 1), i - 1);
      RunStep(rs, n, i - 1);
    }
  }

  /** Every range has a place: a register or a stack slot. */
  ghost predicate Placed(loc: seq<Location>, n: nat) {
    forall a :: 0 <= a < |loc| ==> loc[a].where == STACK || (loc[a].where == REGISTER && loc[a].slot < n)
  }

  /** Ranges that intersect are in different registers, and no two ranges share a stack slot. */
  ghost predicate Separated(rs: Input, loc: seq<Location>)
    requires |loc| == |rs|
  {
    forall a, b :: 0 <= a < b < |rs| && loc[a].where == loc[b].where != UNSET ==>
      (loc[a].where == STACK || IfIntersect(rs[a].range, rs[b].range)) ==> loc[a].slot != loc[b].slot
  }

  lemma SeparatedIff(rs: Input, n: nat)
    requires Sorted(rs) && n > 0
    ensures Placed(Run(rs, n, |rs|).loc, n)
    ensures Separated(rs, Run(rs, n, |rs|).loc) <==> NoClash(rs, Run(rs, n, |rs|), |rs|)
  {
    hide Run, ListOk, Sorted;
    RunFacts(rs, n, |rs|);
  }

  /** A hazard frees the register of a range that is still live. */
  lemma HazardFrees(rs: Input, n: nat, s: State, i: nat)
    requires Sorted(rs) && n > 0 && i < |rs| && ListOk(rs, n, s, i) && Mode(rs, n, s, i)
    requires Hazard(rs, s, i)
    ensures 1 < n && s.active[1] < i && Start(rs, i) < End(rs, s.active[1])
    ensures s.loc[s.active[1]].slot == 0
    ensures var r := ExpireOld(rs, s, Start(rs, i));
      r.active == [s.active[1]] && r.loc == s.loc && |r.regMap| == n && !r.regMap[0]
  {
    var e, x := s.active[0], s.active[1];
    assert e in s.active && x in s.active && e != x;
    assert s.active == [e, x];
    ExpireElems(rs, s, Start(rs, i));
    var r := ExpireOld(rs, s, Start(rs, i));
    assert r.loc == s.loc;
    assert x in r.active && HeldBy(s, 0, e);
    OnlyMember(r.active, x);
  }

  /** A hazard does harm at once: the current range gets the register of a live one. */
  lemma HazardHarms(rs: Input, n: nat, s: State, i: nat)
    requires Sorted(rs) && n > 0 && i < |rs| && ListOk(rs, n, s, i) && Mode(rs, n, s, i)
    requires Hazard(rs, s, i) && Start(rs, i) < End(rs, i)
    ensures !Safe(rs, Process(rs, s, i), i + 1)
  {
    HazardFrees(rs, n, s, i);
    var x := s.active[1];
    var s1 := ExpireOld(rs, s, Start(rs, i));
    hide ListOk, Mode, Hazard, Sorted, ExpireOld, AddActive;
    assert FirstFree(s1.regMap) == 0;
    var t := Assign(s1, i);
    AddActiveFacts(rs, t, i);
    var r := AddActive(rs, t, i);
    assert x in r.active && i in r.active && x != i;
    assert r.loc[x].slot == r.loc[i].slot == 0;
  }

  lemma OnlyMember(act: seq<nat>, x: nat)
    requires x in act && (forall a :: a in act ==> a == x)
    requires |act| >= 2 ==> act[0] != act[1]
    ensures act == [x]
  {
    assert forall j :: 0 <= j < |act| ==> act[j] in act;
  }

  /** Exactly when the allocator as written is right: throughout the run, listed ranges that are
      still live are in pairwise different registers if and only if no step is a hazard. */
  lemma SafeIffNoHazard(rs: Input, n: nat)
    requires Sorted(rs) && n > 0
    requires forall i :: 0 <= i < |rs| ==> Start(rs, i) < End(rs, i)
    ensures (forall i :: 0 <= i <= |rs| ==> SafeAt(rs, n, i))
       <==> (forall i :: 0 <= i < |rs| ==> !HazardAt(rs, n, i))
  {
    hide Run, ListOk, Mode, Safe, Process, Hazard;
    if forall i :: 0 <= i < |rs| ==> !HazardAt(rs, n, i) {
      forall i | 0 <= i <= |rs| ensures SafeAt(rs, n, i) {
        RunMode(rs, n, i);
        RunFacts(rs, n, i);
        ModeIsSafe(rs, n, Run(rs, n, i), i);
      }
    } else {
      var i := FirstHazard(rs, n);
      RunMode(rs, n, i);
      RunFacts(rs, n, i);
      HazardHarms(rs, n, Run(rs, n, i), i);
      RunStep(rs, n, i);
      assert !SafeAt(rs, n, i + 1);
    }
  }

  lemma FirstHazard(rs: Input, n: nat) returns (i: nat)
    requires n > 0 && exists j :: 0 <= j < |rs| && HazardAt(rs, n, j)
    ensures i < |rs| && HazardAt(rs, n, i) && forall j :: 0 <= j < i ==> !HazardAt(rs, n, j)
  {
    hide HazardAt;
    i := 0;
    while !HazardAt(rs, n, i)
      invariant i < |rs| && forall j :: 0 <= j < i ==> !HazardAt(rs, n, j)
      decreases |rs| - i
    {
      i := i + 1;
    }
  }

  lemma FirstStep(rs: Input, n: nat)
    requires n > 1 && |rs| > 0
    ensures var s := Run(rs, n, 1);
      && s.active == [0] && s.loc[0] == Location(REGISTER, 0)
      && forall p :: 0 <= p < n ==> (s.regMap[p] <==> p == 0)
  {
    var s := Initial(rs, n);
    assert Run(rs, n, 0) == s;
    RunStep(rs, n, 0);
    hide Run;
    assert ExpireOld(rs, s, Start(rs, 0)) == s;
    hide ExpireOld;
    assert FirstFree(s.regMap) == 0;
    assert [][..0] + [0] + [][0..] == [0];
  }

  lemma GapExpire(rs: Input, n: nat, s: State)
    requires |rs| > 1 && InBounds(rs, s) && |s.regMap| == n && End(rs, 0) <= Start(rs, 1)
    requires s.active == [0] && s.loc[0] == Location(REGISTER, 0)
    requires forall p :: 0 <= p < n ==> (s.regMap[p] <==> p == 0)
    ensures var r := ExpireOld(rs, s, Start(rs, 1));
      && r.active == [0] && r.loc == s.loc && |r.regMap| == n
      && forall p :: 0 <= p < n ==> !r.regMap[p]
  {
    hide ListOk, ByEnd;
    assert Expired(rs, [0], Start(rs, 1)) == 1;
    assert [0][0..] == [0] && [0][..1] == [0];
  }

  lemma GapProcess(rs: Input, n: nat, s: State)
    requires Sorted(rs) && n > 1 && |rs| > 1 && InBounds(rs, s) && |s.regMap| == n
    requires s.active == [0] && s.loc[0] == Location(REGISTER, 0) && End(rs, 0) <= Start(rs, 1)
    requires forall p :: 0 <= p < n ==> (s.regMap[p] <==> p == 0)
    ensures var r := Process(rs, s, 1);
      r.active == [0, 1] && r.loc[0] == r.loc[1] == Location(REGISTER, 0) && Retained(rs, n, r, 2)
  {
    GapExpire(rs, n, s);
    hide ExpireOld, Retained, AddActive, Assign, Sorted;
    GapAssign(rs, n, ExpireOld(rs, s, Start(rs, 1)));
  }

  lemma GapAssign(rs: Input, n: nat, s: State)
    requires Sorted(rs) && n > 1 && |rs| > 1 && InBounds(rs, s) && |s.regMap| == n
    requires s.active == [0] && s.loc[0] == Location(REGISTER, 0) && End(rs, 0) <= Start(rs, 1)
    requires forall p :: 0 <= p < n ==> !s.regMap[p]
    ensures var r := AddActive(rs, Assign(s, 1), 1);
      r.active == [0, 1] && r.loc[0] == r.loc[1] == Location(REGISTER, 0) && Retained(rs, n, r, 2)
  {
    assert FirstFree(s.regMap) == 0;
    AddAfter(rs, Assign(s, 1), 0, 1);
    hide AddActive;
  }

  lemma GapStep(rs: Input, n: nat)
    requires Sorted(rs) && n > 1 && |rs| > 1 && End(rs, 0) <= Start(rs, 1)
    ensures var s := Run(rs, n, 2);
      s.active == [0, 1] && s.loc[0] == s.loc[1] == Location(REGISTER, 0) && Retained(rs, n, s, 2)
  {
    hide Run, Sorted, Process, Retained;
    FirstStep(rs, n);
    RunStep(rs, n, 1);
    GapProcess(rs, n, Run(rs, n, 1));
  }

  lemma OverlapStep(rs: Input, n: nat, s: State)
    requires Sorted(rs) && n > 1 && |rs| > 2 && ListOk(rs, n, s, 2) && Retained(rs, n, s, 2)
    requires Hazard(rs, s, 2) && s.active == [0, 1] && s.loc[1] == Location(REGISTER, 0)
    ensures Process(rs, s, 2).loc[1] == Process(rs, s, 2).loc[2] == Location(REGISTER, 0)
  {
    HazardFrees(rs, n, s, 2);
    hide ListOk, ExpireOld, AddActive, Sorted, Retained, Hazard;
    assert FirstFree(ExpireOld(rs, s, Start(rs, 2)).regMap) == 0;
  }

  /** Every program whose first value dies before the second is defined, while the second is
      still live when the third is defined, is allocated wrongly as soon as there are two
      registers: the second and the third value share register 0. */
  lemma GapThenOverlap(rs: Input, n: nat)
    requires Sorted(rs) && n > 1 && |rs| > 2
    requires End(rs, 0) <= Start(rs, 1) && Start(rs, 2) < End(rs, 1) && Start(rs, 2) < End(rs, 2)
    ensures HazardAt(rs, n, 2) && IfIntersect(rs[1].range, rs[2].range)
    ensures Run(rs, n, 3).loc[1] == Run(rs, n, 3).loc[2] == Location(REGISTER, 0)
  {
    hide Run, LocOk, ListOk, Retained, Process;
    GapStep(rs, n);
    RunFacts(rs, n, 2);
    RunStep(rs, n, 2);
    OverlapStep(rs, n, Run(rs, n, 2));
  }

  /** The value ranges of the straight-line code `a; b = f(a); c; d = g(b, c)`. */
  const STRAIGHT_LINE: Input :=
    [LiveRange(Range(2, 4), 0), LiveRange(Range(4, 8), 1), LiveRange(Range(6, 8), 2)]

  /** `b` and `c` are live together and both end up in register 0. */
  lemma HazardExample()
    ensures Sorted(STRAIGHT_LINE) && IfIntersect(STRAIGHT_LINE[1].range, STRAIGHT_LINE[2].range)
    ensures Run(STRAIGHT_LINE, 2, 3).loc[1] == Run(STRAIGHT_LINE, 2, 3).loc[2] == Location(REGISTER, 0)
  {
    hide Run;
    GapThenOverlap(STRAIGHT_LINE, 2);
  }

  /** The ranges that contain a point. */
  function Covering(rs: Input, pt: nat): set<nat> {
    set a {:trigger rs[a]} | 0 <= a < |rs| && rs[a].range.Contains(pt)
  }

  lemma DistinctSize(act: seq<nat>, s: set<nat>)
    requires forall x, y :: 0 <= x < y < |act| ==> act[x] != act[y]
    requires forall x :: 0 <= x < |act| ==> act[x] in s
    ensures |act| <= |s|
  {
    if act != [] {
      DistinctSize(act[1..], s - {act[0]});
    }
  }

  /** Real pressure: when expiry leaves the active list full of live ranges, one more range than
      there are registers covers the start of the current range. */
  lemma FullListIsPressure(rs: Input, n: nat, s: State, i: nat)
    requires Sorted(rs) && i < |rs| && ListOk(rs, n, s, i) && |s.active| == n
    requires forall a :: a in s.active ==> Start(rs, i) < End(rs, a)
    requires Start(rs, i) < End(rs, i)
    ensures |Covering(rs, Start(rs, i))| > n
  {
    var c := Covering(rs, Start(rs, i));
    forall x | 0 <= x < |s.active| ensures s.active[x] in c - {i} {
      assert s.active[x] in s.active;
    }
    DistinctSize(s.active, c - {i});
    assert i in c;
  }

  ghost predicate AllInRegisters(s: State, i: nat) {
    i <= |s.loc| && forall a :: 0 <= a < i ==> s.loc[a].where == REGISTER
  }

  lemma NoSpillStep(rs: Input, n: nat, s: State, i: nat)
    requires Sorted(rs) && n > 1 && i < |rs| && ListOk(rs, n, s, i) && LocOk(rs, n, s, i, Now(rs, i))
    requires Start(rs, i) < End(rs, i) && |Covering(rs, Start(rs, i))| <= n
    requires AllInRegisters(s, i)
    ensures AllInRegisters(Process(rs, s, i), i + 1)
  {
    assert Now(rs, i) <= Start(rs, i);
    ExpireFacts(rs, n, s, i, Now(rs, i));
    var s1 := ExpireOld(rs, s, Start(rs, i));
    assert AllInRegisters(s1, i);
    ActiveBound(rs, n, s1, i);
    ActiveBound(rs, n, s, i);
    NotFull(rs, n, s, i);
    hide ExpireOld, Sorted, LocOk, ListOk, Covering, AllInRegisters, AddActive, Assign;
    AssignInRegisters(rs, n, s1, i);
  }

  lemma NotFull(rs: Input, n: nat, s: State, i: nat)
    requires Sorted(rs) && n > 1 && i < |rs| && ListOk(rs, n, s, i)
    requires ListOk(rs, n, ExpireOld(rs, s, Start(rs, i)), i)
    requires Start(rs, i) < End(rs, i) && |Covering(rs, Start(rs, i))| <= n
    ensures |ExpireOld(rs, s, Start(rs, i)).active| < n
  {
    var s1 := ExpireOld(rs, s, Start(rs, i));
    ExpireElems(rs, s, Start(rs, i));
    ActiveBound(rs, n, s1, i);
    hide ExpireOld, Sorted, LocOk, Covering, ByEnd, ListOk;
    if |s1.active| == n {
      FullListIsPressure(rs, n, s1, i);
    }
  }

  lemma AssignInRegisters(rs: Input, n: nat, s: State, i: nat)
    requires i < |rs| && ListOk(rs, n, s, i) && |s.active| < n && AllInRegisters(s, i)
    ensures AllInRegisters(AddActive(rs, Assign(s, i), i), i + 1)
  {
    FreeRegister(rs, n, s, i);
  }

  lemma {:induction false} NoSpillRun(rs: Input, n: nat, i: nat)
    requires Sorted(rs) && n > 1 && i <= |rs|
    requires forall a :: 0 <= a < |rs| ==> Start(rs, a) < End(rs, a)
    requires forall pt: nat :: |Covering(rs, pt)| <= n
    ensures AllInRegisters(Run(rs, n, i), i)
    decreases i
  {
    hide *;
    if i == 0 {
      StartState(rs, n);
    } else {
      NoSpillRun(rs, n, i - 1);
      RunFacts(rs, n, i - 1);
      RunStep(rs, n, i - 1);
      NoSpillStep(rs, n, Run(rs, n, i - 1), i - 1);
    }
  }

  /** With one register the retained range counts as live for ever: once a gap has been met,
      every later range goes to the stack, however few ranges overlap. */
  lemma OneRegisterStep(rs: Input, s: State, i: nat)
    requires Sorted(rs) && i < |rs| && InBounds(rs, s) && |s.regMap| == 1
    requires |s.active| == 1 && End(rs, s.active[0]) <= Start(rs, i)
    ensures var r := Process(rs, s, i);
      r.active == s.active && r.loc[i].where == STACK
  {
    assert s.active == [s.active[0]];
    assert Expired(rs, s.active, Start(rs, i)) == 1;
  }

  lemma StartsGrow(rs: Input, i: nat, k: nat)
    requires Sorted(rs) && i <= k < |rs|
    ensures Start(rs, i) <= Start(rs, k)
  {}
}
