/** Which stack slots the allocator hands out, and when it does (pass/linear_scan.cpp:125-139, 179-188). */
module StackSlots {
  import opened LinearScan
  import opened RegisterSafety

  function OnStack(loc: seq<Location>): set<nat> {
    set a | 0 <= a < |loc| && loc[a].where == STACK
  }

  ghost predicate Uses(loc: seq<Location>, p: nat, a: nat) {
    a in OnStack(loc) && loc[a].slot == p
  }

  ghost predicate InUse(loc: seq<Location>, p: nat) {
    exists a :: Uses(loc, p, a)
  }

  /** The stack slots are `0..k`, each used by exactly one range. */
  ghost predicate Packed(loc: seq<Location>, k: nat) {
    && |OnStack(loc)| == k
    && (forall a :: a in OnStack(loc) ==> loc[a].slot < k)
    && (forall p, a, b :: Uses(loc, p, a) && Uses(loc, p, b) ==> a == b)
    && forall p: nat :: p < k ==> InUse(loc, p)
  }

  /** Range `v` has been sent to slot `k`, and all that was on the stack is where it was. */
  ghost predicate OneMore(loc: seq<Location>, now: seq<Location>, v: nat, k: nat) {
    && |now| == |loc| && v < |loc| && loc[v].where != STACK && now[v] == Location(STACK, k)
    && forall a :: 0 <= a < |loc| && a != v ==>
         (now[a].where == STACK <==> loc[a].where == STACK) && (loc[a].where == STACK ==> now[a] == loc[a])
  }

  lemma PackedGrows(loc: seq<Location>, now: seq<Location>, v: nat, k: nat)
    requires Packed(loc, k) && OneMore(loc, now, v, k)
    ensures Packed(now, k + 1)
  {
    assert OnStack(now) == OnStack(loc) + {v};
    forall p: nat, a ensures Uses(now, p, a) <==> Uses(loc, p, a) || (a == v && p == k) {}
    forall p: nat | p < k + 1 ensures InUse(now, p) {
      if p == k {
        assert Uses(now, p, v);
      } else {
        assert InUse(loc, p);
        var a :| Uses(loc, p, a);
        assert Uses(now, p, a);
      }
    }
  }

  lemma SpillStack(rs: Input, n: nat, t: State, i: nat)
    requires i < |rs| && ListOk(rs, n, t, i) && LocOk(rs, n, t, i, Start(rs, i)) && |t.active| > 0
    ensures Spill(rs, t, i).nextSlot == t.nextSlot + 1
    ensures OneMore(t.loc, Spill(rs, t, i).loc, SpillVictim(rs, t, i), t.nextSlot)
  {
    SpillFurthest(rs, n, t, i);
    SpillMembers(rs, n, t, i);
    assert t.active[|t.active| - 1] in t.active;
    hide Spill, ByEnd;
  }

  lemma AssignStack(rs: Input, t: State, i: nat)
    requires InBounds(rs, t) && i < |rs| && t.loc[i].where == UNSET
    ensures var r := AddActive(rs, Assign(t, i), i);
      r.nextSlot == t.nextSlot && OnStack(r.loc) == OnStack(t.loc)
      && forall a :: a in OnStack(t.loc) ==> r.loc[a] == t.loc[a]
  {}

  /** What one step does to the stack. */
  lemma StackStep(rs: Input, n: nat, s: State, i: nat) returns (v: nat)
    requires Sorted(rs) && n > 0 && i < |rs| && ListOk(rs, n, s, i) && LocOk(rs, n, s, i, Now(rs, i))
    ensures var r := Process(rs, s, i);
      if |ExpireOld(rs, s, Start(rs, i)).active| == n then
        r.nextSlot == s.nextSlot + 1 && OneMore(s.loc, r.loc, v, s.nextSlot)
      else
        r.nextSlot == s.nextSlot && OnStack(r.loc) == OnStack(s.loc)
        && forall a :: a in OnStack(s.loc) ==> r.loc[a] == s.loc[a]
  {
    assert Now(rs, i) <= Start(rs, i);
    ExpireFacts(rs, n, s, i, Now(rs, i));
    var t := ExpireOld(rs, s, Start(rs, i));
    assert t.loc == s.loc && t.nextSlot == s.nextSlot;
    ActiveBound(rs, n, t, i);
    v := i;
    hide ExpireOld, ListOk, Spill, AddActive, Assign, SpillVictim, OneMore, OnStack, Sorted;
    if |t.active| == n {
      SpillStack(rs, n, t, i);
      v := SpillVictim(rs, t, i);
    } else {
      AssignStack(rs, t, i);
    }
  }

  lemma {:induction false} RunPacked(rs: Input, n: nat, i: nat)
    requires Sorted(rs) && n > 0 && i <= |rs|
    ensures Packed(Run(rs, n, i).loc, Run(rs, n, i).nextSlot)
    decreases i
  {
    hide Process, ListOk, LocOk, Packed;
    if i == 0 {
      NothingPacked(rs, n);
    } else {
      RunPacked(rs, n, i - 1);
      RunFacts(rs, n, i - 1);
      var s := Run(rs, n, i - 1);
      var v := StackStep(rs, n, s, i - 1);
      if |ExpireOld(rs, s, Start(rs, i - 1)).active| == n {
        PackedGrows(s.loc, Run(rs, n, i).loc, v, s.nextSlot);
      } else {
        PackedStays(s.loc, Run(rs, n, i).loc, s.nextSlot);
      }
    }
  }

  lemma NothingPacked(rs: Input, n: nat)
    ensures Packed(Initial(rs, n).loc, 0)
  {
    assert OnStack(Initial(rs, n).loc) == {};
  }

  lemma PackedStays(loc: seq<Location>, now: seq<Location>, k: nat)
    requires Packed(loc, k) && OnStack(now) == OnStack(loc) && forall a :: a in OnStack(loc) ==> now[a] == loc[a]
    ensures Packed(now, k)
  {
    forall p: nat, a ensures Uses(now, p, a) <==> Uses(loc, p, a) {}
    forall p: nat | p < k ensures InUse(now, p) {
      assert InUse(loc, p);
      var a :| Uses(loc, p, a);
      assert Uses(now, p, a);
    }
  }

  /** The frame has no holes: for every input and every number of registers, the stack slots in the
      final places are exactly `0` up to the number of spilled ranges, each once. */
  lemma SlotsArePacked(rs: Input, n: nat)
    requires Sorted(rs) && n > 0
    ensures var loc := Run(rs, n, |rs|).loc; Packed(loc, |OnStack(loc)|)
  {
    RunPacked(rs, n, |rs|);
  }

  // ---- When something is spilled -------------------------------------------------------------------

  /** The ranges before `i` that sit in registers and go on beyond the start of `i`. */
  function Holding(rs: Input, s: State, i: nat): set<nat>
    requires |s.loc| == |rs| && i < |rs|
  {
    set a | 0 <= a < i && s.loc[a].where == REGISTER && Start(rs, i) < End(rs, a)
  }

  lemma MembersBound(act: seq<nat>, c: set<nat>)
    requires forall a :: a in c ==> a in act
    ensures |c| <= |act|
  {
    if act != [] {
      MembersBound(act[1..], c - {act[0]});
    } else {
      assert c == {};
    }
  }

  lemma FullIffHeld(rs: Input, n: nat, s: State, i: nat)
    requires Sorted(rs) && n > 1 && i < |rs| && ListOk(rs, n, s, i) && LocOk(rs, n, s, i, Now(rs, i))
    ensures |ExpireOld(rs, s, Start(rs, i)).active| == n <==> |Holding(rs, s, i)| == n
  {
    assert Now(rs, i) <= Start(rs, i);
    ExpireElems(rs, s, Start(rs, i));
    ExpireFacts(rs, n, s, i, Now(rs, i));
    var t := ExpireOld(rs, s, Start(rs, i));
    assert t.loc == s.loc;
    ActiveBound(rs, n, t, i);
    hide ExpireOld;
    var c := Holding(rs, s, i);
    forall a | a in c ensures a in t.active {}
    MembersBound(t.active, c);
    if |t.active| == n {
      forall x | 0 <= x < |t.active| ensures t.active[x] in c {
        assert t.active[x] in t.active;
      }
      DistinctSize(t.active, c);
    }
  }

  /** With two registers or more a step sends something to the stack if and only if every register is held
      by a range that goes on beyond the start of the current one. */
  lemma SpillsIffAllHeld(rs: Input, n: nat, i: nat)
    requires Sorted(rs) && n > 1 && i < |rs|
    ensures var s, r := Run(rs, n, i), Run(rs, n, i + 1);
      && |OnStack(s.loc)| <= |OnStack(r.loc)| <= |OnStack(s.loc)| + 1
      && (|OnStack(s.loc)| < |OnStack(r.loc)| <==> |Holding(rs, s, i)| == n)
  {
    hide Process, ListOk, LocOk, Sorted;
    RunFacts(rs, n, i);
    RunPacked(rs, n, i);
    RunPacked(rs, n, i + 1);
    FullIffHeld(rs, n, Run(rs, n, i), i);
    var v := StackStep(rs, n, Run(rs, n, i), i);
  }

  // ---- Which register a range gets -----------------------------------------------------------------

  /** Register `p` is held by a range that goes on beyond the start of range `i`. */
  ghost predicate Taken(rs: Input, s: State, i: nat, p: nat)
    requires |s.loc| == |rs| && i < |rs|
  {
    exists a :: a in Holding(rs, s, i) && s.loc[a].slot == p
  }

  /** The marks say which registers are held. */
  lemma MarksOfExpired(rs: Input, n: nat, s: State, t: State, i: nat, p: nat)
    requires i < |rs| && |s.loc| == |rs| && t.loc == s.loc && p < n == |t.regMap| && AllActive(rs, s, t, i)
    requires InBounds(rs, t) && (forall a :: a in t.active ==> a < i && t.loc[a].where == REGISTER)
    requires (forall a :: a in t.active ==> Start(rs, i) < End(rs, a)) || forall q :: 0 <= q < n ==> !t.regMap[q]
    requires t.regMap[p] ==> exists a :: HeldBy(t, p, a)
    requires Exact(t) || Holding(rs, s, i) == {}
    ensures t.regMap[p] <==> Taken(rs, s, i, p)
  {
    if Taken(rs, s, i, p) {
      var a :| a in Holding(rs, s, i) && s.loc[a].slot == p;
      assert a in t.active;
    }
    if t.regMap[p] {
      var a :| HeldBy(t, p, a);
      assert a in Holding(rs, s, i);
    }
  }

  /** Ranges that hold a register are listed. */
  ghost predicate AllActive(rs: Input, s: State, t: State, i: nat)
    requires |s.loc| == |rs| && i < |rs|
  {
    forall a :: a in Holding(rs, s, i) ==> a in t.active
  }

  lemma HoldersListed(rs: Input, n: nat, s: State, t: State, i: nat)
    requires i < |rs| && |s.loc| == |rs| && t.loc == s.loc && LocOk(rs, n, t, i, Start(rs, i))
    ensures AllActive(rs, s, t, i)
  {}

  lemma OneExpired(rs: Input, s: State, t: State, i: nat)
    requires i < |rs| && |s.loc| == |rs| && AllActive(rs, s, t, i) && InBounds(rs, t)
    requires |t.active| == 1 && End(rs, t.active[0]) <= Start(rs, i)
    ensures Holding(rs, s, i) == {}
  {
    forall a ensures a !in Holding(rs, s, i) {
      assert a in t.active ==> a == t.active[0];
    }
  }

  /** After an expiry that did no harm they do. */
  lemma MarksAreTaken(rs: Input, n: nat, s: State, i: nat)
    requires Sorted(rs) && n > 1 && i < |rs| && ListOk(rs, n, s, i) && LocOk(rs, n, s, i, Now(rs, i))
    requires Mode(rs, n, s, i) && !Hazard(rs, s, i)
    ensures var t := ExpireOld(rs, s, Start(rs, i));
      |t.regMap| == n && forall p: nat :: p < n ==> (t.regMap[p] <==> Taken(rs, s, i, p))
  {
    assert Now(rs, i) <= Start(rs, i);
    var t := ExpireOld(rs, s, Start(rs, i));
    ExpireFacts(rs, n, s, i, Now(rs, i));
    ExpireMode(rs, n, s, i);
    assert t.loc == s.loc;
    HoldersListed(rs, n, s, t, i);
    hide ExpireOld, ByEnd, Hazard, Mode, LocOk, AllActive, Taken, Exact, Holding, Sorted;
    if !Exact(t) {
      OneExpired(rs, s, t, i);
    }
    forall p: nat | p < n ensures t.regMap[p] <==> Taken(rs, s, i, p) {
      MarksOfExpired(rs, n, s, t, i, p);
    }
  }

  lemma AssignPlaces(rs: Input, n: nat, t: State, i: nat)
    requires i < |rs| && ListOk(rs, n, t, i) && |t.active| < n
    ensures var p := FirstFree(t.regMap);
      AddActive(rs, Assign(t, i), i).loc == t.loc[i := Location(REGISTER, p)] && p < n && !t.regMap[p]
      && forall q: nat :: q < p ==> t.regMap[q]
  {
    FreeRegister(rs, n, t, i);
  }

  /** As long as nothing has gone wrong, a range that needs no spill gets the lowest register that no range
      going on beyond its start holds, and no other place changes. */
  lemma GetsLowestFree(rs: Input, n: nat, i: nat)
    requires Sorted(rs) && n > 1 && i < |rs| && forall j :: 0 <= j <= i ==> !HazardAt(rs, n, j)
    requires |Holding(rs, Run(rs, n, i), i)| < n
    ensures var s, r := Run(rs, n, i), Run(rs, n, i + 1);
      var p := r.loc[i].slot;
      && r.loc == s.loc[i := Location(REGISTER, p)] && p < n && !Taken(rs, s, i, p)
      && forall q: nat :: q < p ==> Taken(rs, s, i, q)
  {
    var s := Run(rs, n, i);
    RunFacts(rs, n, i);
    RunMode(rs, n, i);
    NoHazardAt(rs, n, i);
    RunStep(rs, n, i);
    hide Run, HazardAt;
    StepLowest(rs, n, s, i);
  }

  lemma StepLowest(rs: Input, n: nat, s: State, i: nat)
    requires Sorted(rs) && n > 1 && i < |rs| && ListOk(rs, n, s, i) && LocOk(rs, n, s, i, Now(rs, i))
    requires Mode(rs, n, s, i) && !Hazard(rs, s, i) && |Holding(rs, s, i)| < n
    ensures var r := Process(rs, s, i);
      var p := r.loc[i].slot;
      && r.loc == s.loc[i := Location(REGISTER, p)] && p < n && !Taken(rs, s, i, p)
      && forall q: nat :: q < p ==> Taken(rs, s, i, q)
  {
    FullIffHeld(rs, n, s, i);
    MarksAreTaken(rs, n, s, i);
    assert Now(rs, i) <= Start(rs, i);
    ExpireFacts(rs, n, s, i, Now(rs, i));
    var t := ExpireOld(rs, s, Start(rs, i));
    assert t.loc == s.loc;
    ActiveBound(rs, n, t, i);
    hide ExpireOld, ListOk, LocOk, Mode, Taken, Sorted, Holding, AddActive, Assign, Spill;
    AssignPlaces(rs, n, t, i);
  }

  // ---- Which range is spilled ----------------------------------------------------------------------

  /** Range `v` is the current one or holds a register, ends last of these, and goes to slot `k`; the current
      range takes over its register. */
  ghost predicate SpillsLast(rs: Input, s: State, r: State, i: nat, v: nat, k: nat)
    requires |s.loc| == |rs| && i < |rs|
  {
    && v < |rs| && (v == i || v in Holding(rs, s, i)) && |r.loc| == |rs|
    && (forall a :: a in Holding(rs, s, i) ==> End(rs, a) <= End(rs, v)) && End(rs, i) <= End(rs, v)
    && (v == i <==> forall a :: a in Holding(rs, s, i) ==> End(rs, a) <= End(rs, i))
    && r.loc[v] == Location(STACK, k) && (v != i ==> r.loc[i] == s.loc[v])
    && forall a :: 0 <= a < |rs| && a != v && a != i ==> r.loc[a] == s.loc[a]
  }

  /** A full list holds exactly the ranges that hold a register. */
  lemma FullListHolds(rs: Input, n: nat, s: State, t: State, i: nat)
    requires n > 1 && i < |rs| && ListOk(rs, n, t, i) && LocOk(rs, n, t, i, Start(rs, i)) && |t.active| == n
    requires |s.loc| == |rs| && t.loc == s.loc && forall a :: a in t.active ==> Start(rs, i) < End(rs, a)
    ensures forall a :: a in t.active <==> a in Holding(rs, s, i)
  {}

  lemma FullSpillsLast(rs: Input, n: nat, s: State, t: State, i: nat) returns (v: nat)
    requires i < |rs| && ListOk(rs, n, t, i) && |t.active| > 0 && |s.loc| == |rs| && t.loc == s.loc
    requires forall a :: a in t.active <==> a in Holding(rs, s, i)
    ensures SpillsLast(rs, s, Spill(rs, t, i), i, v, t.nextSlot)
  {
    SpillFurthest(rs, n, t, i);
    v := SpillVictim(rs, t, i);
    assert t.active[|t.active| - 1] in t.active;
    hide ListOk, Holding, Spill;
  }

  lemma StepSpillsLast(rs: Input, n: nat, s: State, i: nat) returns (v: nat)
    requires Sorted(rs) && n > 1 && i < |rs| && ListOk(rs, n, s, i) && LocOk(rs, n, s, i, Now(rs, i))
    requires |Holding(rs, s, i)| == n
    ensures SpillsLast(rs, s, Process(rs, s, i), i, v, s.nextSlot)
  {
    FullIffHeld(rs, n, s, i);
    assert Now(rs, i) <= Start(rs, i);
    ExpireElems(rs, s, Start(rs, i));
    ExpireFacts(rs, n, s, i, Now(rs, i));
    var t := ExpireOld(rs, s, Start(rs, i));
    assert t.loc == s.loc && t.nextSlot == s.nextSlot;
    ActiveBound(rs, n, t, i);
    hide ExpireOld, ByEnd, Sorted, Spill, ListOk, LocOk, Holding, SpillsLast, AddActive, Assign;
    FullListHolds(rs, n, s, t, i);
    v := FullSpillsLast(rs, n, s, t, i);
  }

  /** With two registers or more, when all of them are held, the range that ends last goes to the next stack
      slot: one of the holders, or the current range if no holder ends later. */
  lemma SpillsTheLast(rs: Input, n: nat, i: nat) returns (v: nat)
    requires Sorted(rs) && n > 1 && i < |rs| && |Holding(rs, Run(rs, n, i), i)| == n
    ensures SpillsLast(rs, Run(rs, n, i), Run(rs, n, i + 1), i, v, |OnStack(Run(rs, n, i).loc)|)
  {
    RunFacts(rs, n, i);
    RunPacked(rs, n, i);
    RunStep(rs, n, i);
    hide Run, Process, SpillsLast, ListOk, LocOk;
    v := StepSpillsLast(rs, n, Run(rs, n, i), i);
  }
}
