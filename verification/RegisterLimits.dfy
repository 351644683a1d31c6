/** Exactly when the linear-scan allocator, as written, keeps its promises. */
module RegisterLimits {
  import opened Ranges
  import opened LinearScan
  import opened RegisterSafety

  // ---- A hazard cannot be undone -------------------------------------------------------------------

  /** Two ranges that intersect are both in register 0. */
  ghost predicate Share(rs: Input, s: State, a: nat, b: nat) {
    && a < |rs| == |s.loc| && b < |rs| && a != b && s.loc[a] == s.loc[b] == Location(REGISTER, 0)
    && IfIntersect(rs[a].range, rs[b].range)
  }

  /** Two such ranges have ended, or both are listed and live. */
  ghost predicate BadPair(rs: Input, s: State, i: nat, a: nat, b: nat)
    requires i <= |rs|
  {
    && a < i && b < i && Share(rs, s, a, b)
    && ((End(rs, a) <= Now(rs, i) && End(rs, b) <= Now(rs, i))
        || (a in s.active && b in s.active && Now(rs, i) < End(rs, a) && Now(rs, i) < End(rs, b)))
  }

  /** After a hazard there is such a pair. */
  ghost predicate Broken(rs: Input, s: State, i: nat)
    requires i <= |rs|
  {
    exists a: nat, b: nat :: BadPair(rs, s, i, a, b)
  }

  lemma LiveIntersect(rs: Input, a: nat, i: nat)
    requires Sorted(rs) && a < i < |rs| && Start(rs, i) < End(rs, a) && Start(rs, i) < End(rs, i)
    ensures IfIntersect(rs[a].range, rs[i].range) && IfIntersect(rs[i].range, rs[a].range)
  {}

  /** A range that has ended keeps its place. */
  lemma EndedStays(rs: Input, n: nat, s: State, i: nat, a: nat)
    requires i < |rs| && ListOk(rs, n, s, i) && n > 0 && a < i && End(rs, a) <= Start(rs, i) < End(rs, i)
    ensures Process(rs, s, i).loc[a] == s.loc[a]
  {
    hide Release, ByEnd, AddActive, InsertAt, Expired;
  }

  lemma FewerActive(rs: Input, n: nat, s: State, start: nat, a: nat, b: nat)
    requires InBounds(rs, s) && ByEnd(rs, s.active) && a in s.active && b in s.active
    requires End(rs, a) <= start < End(rs, b)
    ensures var r := ExpireOld(rs, s, start);
      && |r.active| < |s.active| && b in r.active && r.loc == s.loc
      && (s.loc[a].slot < |r.regMap| ==> !r.regMap[s.loc[a].slot])
      && forall c :: c in r.active ==> c in s.active
  {
    ExpireElems(rs, s, start);
    var r := ExpireOld(rs, s, start);
    assert HeldBy(s, s.loc[a].slot, a);
    assert Expired(rs, s.active, start) > 0 by {
      var x :| 0 <= x < |s.active| && s.active[x] == a;
      assert End(rs, s.active[0]) <= End(rs, a);
    }
  }

  /** The next range gets register 0, which the live range `x` is in. */
  lemma GetsZero(rs: Input, n: nat, s: State, i: nat, x: nat)
    requires Sorted(rs) && n > 0 && i < |rs| && InBounds(rs, s) && ByEnd(rs, s.active) && i !in s.active
    requires |s.regMap| == n && !s.regMap[0] && x in s.active && x < i && s.loc[x] == Location(REGISTER, 0)
    requires Start(rs, i) < End(rs, x) && Start(rs, i) < End(rs, i)
    ensures Broken(rs, AddActive(rs, Assign(s, i), i), i + 1)
  {
    LiveIntersect(rs, x, i);
    assert FirstFree(s.regMap) == 0;
    AddActiveFacts(rs, Assign(s, i), i);
    var r := AddActive(rs, Assign(s, i), i);
    hide AddActive, ByEnd, Sorted;
    assert BadPair(rs, r, i + 1, x, i);
  }

  /** One of the pair expires. */
  lemma OneExpires(rs: Input, n: nat, s: State, i: nat, a: nat, b: nat)
    requires Sorted(rs) && n > 0 && i < |rs| && ListOk(rs, n, s, i) && Start(rs, i) < End(rs, i)
    requires a in s.active && b in s.active && Share(rs, s, a, b) && End(rs, a) <= Start(rs, i) < End(rs, b)
    ensures Broken(rs, Process(rs, s, i), i + 1)
  {
    hide ExpireOld, Sorted, ListOk, AddActive, ByEnd, Expired, Broken, Assign;
    ListFacts(rs, n, s, i);
    assert b < i && i !in s.active;
    FewerActive(rs, n, s, Start(rs, i), a, b);
    ExpiredSorted(rs, s, Start(rs, i));
    GetsZero(rs, n, ExpireOld(rs, s, Start(rs, i)), i, b);
  }

  lemma ListFacts(rs: Input, n: nat, s: State, i: nat)
    requires ListOk(rs, n, s, i)
    ensures InBounds(rs, s) && |s.regMap| == n && |s.active| <= n && ByEnd(rs, s.active)
    ensures forall a :: a in s.active ==> a < i
  {}

  lemma ExpiredSorted(rs: Input, s: State, start: nat)
    requires InBounds(rs, s) && ByEnd(rs, s.active)
    ensures ByEnd(rs, ExpireOld(rs, s, start).active)
  {
    ExpireElems(rs, s, start);
  }

  /** Both stay live: the pair stays, or the current range takes the place of the one that is spilled. */
  lemma BothLive(rs: Input, n: nat, s: State, i: nat, a: nat, b: nat)
    requires Sorted(rs) && n > 0 && i < |rs| && ListOk(rs, n, s, i) && LocOk(rs, n, s, i, Now(rs, i))
    requires Start(rs, i) < End(rs, i) && a in s.active && b in s.active && Share(rs, s, a, b)
    requires Start(rs, i) < End(rs, a) && Start(rs, i) < End(rs, b)
    ensures Broken(rs, Process(rs, s, i), i + 1)
  {
    assert Now(rs, i) <= Start(rs, i);
    ExpireElems(rs, s, Start(rs, i));
    ExpireFacts(rs, n, s, i, Now(rs, i));
    var s1 := ExpireOld(rs, s, Start(rs, i));
    assert s1.loc == s.loc && a in s1.active && b in s1.active && a < i && b < i;
    LiveIntersect(rs, a, i);
    LiveIntersect(rs, b, i);
    hide ExpireOld, Sorted, LocOk, ByEnd, Expiry, Assign, AddActive, Spill;
    if |s1.active| == n {
      PairSpill(rs, n, s1, i, a, b);
    } else {
      PairAssign(rs, n, s1, i, a, b);
    }
  }

  lemma PairAssign(rs: Input, n: nat, s: State, i: nat, a: nat, b: nat)
    requires i < |rs| && ListOk(rs, n, s, i) && |s.active| < n && Share(rs, s, a, b) && a in s.active && b in s.active
    requires Start(rs, i) < End(rs, a) && Start(rs, i) < End(rs, b)
    ensures Broken(rs, AddActive(rs, Assign(s, i), i), i + 1)
  {
    AddActiveFacts(rs, Assign(s, i), i);
    var r := AddActive(rs, Assign(s, i), i);
    hide AddActive, ByEnd;
    assert r.loc[a] == s.loc[a] && r.loc[b] == s.loc[b] && Now(rs, i + 1) == Start(rs, i);
    assert BadPair(rs, r, i + 1, a, b);
  }

  lemma PairSpill(rs: Input, n: nat, s: State, i: nat, a: nat, b: nat)
    requires i < |rs| && ListOk(rs, n, s, i) && |s.active| == n && Share(rs, s, a, b) && a in s.active && b in s.active
    requires Start(rs, i) < End(rs, i) && Start(rs, i) < End(rs, a) && Start(rs, i) < End(rs, b)
    requires IfIntersect(rs[a].range, rs[i].range) && IfIntersect(rs[b].range, rs[i].range)
    ensures Broken(rs, Spill(rs, s, i), i + 1)
  {
    hide Spill, SpillVictim, ByEnd, ListOk;
    ListFacts(rs, n, s, i);
    var v := SpillVictim(rs, s, i);
    var r := Spill(rs, s, i);
    SpillFurthest(rs, n, s, i);
    SpillMembers(rs, n, s, i);
    assert i !in s.active && Now(rs, i + 1) == Start(rs, i);
    if v == a {
      assert BadPair(rs, r, i + 1, b, i);
    } else if v == b {
      assert BadPair(rs, r, i + 1, a, i);
    } else {
      assert BadPair(rs, r, i + 1, a, b);
    }
  }

  lemma BrokenStep(rs: Input, n: nat, s: State, i: nat)
    requires Sorted(rs) && n > 0 && i < |rs| && ListOk(rs, n, s, i) && LocOk(rs, n, s, i, Now(rs, i))
    requires Start(rs, i) < End(rs, i) && Broken(rs, s, i)
    ensures Broken(rs, Process(rs, s, i), i + 1)
  {
    var a: nat, b: nat :| BadPair(rs, s, i, a, b);
    var start := Start(rs, i);
    assert Now(rs, i) <= start == Now(rs, i + 1);
    hide ListOk, LocOk, Process, Sorted, Broken;
    if End(rs, a) <= start && End(rs, b) <= start {
      EndedStays(rs, n, s, i, a);
      EndedStays(rs, n, s, i, b);
      BothEnded(rs, s, Process(rs, s, i), i, a, b);
    } else if End(rs, a) <= start {
      OneExpires(rs, n, s, i, a, b);
    } else if End(rs, b) <= start {
      OneExpires(rs, n, s, i, b, a);
    } else {
      BothLive(rs, n, s, i, a, b);
    }
  }

  lemma BothEnded(rs: Input, s: State, r: State, i: nat, a: nat, b: nat)
    requires i < |rs| && a < i && b < i && Share(rs, s, a, b) && |r.loc| == |s.loc|
    requires r.loc[a] == s.loc[a] && r.loc[b] == s.loc[b]
    requires End(rs, a) <= Start(rs, i) && End(rs, b) <= Start(rs, i)
    ensures Broken(rs, r, i + 1)
  {
    assert BadPair(rs, r, i + 1, a, b);
  }

  /** A hazard makes two intersecting ranges share register 0. */
  lemma HazardBreaks(rs: Input, n: nat, s: State, i: nat)
    requires Sorted(rs) && n > 0 && i < |rs| && ListOk(rs, n, s, i) && Mode(rs, n, s, i)
    requires Hazard(rs, s, i) && Start(rs, i) < End(rs, i)
    ensures Broken(rs, Process(rs, s, i), i + 1)
  {
    HazardFrees(rs, n, s, i);
    ListFacts(rs, n, s, i);
    var x := s.active[1];
    assert x in s.active && s.loc[x].where == REGISTER;
    ExpiredSorted(rs, s, Start(rs, i));
    hide ListOk, Mode, Hazard, Sorted, ExpireOld, AddActive, Broken, ByEnd, Assign;
    GetsZero(rs, n, ExpireOld(rs, s, Start(rs, i)), i, x);
  }

  lemma HazardNow(rs: Input, n: nat, j: nat)
    requires n > 0 && j < |rs| && HazardAt(rs, n, j)
    ensures Hazard(rs, Run(rs, n, j), j)
  {}

  lemma {:induction false} StaysBroken(rs: Input, n: nat, j: nat, i: nat)
    requires Sorted(rs) && n > 0 && j < i <= |rs| && HazardAt(rs, n, j)
    requires forall k :: 0 <= k < j ==> !HazardAt(rs, n, k)
    requires forall a :: 0 <= a < |rs| ==> Start(rs, a) < End(rs, a)
    ensures Broken(rs, Run(rs, n, i), i)
    decreases i
  {
    hide Run, ListOk, LocOk, Mode, Process, Hazard, Sorted, Broken, NoClash;
    RunFacts(rs, n, i - 1);
    RunStep(rs, n, i - 1);
    if i == j + 1 {
      RunMode(rs, n, j);
      HazardNow(rs, n, j);
      HazardBreaks(rs, n, Run(rs, n, j), j);
    } else {
      StaysBroken(rs, n, j, i - 1);
      BrokenStep(rs, n, Run(rs, n, i - 1), i - 1);
    }
  }

  lemma BrokenClashes(rs: Input, s: State)
    requires |s.loc| == |rs| && Broken(rs, s, |rs|)
    ensures !NoClash(rs, s, |rs|)
  {
    var a: nat, b: nat :| BadPair(rs, s, |rs|, a, b);
    var x, y := if a < b then a else b, if a < b then b else a;
    assert IfIntersect(rs[x].range, rs[y].range) && s.loc[x].slot == s.loc[y].slot;
  }

  /** No step meets the guard. */
  ghost predicate NoHazard(rs: Input, n: nat)
    requires n > 0
  {
    forall j :: 0 <= j < |rs| ==> !HazardAt(rs, n, j)
  }

  /** The allocator's promise, exactly: every range has a place, and intersecting ranges have different
      places if and only if no step meets the guard. */
  lemma AllocationSound(rs: Input, n: nat)
    requires Sorted(rs) && n > 0 && forall a :: 0 <= a < |rs| ==> Start(rs, a) < End(rs, a)
    ensures Placed(Run(rs, n, |rs|).loc, n)
    ensures Separated(rs, Run(rs, n, |rs|).loc) <==> NoHazard(rs, n)
  {
    hide Run, HazardAt, Sorted, Mode, NoClash, Separated, Placed, Broken;
    SeparatedIff(rs, n);
    if NoHazard(rs, n) {
      RunMode(rs, n, |rs|);
    } else {
      var j := FirstHazard(rs, n);
      StaysBroken(rs, n, j, |rs|);
      BrokenClashes(rs, Run(rs, n, |rs|));
    }
  }

  // ---- Conditions on the ranges --------------------------------------------------------------------

  /** All earlier ranges have ended when range `g` starts. */
  predicate Gap(rs: Input, g: nat)
    requires g < |rs|
  {
    g > 0 && forall a :: 0 <= a < g ==> End(rs, a) <= Start(rs, g)
  }

  /** No point is covered by more than `n` ranges. */
  ghost predicate NoPressure(rs: Input, n: nat) {
    forall pt: nat :: |Covering(rs, pt)| <= n
  }

  /** No range that starts after a gap overlaps the next one. */
  predicate NoGapThenOverlap(rs: Input) {
    forall g :: 0 <= g < |rs| - 1 && Gap(rs, g) ==> End(rs, g) <= Start(rs, g + 1)
  }

  /** A first hazard, while nothing is on the stack, comes right after a gap, and the ranges after the gap
      overlap. */
  lemma HazardMeansGap(rs: Input, n: nat, i: nat)
    requires Sorted(rs) && n > 0 && i < |rs| && HazardAt(rs, n, i) && forall j :: 0 <= j < i ==> !HazardAt(rs, n, j)
    requires AllInRegisters(Run(rs, n, i), i)
    ensures i > 1 && Gap(rs, i - 1) && Start(rs, i) < End(rs, i - 1)
  {
    hide Run, ListOk, LocOk, Mode, NoClash, Hazard, Sorted, AllInRegisters, Gap;
    RunMode(rs, n, i);
    RunFacts(rs, n, i);
    HazardNow(rs, n, i);
    GapBefore(rs, n, Run(rs, n, i), i);
  }

  lemma HazardIsRetained(rs: Input, n: nat, s: State, i: nat)
    requires ListOk(rs, n, s, i) && Mode(rs, n, s, i) && i < |rs| && Hazard(rs, s, i)
    ensures i > 1 && s.active == [s.active[0], i - 1] && s.active[0] < i - 1 && End(rs, s.active[0]) <= Now(rs, i)
    ensures Start(rs, i) < End(rs, i - 1)
  {
    hide ByEnd;
    assert s.active[0] in s.active && s.active[1] in s.active;
  }

  lemma GapBefore(rs: Input, n: nat, s: State, i: nat)
    requires ListOk(rs, n, s, i) && LocOk(rs, n, s, i, Now(rs, i)) && Mode(rs, n, s, i)
    requires i < |rs| && Hazard(rs, s, i) && AllInRegisters(s, i)
    ensures i > 1 && Gap(rs, i - 1) && Start(rs, i) < End(rs, i - 1)
  {
    HazardIsRetained(rs, n, s, i);
    hide ListOk, Mode, Hazard;
    forall a | 0 <= a < i - 1 ensures End(rs, a) <= Start(rs, i - 1) {
      assert a in s.active ==> a == s.active[0];
    }
  }

  /** Ranges without pressure and without an overlap right after a gap are allocated rightly; in particular
      ranges without any gap. */
  lemma NoGapNoHazard(rs: Input, n: nat)
    requires Sorted(rs) && n > 0 && forall a :: 0 <= a < |rs| ==> Start(rs, a) < End(rs, a)
    requires NoPressure(rs, n) && NoGapThenOverlap(rs)
    ensures NoHazard(rs, n)
  {
    hide Run, HazardAt, Sorted, AllInRegisters;
    if !NoHazard(rs, n) {
      var i := FirstHazard(rs, n);
      if n > 1 {
        NoSpillRun(rs, n, i);
        HazardMeansGap(rs, n, i);
      } else {
        OneHasNoHazard(rs, i);
      }
    }
  }

  lemma OneHasNoHazard(rs: Input, i: nat)
    requires Sorted(rs) && i < |rs|
    ensures !HazardAt(rs, 1, i)
  {
    RunFacts(rs, 1, i);
  }

  // ---- The marks -----------------------------------------------------------------------------------

  /** Exactly the registers of the ranges in `act` are marked, and they are pairwise different. */
  ghost predicate MarksAre(s: State, act: seq<nat>)
    requires forall x :: 0 <= x < |act| ==> act[x] < |s.loc|
  {
    && (forall p :: 0 <= p < |s.regMap| ==> (s.regMap[p] <==> exists x :: 0 <= x < |act| && s.loc[act[x]].slot == p))
    && (forall x, y :: 0 <= x < y < |act| ==> s.loc[act[x]].slot != s.loc[act[y]].slot)
  }

  lemma ExactMarks(rs: Input, n: nat, s: State, i: nat)
    requires ListOk(rs, n, s, i) && Exact(s)
    ensures MarksAre(s, s.active)
  {
    hide ByEnd;
    assert forall x, y :: 0 <= x < y < |s.active| ==> s.active[x] != s.active[y] by {
      ListFacts(rs, n, s, i);
      DistinctByEnd(rs, s.active);
    }
    forall p | 0 <= p < |s.regMap| && s.regMap[p]
      ensures exists x :: 0 <= x < |s.active| && s.loc[s.active[x]].slot == p {
      var a :| HeldBy(s, p, a);
      var x :| 0 <= x < |s.active| && s.active[x] == a;
    }
  }

  lemma DistinctByEnd(rs: Input, act: seq<nat>)
    requires (forall j :: 0 <= j < |act| ==> act[j] < |rs|) && ByEnd(rs, act)
    ensures forall x, y :: 0 <= x < y < |act| ==> act[x] != act[y]
  {}

  lemma RetainedMarks(rs: Input, n: nat, s: State, i: nat)
    requires ListOk(rs, n, s, i) && Retained(rs, n, s, i)
    ensures MarksAre(s, s.active[1..]) && End(rs, s.active[0]) <= Now(rs, i)
  {
    hide ByEnd, ListOk;
    if n > 1 {
      assert s.active[1..] == [s.active[1]];
    }
  }

  /** Up to a hazard, `reg_map_` marks exactly the registers of the active ranges, except that one range at the
      front may have ended and have been released. */
  lemma RunMarks(rs: Input, n: nat, i: nat)
    requires Sorted(rs) && n > 0 && i <= |rs| && forall j :: 0 <= j < i ==> !HazardAt(rs, n, j)
    ensures var s := Run(rs, n, i);
      || MarksAre(s, s.active)
      || (|s.active| > 0 && End(rs, s.active[0]) <= Now(rs, i) && MarksAre(s, s.active[1..]))
  {
    RunMode(rs, n, i);
    RunFacts(rs, n, i);
    var s := Run(rs, n, i);
    hide Run, HazardAt, Exact, Retained, ListOk, NoClash;
    if Exact(s) {
      ExactMarks(rs, n, s, i);
    } else {
      RetainedMarks(rs, n, s, i);
    }
    ListFacts(rs, n, s, i);
  }

  // ---- Spilling under no pressure --------------------------------------------------------------------

  /** One register: range 0 keeps it, and everything else goes to the stack. */
  ghost predicate OnlyFirst(rs: Input, s: State, i: nat)
    requires i <= |rs|
  {
    && InBounds(rs, s) && s.active == [0] && 0 < i && s.loc[0].where == REGISTER && |s.regMap| == 1
    && forall a :: 0 < a < i ==> s.loc[a].where == STACK
  }

  lemma FirstOfOne(rs: Input)
    requires |rs| > 0
    ensures OnlyFirst(rs, Run(rs, 1, 1), 1)
  {
    var s := Initial(rs, 1);
    assert Run(rs, 1, 0) == s;
    RunStep(rs, 1, 0);
    hide Run;
    assert ExpireOld(rs, s, Start(rs, 0)) == s;
    hide ExpireOld;
    assert FirstFree(s.regMap) == 0;
    assert [][..0] + [0] + [][0..] == [0];
  }

  /** Without pressure range 0 has ended when another one starts. */
  lemma FirstHasEnded(rs: Input, i: nat)
    requires Sorted(rs) && 0 < i < |rs| && NoPressure(rs, 1) && Start(rs, i) < End(rs, i)
    ensures End(rs, 0) <= Start(rs, i)
  {
    if Start(rs, i) < End(rs, 0) {
      var c := Covering(rs, Start(rs, i));
      assert 0 in c && i in c;
      DistinctSize([0, i], c);
    }
  }

  lemma OneRegisterNext(rs: Input, s: State, i: nat)
    requires Sorted(rs) && i < |rs| && OnlyFirst(rs, s, i) && End(rs, 0) <= Start(rs, i)
    ensures OnlyFirst(rs, Process(rs, s, i), i + 1)
  {
    OneRegisterStep(rs, s, i);
    var start := Start(rs, i);
    assert Expired(rs, s.active, start) == 1;
    var s1 := ExpireOld(rs, s, start);
    assert s1.loc == s.loc && s1.active == [0];
    hide ExpireOld, Expired;
  }

  lemma {:induction false} OneRegisterRun(rs: Input, i: nat)
    requires Sorted(rs) && 0 < i <= |rs| && NoPressure(rs, 1)
    requires forall a :: 0 <= a < |rs| ==> Start(rs, a) < End(rs, a)
    ensures OnlyFirst(rs, Run(rs, 1, i), i)
    decreases i
  {
    hide Run, OnlyFirst, Process, Sorted, NoPressure;
    if i == 1 {
      FirstOfOne(rs);
    } else {
      OneRegisterRun(rs, i - 1);
      FirstHasEnded(rs, i - 1);
      RunStep(rs, 1, i - 1);
      OneRegisterNext(rs, Run(rs, 1, i - 1), i - 1);
    }
  }

  /** Spilling only under real pressure, exactly: if no point is covered by more ranges than there are
      registers, everything is in a register if and only if there are two registers or at most one range. */
  lemma NoPressureNoSpillIff(rs: Input, n: nat)
    requires Sorted(rs) && n > 0 && NoPressure(rs, n)
    requires forall a :: 0 <= a < |rs| ==> Start(rs, a) < End(rs, a)
    ensures (forall a :: 0 <= a < |rs| ==> Run(rs, n, |rs|).loc[a].where == REGISTER) <==> n > 1 || |rs| <= 1
  {
    hide Run, Process, Sorted;
    if n > 1 {
      NoSpillRun(rs, n, |rs|);
    } else if |rs| > 0 {
      OneRegisterRun(rs, |rs|);
      assert |rs| > 1 ==> Run(rs, 1, |rs|).loc[1].where == STACK;
    }
  }

  /** With one register and no pressure exactly the first range gets it. */
  lemma OneRegisterNoPressure(rs: Input, a: nat)
    requires Sorted(rs) && a < |rs| && NoPressure(rs, 1)
    requires forall a :: 0 <= a < |rs| ==> Start(rs, a) < End(rs, a)
    ensures Run(rs, 1, |rs|).loc[a].where == if a == 0 then REGISTER else STACK
  {
    OneRegisterRun(rs, |rs|);
    hide Run;
  }

  /** Two values one after the other. */
  const ONE_AFTER_THE_OTHER: Input := [LiveRange(Range(2, 4), 0), LiveRange(Range(4, 6), 1)]

  /** They need one register, and still the second goes to the stack. */
  lemma OneRegisterExample()
    ensures Sorted(ONE_AFTER_THE_OTHER) && NoPressure(ONE_AFTER_THE_OTHER, 1)
    ensures Run(ONE_AFTER_THE_OTHER, 1, 2).loc[1].where == STACK
  {
    var rs := ONE_AFTER_THE_OTHER;
    forall pt: nat ensures |Covering(rs, pt)| <= 1 {
      var c := Covering(rs, pt);
      if 0 in c {
        assert c <= {0};
        DistinctBound(c, {0});
      } else {
        assert c <= {1};
        DistinctBound(c, {1});
      }
    }
    OneRegisterNoPressure(rs, 1);
  }

  lemma DistinctBound(c: set<nat>, d: set<nat>)
    requires c <= d
    ensures |c| <= |d|
  {
    assert d == c + (d - c);
  }
}
