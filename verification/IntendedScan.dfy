/** Linear scan with the expiry that pass/linear_scan.cpp:109-123 is meant to carry out: exactly the expired
    prefix of the active list is released and erased. */
module IntendedScan {
  import opened Ranges
  import opened LinearScan
  import opened RegisterSafety
  import opened RegisterLimits

  function ExpirePrefix(rs: Input, s: State, start: nat): (r: State)
    requires InBounds(rs, s)
    ensures InBounds(rs, r) && |r.regMap| == |s.regMap| && r.loc == s.loc && r.nextSlot == s.nextSlot
  {
    var k := Expired(rs, s.active, start);
    s.(active := s.active[k..], regMap := Release(s.regMap, s.loc, s.active[..k]))
  }

  function ProcessIntended(rs: Input, s: State, i: nat): (r: State)
    requires InBounds(rs, s) && i < |rs| && |s.regMap| > 0
    ensures InBounds(rs, r) && |r.regMap| == |s.regMap|
  {
    var s1 := ExpirePrefix(rs, s, rs[i].range.start);
    if |s1.active| == |s1.regMap| then Spill(rs, s1, i) else AddActive(rs, Assign(s1, i), i)
  }

  function RunIntended(rs: Input, n: nat, i: nat): (s: State)
    requires n > 0 && i <= |rs|
    ensures InBounds(rs, s) && |s.regMap| == n
  {
    if i == 0 then Initial(rs, n) else ProcessIntended(rs, RunIntended(rs, n, i - 1), i - 1)
  }

  /** Exactly the live ranges stay listed. */
  ghost predicate LiveOnes(rs: Input, act: seq<nat>, left: seq<nat>, start: nat)
    requires forall x :: 0 <= x < |act| ==> act[x] < |rs|
  {
    |left| <= |act| && forall a :: a in left <==> a in act && start < End(rs, a)
  }

  /** Exactly the registers of the others are released. */
  ghost predicate OthersReleased(rs: Input, s: State, marks: seq<bool>, start: nat)
    requires InBounds(rs, s)
  {
    && |marks| == |s.regMap|
    && forall p :: 0 <= p < |marks| ==>
         (marks[p] <==> s.regMap[p] && forall a :: HeldBy(s, p, a) ==> start < End(rs, a))
  }

  lemma SuffixLive(rs: Input, act: seq<nat>, k: nat, start: nat)
    requires k <= |act| && (forall x :: 0 <= x < |act| ==> act[x] < |rs|)
    requires forall j :: 0 <= j < k ==> End(rs, act[j]) <= start
    requires forall j :: k <= j < |act| ==> start < End(rs, act[j])
    ensures LiveOnes(rs, act, act[k..], start)
  {
    SuffixFacts(rs, act, k, k, start);
    forall a | a in act[k..] ensures start < End(rs, a) {
      var j :| 0 <= j < |act[k..]| && act[k..][j] == a;
      assert act[k + j] == a;
    }
  }

  lemma PrefixReleased(rs: Input, s: State, k: nat, start: nat)
    requires InBounds(rs, s) && k <= |s.active|
    requires forall j :: 0 <= j < k ==> End(rs, s.active[j]) <= start
    requires forall j :: k <= j < |s.active| ==> start < End(rs, s.active[j])
    ensures OthersReleased(rs, s, Release(s.regMap, s.loc, s.active[..k]), start)
  {
    hide Release;
    forall p | 0 <= p < |s.regMap|
      ensures Release(s.regMap, s.loc, s.active[..k])[p] <==>
                s.regMap[p] && forall a :: HeldBy(s, p, a) ==> start < End(rs, a)
    {
      ReleasedExactly(rs, s, start, k, p);
    }
  }

  lemma PrefixElems(rs: Input, s: State, start: nat)
    requires InBounds(rs, s) && ByEnd(rs, s.active)
    ensures var r := ExpirePrefix(rs, s, start);
      ByEnd(rs, r.active) && LiveOnes(rs, s.active, r.active, start) && OthersReleased(rs, s, r.regMap, start)
  {
    var k := Expired(rs, s.active, start);
    SuffixSorted(rs, s.active, k, k, start);
    hide LiveOnes, OthersReleased, Release, ByEnd;
    SuffixLive(rs, s.active, k, start);
    PrefixReleased(rs, s, k, start);
  }

  /** Between steps: the lists are in order, and exactly the registers of the active ranges are marked. */
  ghost predicate Good(rs: Input, n: nat, s: State, i: nat, now: nat) {
    ListOk(rs, n, s, i) && LocOk(rs, n, s, i, now) && Exact(s)
  }

  lemma PrefixGood(rs: Input, n: nat, s: State, i: nat)
    requires Sorted(rs) && i < |rs| && Good(rs, n, s, i, Now(rs, i))
    ensures var r := ExpirePrefix(rs, s, Start(rs, i));
      Good(rs, n, r, i, Start(rs, i)) && forall a :: a in r.active ==> Start(rs, i) < End(rs, a)
  {
    ListFacts(rs, n, s, i);
    assert Now(rs, i) <= Start(rs, i);
    hide ExpirePrefix, ByEnd, Sorted, OthersReleased, ListOk, LocOk, Exact;
    PrefixElems(rs, s, Start(rs, i));
    var r := ExpirePrefix(rs, s, Start(rs, i));
    LeftListOk(rs, n, s, r, i);
    LeftLocOk(rs, n, s, r, i);
    LeftExact(rs, n, s, r, i);
  }

  lemma LeftListOk(rs: Input, n: nat, s: State, r: State, i: nat)
    requires i < |rs| && ListOk(rs, n, s, i) && InBounds(rs, r) && ByEnd(rs, r.active) && r.loc == s.loc
    requires LiveOnes(rs, s.active, r.active, Start(rs, i)) && OthersReleased(rs, s, r.regMap, Start(rs, i))
    ensures ListOk(rs, n, r, i)
  {
    hide ByEnd;
    forall p | 0 <= p < n && r.regMap[p] ensures exists a :: HeldBy(r, p, a) {
      var a :| HeldBy(s, p, a);
      assert HeldBy(r, p, a);
    }
  }

  lemma LeftLocOk(rs: Input, n: nat, s: State, r: State, i: nat)
    requires i < |rs| && ListOk(rs, n, s, i) && LocOk(rs, n, s, i, Now(rs, i)) && Now(rs, i) <= Start(rs, i)
    requires r.loc == s.loc && r.nextSlot == s.nextSlot && LiveOnes(rs, s.active, r.active, Start(rs, i))
    ensures LocOk(rs, n, r, i, Start(rs, i))
  {
    hide ByEnd;
  }

  lemma LeftExact(rs: Input, n: nat, s: State, r: State, i: nat)
    requires i < |rs| && ListOk(rs, n, s, i) && Exact(s) && r.loc == s.loc
    requires LiveOnes(rs, s.active, r.active, Start(rs, i)) && OthersReleased(rs, s, r.regMap, Start(rs, i))
    ensures Exact(r)
  {
    hide ByEnd;
    forall a | a in r.active ensures r.regMap[s.loc[a].slot] {
      forall b | HeldBy(s, s.loc[a].slot, b) ensures b == a {}
    }
  }

  lemma AssignGood(rs: Input, n: nat, s: State, i: nat)
    requires Sorted(rs) && i < |rs| && Good(rs, n, s, i, Start(rs, i)) && |s.active| < n
    ensures var r := AddActive(rs, Assign(s, i), i);
      && Good(rs, n, r, i + 1, Start(rs, i)) && i in r.active
      && forall a :: 0 <= a < i ==> r.loc[a] == s.loc[a]
  {
    hide ListOk, LocOk, AddActive, ByEnd, Sorted, Exact;
    AssignFacts(rs, n, s, i);
    FreeRegister(rs, n, s, i);
    ListFacts(rs, n, s, i);
    AddActiveFacts(rs, Assign(s, i), i);
    ExactExtend(s, AddActive(rs, Assign(s, i), i), i, FirstFree(s.regMap));
  }

  lemma VictimIs(rs: Input, s: State, i: nat)
    requires InBounds(rs, s) && i < |rs| && |s.active| > 0
    ensures SpillVictim(rs, s, i) == i ==> Spill(rs, s, i) == ToStack(s, i)
    ensures SpillVictim(rs, s, i) != i ==> SpillVictim(rs, s, i) in s.active
  {}

  lemma SpillGood(rs: Input, n: nat, s: State, i: nat)
    requires Sorted(rs) && i < |rs| && Good(rs, n, s, i, Start(rs, i)) && |s.active| == n > 0
    ensures var r := Spill(rs, s, i);
      && Good(rs, n, r, i + 1, Start(rs, i)) && (r.loc[i].where == REGISTER ==> i in r.active)
      && forall a :: 0 <= a < i ==> r.loc[a] == s.loc[a] || r.loc[a].where == STACK
  {
    hide ListOk, LocOk, Spill, SpillVictim, ByEnd, Sorted;
    SpillFacts(rs, n, s, i);
    SpillFurthest(rs, n, s, i);
    SpillMembers(rs, n, s, i);
    ListFacts(rs, n, s, i);
    VictimIs(rs, s, i);
    var v := SpillVictim(rs, s, i);
    var r := Spill(rs, s, i);
    if v != i {
      ExactReplace(s, r, v, i);
    }
  }

  lemma StepGood(rs: Input, n: nat, s: State, i: nat)
    requires Sorted(rs) && n > 0 && i < |rs| && Good(rs, n, s, i, Now(rs, i)) && NoClash(rs, s, i)
    ensures var r := ProcessIntended(rs, s, i); Good(rs, n, r, i + 1, Now(rs, i + 1)) && NoClash(rs, r, i + 1)
  {
    PrefixGood(rs, n, s, i);
    var s1, r := ExpirePrefix(rs, s, Start(rs, i)), ProcessIntended(rs, s, i);
    ListFacts(rs, n, s1, i);
    assert NoClash(rs, s1, i);
    if |s1.active| == n {
      SpillGood(rs, n, s1, i);
    } else {
      AssignGood(rs, n, s1, i);
    }
    hide ListOk, LocOk, ExpirePrefix, Spill, AddActive, Assign, NoClash, Sorted, ProcessIntended, Exact;
    ClashStep(rs, n, s1, r, i);
  }

  lemma StartGood(rs: Input, n: nat)
    requires n > 0
    ensures Good(rs, n, Initial(rs, n), 0, 0) && NoClash(rs, Initial(rs, n), 0)
  {}

  lemma {:induction false} RunGood(rs: Input, n: nat, i: nat)
    requires Sorted(rs) && n > 0 && i <= |rs|
    ensures Good(rs, n, RunIntended(rs, n, i), i, Now(rs, i)) && NoClash(rs, RunIntended(rs, n, i), i)
    decreases i
  {
    hide Good, NoClash, ProcessIntended, Sorted;
    if i == 0 {
      StartGood(rs, n);
    } else {
      RunGood(rs, n, i - 1);
      StepGood(rs, n, RunIntended(rs, n, i - 1), i - 1);
    }
  }

  /** With the expiry as intended, for every input and every number of registers: every range has a place,
      ranges that intersect have different places, and after every step exactly the registers of the active
      ranges are marked. */
  lemma IntendedIsSound(rs: Input, n: nat, i: nat)
    requires Sorted(rs) && n > 0 && i <= |rs|
    ensures Placed(RunIntended(rs, n, |rs|).loc, n) && Separated(rs, RunIntended(rs, n, |rs|).loc)
    ensures MarksAre(RunIntended(rs, n, i), RunIntended(rs, n, i).active)
  {
    hide RunIntended, Sorted, ListOk, Exact;
    RunGood(rs, n, |rs|);
    RunGood(rs, n, i);
    ExactMarks(rs, n, RunIntended(rs, n, i), i);
  }

  lemma IntendedNoSpill(rs: Input, n: nat, s: State, i: nat)
    requires Sorted(rs) && n > 0 && i < |rs| && Good(rs, n, s, i, Now(rs, i)) && AllInRegisters(s, i)
    requires Start(rs, i) < End(rs, i) && |Covering(rs, Start(rs, i))| <= n
    ensures AllInRegisters(ProcessIntended(rs, s, i), i + 1)
  {
    PrefixGood(rs, n, s, i);
    var s1 := ExpirePrefix(rs, s, Start(rs, i));
    ListFacts(rs, n, s1, i);
    assert AllInRegisters(s1, i);
    hide ListOk, LocOk, ExpirePrefix, Sorted, AllInRegisters, Covering, Exact, AddActive, Assign;
    if |s1.active| == n {
      FullListIsPressure(rs, n, s1, i);
    }
    AssignInRegisters(rs, n, s1, i);
  }

  lemma {:induction false} IntendedRegisters(rs: Input, n: nat, i: nat)
    requires Sorted(rs) && n > 0 && i <= |rs| && NoPressure(rs, n)
    requires forall a :: 0 <= a < |rs| ==> Start(rs, a) < End(rs, a)
    ensures AllInRegisters(RunIntended(rs, n, i), i)
    decreases i
  {
    hide Good, NoClash, ProcessIntended, Sorted, AllInRegisters, Covering;
    if i > 0 {
      IntendedRegisters(rs, n, i - 1);
      RunGood(rs, n, i - 1);
      IntendedNoSpill(rs, n, RunIntended(rs, n, i - 1), i - 1);
    } else {
      NoneYet(rs, n);
    }
  }

  lemma NoneYet(rs: Input, n: nat)
    requires n > 0
    ensures AllInRegisters(RunIntended(rs, n, 0), 0)
  {}

  /** With the expiry as intended nothing is spilled unless some point is covered by more ranges than there are
      registers, for one register as well. */
  lemma IntendedSpillsUnderPressure(rs: Input, n: nat)
    requires Sorted(rs) && n > 0 && NoPressure(rs, n)
    requires forall a :: 0 <= a < |rs| ==> Start(rs, a) < End(rs, a)
    ensures forall a :: 0 <= a < |rs| ==> RunIntended(rs, n, |rs|).loc[a].where == REGISTER
  {
    IntendedRegisters(rs, n, |rs|);
  }
}
