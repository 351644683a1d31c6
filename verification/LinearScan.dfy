/** Linear-scan register allocation (pass/linear_scan.cpp), as written.

    `ExpireOldIntervals` never erases the last active range: when every active range has expired,
    the last one is released but stays in `active_`, and the next expiry releases its register a
    second time.  The allocator is modelled with that behaviour, and the theorems say exactly when
    it does harm. */
module LinearScan {
  import opened Ranges

  datatype LiveRange = LiveRange(range: Range, inst: nat)

  datatype Where = UNSET | REGISTER | STACK

  datatype Location = Location(where: Where, slot: nat)

  /** Everything the allocator updates.  `active` holds positions in `ranges_`, the way the source
      holds pointers into it; every range belongs to its own instruction, so locations are kept
      per range. */
  datatype State = State(active: seq<nat>, regMap: seq<bool>, loc: seq<Location>, nextSlot: nat)

  type Input = seq<LiveRange>

  predicate Sorted(rs: Input) {
    && (forall i :: 0 <= i < |rs| ==> rs[i].range.start <= rs[i].range.end)
    && (forall i, j :: 0 <= i < j < |rs| ==> rs[i].range.start <= rs[j].range.start)
  }

  predicate InBounds(rs: Input, s: State) {
    |s.loc| == |rs| && forall k :: 0 <= k < |s.active| ==> s.active[k] < |rs|
  }

  /** How many leading active ranges end at or before `start`. */
  function Expired(rs: Input, active: seq<nat>, start: nat): (k: nat)
    requires forall i :: 0 <= i < |active| ==> active[i] < |rs|
    ensures k <= |active|
    ensures forall i :: 0 <= i < k ==> rs[active[i]].range.end <= start
    ensures k < |active| ==> start < rs[active[k]].range.end
  {
    if active == [] || start < rs[active[0]].range.end then 0
    else 1 + Expired(rs, active[1..], start)
  }

  function Release(regMap: seq<bool>, loc: seq<Location>, rel: seq<nat>): (r: seq<bool>)
    requires forall i :: 0 <= i < |rel| ==> rel[i] < |loc|
    ensures |r| == |regMap|
    ensures forall p :: 0 <= p < |r| ==>
              (r[p] <==> regMap[p] && forall i :: 0 <= i < |rel| ==> loc[rel[i]].slot != p)
    decreases |rel|
  {
    if rel == [] then regMap
    else
      var p := loc[rel[0]].slot;
      var rest := Release(if p < |regMap| then regMap[p := false] else regMap, loc, rel[1..]);
      assert forall i :: 0 < i < |rel| ==> rel[i] == rel[1..][i - 1];
      rest
  }

  function ExpireOld(rs: Input, s: State, start: nat): (r: State)
    requires InBounds(rs, s)
    ensures InBounds(rs, r) && |r.regMap| == |s.regMap| && (s.active != [] ==> r.active != [])
  {
    var k := Expired(rs, s.active, start);
    var kept := if k < |s.active| || k == 0 then k else k - 1;
    s.(active := s.active[kept..], regMap := Release(s.regMap, s.loc, s.active[..k]))
  }

  function FirstFree(regMap: seq<bool>): (p: nat)
    ensures p <= |regMap| && forall q :: 0 <= q < p ==> regMap[q]
    ensures p < |regMap| ==> !regMap[p]
  {
    if regMap == [] || !regMap[0] then 0 else 1 + FirstFree(regMap[1..])
  }

  function Assign(s: State, i: nat): (r: State)
    requires i < |s.loc|
    ensures r.active == s.active && |r.loc| == |s.loc| && |r.regMap| == |s.regMap|
  {
    var p := FirstFree(s.regMap);
    if p == |s.regMap| then s
    else s.(regMap := s.regMap[p := true], loc := s.loc[i := Location(REGISTER, p)])
  }

  /** The position of the first active range that ends after `end`. */
  function InsertAt(rs: Input, active: seq<nat>, end: nat): (k: nat)
    requires forall i :: 0 <= i < |active| ==> active[i] < |rs|
    ensures k <= |active|
    ensures forall i :: 0 <= i < k ==> rs[active[i]].range.end <= end
    ensures k < |active| ==> end < rs[active[k]].range.end
  {
    if active == [] || end < rs[active[0]].range.end then 0
    else 1 + InsertAt(rs, active[1..], end)
  }

  function AddActive(rs: Input, s: State, i: nat): (r: State)
    requires InBounds(rs, s) && i < |rs|
    ensures InBounds(rs, r) && r.regMap == s.regMap && r.loc == s.loc
  {
    var k := InsertAt(rs, s.active, rs[i].range.end);
    s.(active := s.active[..k] + [i] + s.active[k..])
  }

  function ToStack(s: State, i: nat): State
    requires i < |s.loc|
  {
    s.(loc := s.loc[i := Location(STACK, s.nextSlot)], nextSlot := s.nextSlot + 1)
  }

  function Spill(rs: Input, s: State, i: nat): (r: State)
    requires InBounds(rs, s) && i < |rs| && |s.active| > 0
    ensures InBounds(rs, r) && r.regMap == s.regMap
  {
    var b := s.active[|s.active| - 1];
    if rs[b].range.end > rs[i].range.end then
      var s1 := ToStack(s, b);
      var s2 := s1.(loc := s1.loc[i := Location(REGISTER, s.loc[b].slot)],
                    active := s.active[..|s.active| - 1]);
      AddActive(rs, s2, i)
    else
      ToStack(s, i)
  }

  function Process(rs: Input, s: State, i: nat): (r: State)
    requires InBounds(rs, s) && i < |rs| && |s.regMap| > 0
    ensures InBounds(rs, r) && |r.regMap| == |s.regMap|
  {
    var s1 := ExpireOld(rs, s, rs[i].range.start);
    if |s1.active| == |s1.regMap| then Spill(rs, s1, i)
    else AddActive(rs, Assign(s1, i), i)
  }

  function Initial(rs: Input, n: nat): State {
    State([], seq(n, _ => false), seq(|rs|, _ => Location(UNSET, 0)), 0)
  }

  /** The state after the first `i` ranges. */
  function Run(rs: Input, n: nat, i: nat): (s: State)
    requires n > 0 && i <= |rs|
    ensures InBounds(rs, s) && |s.regMap| == n
  {
    if i == 0 then Initial(rs, n) else Process(rs, Run(rs, n, i - 1), i - 1)
  }

  /** The pass object.  `Run_` below is `LinearScanRegisterAllocation`; `ranges` is any result of
      the sort by start in `Init`. */
  class Allocator {
    const ranges: Input
    var active: seq<nat>
    var regMap: seq<bool>
    var loc: seq<Location>
    var currentStackSlot: nat

    constructor (ranges: Input, n: nat)
      ensures this.ranges == ranges && |regMap| == n && |loc| == |ranges| && active == []
    {
      this.ranges := ranges;
      active, regMap, currentStackSlot := [], seq(n, _ => false), 0;
      loc := seq(|ranges|, _ => Location(UNSET, 0));
    }

    ghost function Abs(): State
      reads this
    {
      State(active, regMap, loc, currentStackSlot)
    }

    method Allocate()
      requires |regMap| > 0 && |loc| == |ranges|
      modifies this
      ensures |regMap| == old(|regMap|) && Abs() == Run(ranges, |regMap|, |ranges|)
    {
      hide Process, ExpireOld, Assign, AddActive, Spill;
      currentStackSlot, active := 0, [];
      regMap := seq(|regMap|, _ => false);
      loc := seq(|loc|, _ => Location(UNSET, 0));
      for i := 0 to |ranges|
        invariant |regMap| == old(|regMap|) && Abs() == Run(ranges, |regMap|, i)
      {
        ProcessRange(i);
      }
    }

    /** The body of the allocation loop. */
    method ProcessRange(i: nat)
      requires InBounds(ranges, Abs()) && i < |ranges| && |regMap| > 0
      modifies this
      ensures Abs() == Process(ranges, old(Abs()), i)
    {
      hide ExpireOld, Assign, AddActive, Spill;
      ExpireOldIntervals(i);
      if |active| == |regMap| {
        SpillAtInterval(i);
      } else {
        AssignRegister(i);
        AddToActive(i);
      }
    }

    method ExpireOldIntervals(i: nat)
      requires InBounds(ranges, Abs()) && i < |ranges|
      modifies this`active, this`regMap
      ensures Abs() == ExpireOld(ranges, old(Abs()), ranges[i].range.start)
    {
      var start := ranges[i].range.start;
      var itTo := 0;
      var it := 0;
      ghost var k := Expired(ranges, active, start);
      ghost var all := Release(regMap, loc, active[..k]);
      assert active[0..] == active;
      while it < |active|
        invariant 0 <= itTo <= it <= k && active == old(active)
        invariant Release(regMap, loc, active[it..k]) == all
        invariant itTo == if it == 0 then 0 else it - 1
        invariant |regMap| == |old(regMap)|
      {
        itTo := it;
        if start < ranges[active[it]].range.end {
          break;
        }
        assert active[it..k][1..] == active[it + 1..k];
        var slot := loc[active[it]].slot;
        if slot < |regMap| {
          regMap := regMap[slot := false];
        }
        it := it + 1;
      }
      active := active[itTo..];
    }

    method SpillAtInterval(i: nat)
      requires InBounds(ranges, Abs()) && i < |ranges| && |active| > 0
      modifies this
      ensures Abs() == Spill(ranges, old(Abs()), i)
    {
      var back := active[|active| - 1];
      if ranges[back].range.end > ranges[i].range.end {
        var slot := AssignStackSlot(back);
        loc := loc[i := Location(REGISTER, slot)];
        active := active[..|active| - 1];
        AddToActive(i);
      } else {
        var _ := AssignStackSlot(i);
      }
    }

    method AssignStackSlot(i: nat) returns (prevSlot: nat)
      requires i < |loc|
      modifies this`loc, this`currentStackSlot
      ensures Abs() == ToStack(old(Abs()), i) && prevSlot == old(loc)[i].slot
    {
      prevSlot := loc[i].slot;
      loc := loc[i := Location(STACK, currentStackSlot)];
      currentStackSlot := currentStackSlot + 1;
    }

    method AssignRegister(i: nat)
      requires i < |loc|
      modifies this`loc, this`regMap
      ensures Abs() == Assign(old(Abs()), i)
    {
      assert regMap[0..] == regMap;
      for p := 0 to |regMap|
        invariant regMap == old(regMap) && loc == old(loc)
        invariant FirstFree(regMap) == p + FirstFree(regMap[p..])
      {
        if !regMap[p] {
          regMap := regMap[p := true];
          loc := loc[i := Location(REGISTER, p)];
          return;
        }
        assert regMap[p..][1..] == regMap[p + 1..];
      }
    }

    method AddToActive(i: nat)
      requires InBounds(ranges, Abs()) && i < |ranges|
      modifies this`active
      ensures Abs() == AddActive(ranges, old(Abs()), i)
    {
      var k := 0;
      assert active[0..] == active;
      while k < |active| && ranges[i].range.end >= ranges[active[k]].range.end
        invariant 0 <= k <= |active|
        invariant InsertAt(ranges, active, ranges[i].range.end)
               == k + InsertAt(ranges, active[k..], ranges[i].range.end)
      {
        assert active[k..][1..] == active[k + 1..];
        k := k + 1;
      }
      active := active[..k] + [i] + active[k..];
    }
  }
}
