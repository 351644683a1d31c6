/** Generation marks (utils/marker): every traversal marks blocks and instructions through a marker
    that owns one of four slots and a generation number.  Four slots of generations stand for one
    independent set of marked objects per live marker. */
module Markers {

  const NUM_CONCURRENT_MARKERS: nat := 4
  const GEN_UNSET: nat := 0

  /** Generations are unsigned 32-bit numbers. */
  const GEN_MODULUS: nat := 0x1_0000_0000

  type Slots = s: seq<nat> | |s| == 4 witness [0, 0, 0, 0]

  const UNMARKED: Slots := [GEN_UNSET, GEN_UNSET, GEN_UNSET, GEN_UNSET]

  /** Wraps around, skipping the reserved value. */
  function NextGen(gen: nat): nat {
    var g := (gen + 1) % GEN_MODULUS;
    if g == GEN_UNSET then g + 1 else g
  }

  function FreeSlot(tracker: seq<bool>): (i: nat)
    ensures i <= |tracker| && (i < |tracker| ==> !tracker[i]) && forall k :: 0 <= k < i ==> tracker[k]
  {
    if tracker == [] || !tracker[0] then 0 else 1 + FreeSlot(tracker[1..])
  }

  // ---- The objects of the source -------------------------------------------------------------

  class Marker {
    var slot: nat
    var gen: nat

    constructor ()
      ensures gen == GEN_UNSET
    {
      slot, gen := 0, GEN_UNSET;
    }
  }

  class MarkerFactory {
    const slotTracker: array<bool>
    var currentGen: nat

    constructor ()
      ensures fresh(slotTracker) && slotTracker[..] == [false, false, false, false] && currentGen == GEN_UNSET
    {
      slotTracker := new bool[NUM_CONCURRENT_MARKERS](_ => false);
      currentGen := GEN_UNSET;
    }

    /** Takes the first free slot and a new generation; fails when all slots are taken. */
    method InitMarker(m: Marker) returns (ok: bool)
      requires m.gen == GEN_UNSET
      modifies this`currentGen, slotTracker, m
      ensures var i := FreeSlot(old(slotTracker[..]));
        && (ok <==> i < slotTracker.Length)
        && (ok ==> m.slot == i && m.gen == currentGen == NextGen(old(currentGen))
                   && slotTracker[..] == old(slotTracker[..])[i := true])
        && (!ok ==> slotTracker[..] == old(slotTracker[..]) && currentGen == old(currentGen) && m.gen == GEN_UNSET)
    {
      ghost var tracker := slotTracker[..];
      assert tracker[0..] == tracker;
      for i := 0 to slotTracker.Length
        invariant slotTracker[..] == tracker && currentGen == old(currentGen) && m.gen == GEN_UNSET
        invariant FreeSlot(tracker) == i + FreeSlot(tracker[i..])
      {
        if !slotTracker[i] {
          slotTracker[i] := true;
          m.gen := NewGen();
          m.slot := i;
          return true;
        }
        assert tracker[i..][1..] == tracker[i + 1..];
      }
      return false;
    }

    method DisposeMarker(m: Marker)
      requires m.slot < slotTracker.Length
      modifies slotTracker
      ensures slotTracker[..] == old(slotTracker[..])[m.slot := false]
    {
      slotTracker[m.slot] := false;
    }

    method NewGen() returns (gen: nat)
      modifies this`currentGen
      ensures gen == currentGen == NextGen(old(currentGen)) && gen != GEN_UNSET
      ensures old(currentGen) < GEN_MODULUS - 1 ==> gen == old(currentGen) + 1
      ensures old(currentGen) == GEN_MODULUS - 1 ==> gen == 1
    {
      currentGen := (currentGen + 1) % GEN_MODULUS;
      currentGen := currentGen + if currentGen == GEN_UNSET then 1 else 0;
      gen := currentGen;
    }
  }

  class Markable {
    const markers: array<nat>

    constructor ()
      ensures fresh(markers) && markers[..] == UNMARKED
    {
      markers := new nat[NUM_CONCURRENT_MARKERS](_ => GEN_UNSET);
    }

    method ProbeMark(m: Marker) returns (r: bool)
      requires m.slot < markers.Length
      ensures r <==> markers[m.slot] == m.gen
    {
      r := markers[m.slot] == m.gen;
    }

    method SetMark(m: Marker) returns (wasSet: bool)
      requires m.slot < markers.Length
      modifies markers
      ensures markers[..] == old(markers[..])[m.slot := m.gen]
      ensures wasSet <==> old(markers[m.slot]) == m.gen
    {
      wasSet := ProbeMark(m);
      markers[m.slot] := m.gen;
    }

    method ClearMark(m: Marker) returns (wasSet: bool)
      requires m.slot < markers.Length
      modifies markers
      ensures markers[..] == old(markers[..])[m.slot := GEN_UNSET]
      ensures wasSet <==> old(markers[m.slot]) == m.gen
    {
      wasSet := ProbeMark(m);
      markers[m.slot] := GEN_UNSET;
    }
  }

  // ---- Every interleaving --------------------------------------------------------------------

  /** Markers and markable objects have names; an object that was never marked is as constructed. */
  datatype Op =
    | Create(marker: nat)
    | Dispose(marker: nat)
    | Set(marker: nat, obj: nat)
    | Clear(marker: nat, obj: nat)

  datatype Handle = Handle(slot: nat, gen: nat)

  datatype World = World(tracker: seq<bool>, current: nat, live: map<nat, Handle>, objects: map<nat, Slots>)

  function Initial(): World {
    World([false, false, false, false], GEN_UNSET, map[], map[])
  }

  function Marks(w: World, o: nat): Slots {
    if o in w.objects then w.objects[o] else UNMARKED
  }

  predicate WellTyped(w: World) {
    |w.tracker| == NUM_CONCURRENT_MARKERS && forall m :: m in w.live ==> w.live[m].slot < NUM_CONCURRENT_MARKERS
  }

  predicate Legal(w: World, op: Op) {
    match op
    case Create(m) => m !in w.live && FreeSlot(w.tracker) < |w.tracker|
    case Dispose(m) => m in w.live
    case Set(m, _) => m in w.live
    case Clear(m, _) => m in w.live
  }

  /** What the methods above do to the world. */
  function Step(w: World, op: Op): (r: World)
    requires WellTyped(w) && Legal(w, op)
    ensures WellTyped(r)
  {
    match op
    case Create(m) =>
      var i, gen := FreeSlot(w.tracker), NextGen(w.current);
      w.(tracker := w.tracker[i := true], current := gen, live := w.live[m := Handle(i, gen)])
    case Dispose(m) =>
      w.(tracker := w.tracker[w.live[m].slot := false], live := w.live - {m})
    case Set(m, o) =>
      w.(objects := w.objects[o := Marks(w, o)[w.live[m].slot := w.live[m].gen]])
    case Clear(m, o) =>
      w.(objects := w.objects[o := Marks(w, o)[w.live[m].slot := GEN_UNSET]])
  }

  predicate Probe(w: World, m: nat, o: nat)
    requires WellTyped(w) && m in w.live
  {
    Marks(w, o)[w.live[m].slot] == w.live[m].gen
  }

  /** One set of objects per live marker. */
  type Sets = map<nat, set<nat>>

  function SetsStep(a: Sets, op: Op): Sets {
    match op
    case Create(m) => a[m := {}]
    case Dispose(m) => a - {m}
    case Set(m, o) => if m in a then a[m := a[m] + {o}] else a
    case Clear(m, o) => if m in a then a[m := a[m] - {o}] else a
  }

  datatype Outcome = Outcome(legal: bool, world: World, sets: Sets)

  /** Runs the operations; `legal` says whether every one was. */
  function Run(ops: seq<Op>): (r: Outcome)
    ensures WellTyped(r.world)
  {
    if ops == [] then Outcome(true, Initial(), map[])
    else
      var r := Run(ops[..|ops| - 1]);
      var op := ops[|ops| - 1];
      if r.legal && Legal(r.world, op) then Outcome(true, Step(r.world, op), SetsStep(r.sets, op))
      else r.(legal := false)
  }

  function Creations(ops: seq<Op>): nat {
    if ops == [] then 0
    else Creations(ops[..|ops| - 1]) + if ops[|ops| - 1].Create? then 1 else 0
  }

  ghost predicate Agree(w: World, a: Sets, m: nat, o: nat)
    requires WellTyped(w)
  {
    (m in w.live <==> m in a) && (m in w.live ==> (Probe(w, m, o) <==> o in a[m]))
  }

  /** `ProbeMark` answers exactly whether the marker has marked the object and not cleared it. */
  ghost predicate Refines(w: World, a: Sets)
    requires WellTyped(w)
  {
    forall m, o :: Agree(w, a, m, o)
  }

  /** The taken slots are the slots of the live markers, each of which has its own. */
  ghost predicate SlotsOwned(tracker: seq<bool>, live: map<nat, Handle>) {
    && (forall m :: m in live ==> live[m].slot < |tracker| && tracker[live[m].slot])
    && (forall m, n :: m in live && n in live && m != n ==> live[m].slot != live[n].slot)
  }

  function Taken(tracker: seq<bool>): (n: nat)
    ensures n <= |tracker| && (n == |tracker| <==> FreeSlot(tracker) == |tracker|)
  {
    if tracker == [] then 0 else (if tracker[0] then 1 else 0) + Taken(tracker[1..])
  }

  lemma {:induction false} TakenUpdate(tracker: seq<bool>, i: nat, b: bool)
    requires i < |tracker| && tracker[i] == !b
    ensures Taken(tracker[i := b]) == Taken(tracker) + if b then 1 else -1
  {
    if i > 0 {
      assert tracker[i := b][1..] == tracker[1..][i - 1 := b];
      TakenUpdate(tracker[1..], i - 1, b);
    } else {
      assert tracker[0 := b][1..] == tracker[1..];
    }
  }

  /** A marker can be created exactly when fewer than four are alive. */
  lemma CreateLegalIff(w: World, m: nat)
    requires WellTyped(w) && Inv(w) && m !in w.live
    ensures Legal(w, Create(m)) <==> |w.live| < NUM_CONCURRENT_MARKERS
  {}

  ghost predicate GensIssued(live: map<nat, Handle>, current: nat) {
    forall m :: m in live ==> 0 < live[m].gen <= current
  }

  ghost predicate UpTo(s: Slots, current: nat) {
    s[0] <= current && s[1] <= current && s[2] <= current && s[3] <= current
  }

  /** No generation on record is newer than the last one issued. */
  ghost predicate Inv(w: World)
    requires WellTyped(w)
  {
    && SlotsOwned(w.tracker, w.live) && GensIssued(w.live, w.current) && Taken(w.tracker) == |w.live|
    && forall o :: o in w.objects ==> UpTo(w.objects[o], w.current)
  }

  lemma SlotsCreate(tracker: seq<bool>, live: map<nat, Handle>, m: nat, i: nat, gen: nat)
    requires SlotsOwned(tracker, live) && m !in live && i < |tracker| && !tracker[i]
    ensures SlotsOwned(tracker[i := true], live[m := Handle(i, gen)])
  {}

  lemma SlotsDispose(tracker: seq<bool>, live: map<nat, Handle>, m: nat)
    requires SlotsOwned(tracker, live) && m in live
    ensures SlotsOwned(tracker[live[m].slot := false], live - {m})
  {}

  lemma UpToMarks(w: World, o: nat, i: nat)
    requires WellTyped(w) && Inv(w) && i < NUM_CONCURRENT_MARKERS
    ensures Marks(w, o)[i] <= w.current && UpTo(Marks(w, o), w.current)
  {
    assert i == 0 || i == 1 || i == 2 || i == 3;
  }

  lemma NewerMarks(w: World, current: nat)
    requires WellTyped(w) && Inv(w) && w.current <= current
    ensures forall o :: o in w.objects ==> UpTo(w.objects[o], current)
    ensures GensIssued(w.live, current)
  {}

  lemma NewGenIsNext(current: nat)
    requires current + 1 < GEN_MODULUS
    ensures NextGen(current) == current + 1
  {}

  lemma CreateKeepsInv(w: World, m: nat)
    requires WellTyped(w) && Legal(w, Create(m)) && Inv(w) && w.current + 1 < GEN_MODULUS
    ensures Inv(Step(w, Create(m))) && Step(w, Create(m)).current == w.current + 1
  {
    var i := FreeSlot(w.tracker);
    NewGenIsNext(w.current);
    NewerMarks(w, w.current + 1);
    SlotsCreate(w.tracker, w.live, m, i, w.current + 1);
    TakenUpdate(w.tracker, i, true);
    GensCreate(w.live, m, i, w.current);
    hide SlotsOwned, UpTo, FreeSlot, NextGen, Taken, GensIssued;
    assert w.live.Keys == w.live[m := Handle(i, w.current + 1)].Keys - {m};
  }

  lemma GensCreate(live: map<nat, Handle>, m: nat, i: nat, current: nat)
    requires GensIssued(live, current)
    ensures GensIssued(live[m := Handle(i, current + 1)], current + 1)
  {}

  lemma CreateKeeps(w: World, a: Sets, m: nat)
    requires WellTyped(w) && Legal(w, Create(m)) && Inv(w) && Refines(w, a) && w.current + 1 < GEN_MODULUS
    ensures var r := Step(w, Create(m));
      Inv(r) && Refines(r, SetsStep(a, Create(m))) && r.current == w.current + 1
  {
    CreateKeepsInv(w, m);
    hide Inv, SetsStep, Step, Agree, Legal;
    forall n, o ensures Agree(Step(w, Create(m)), SetsStep(a, Create(m)), n, o) {
      CreateAgree(w, a, m, n, o);
    }
  }

  lemma CreateAgree(w: World, a: Sets, m: nat, n: nat, o: nat)
    requires WellTyped(w) && Legal(w, Create(m)) && Inv(w) && Agree(w, a, n, o) && w.current + 1 < GEN_MODULUS
    ensures Agree(Step(w, Create(m)), SetsStep(a, Create(m)), n, o)
  {
    UpToMarks(w, o, FreeSlot(w.tracker));
    NewGenIsNext(w.current);
    hide Inv, FreeSlot, NextGen;
  }

  lemma DisposeKeepsInv(w: World, m: nat)
    requires WellTyped(w) && Legal(w, Dispose(m)) && Inv(w)
    ensures Inv(Step(w, Dispose(m))) && Step(w, Dispose(m)).current == w.current
  {
    var r := Step(w, Dispose(m));
    SlotsDispose(w.tracker, w.live, m);
    TakenUpdate(w.tracker, w.live[m].slot, false);
    GensDispose(w.live, m, w.current);
    hide SlotsOwned, UpTo, Taken, GensIssued;
    assert w.live.Keys == r.live.Keys + {m};
  }

  lemma GensDispose(live: map<nat, Handle>, m: nat, current: nat)
    requires GensIssued(live, current)
    ensures GensIssued(live - {m}, current)
  {}

  lemma DisposeKeeps(w: World, a: Sets, m: nat)
    requires WellTyped(w) && Legal(w, Dispose(m)) && Inv(w) && Refines(w, a)
    ensures var r := Step(w, Dispose(m));
      Inv(r) && Refines(r, SetsStep(a, Dispose(m))) && r.current == w.current
  {
    DisposeKeepsInv(w, m);
    hide Inv, SetsStep, Step, Agree, Legal;
    forall n, o ensures Agree(Step(w, Dispose(m)), SetsStep(a, Dispose(m)), n, o) {
      DisposeAgree(w, a, m, n, o);
    }
  }

  lemma DisposeAgree(w: World, a: Sets, m: nat, n: nat, o: nat)
    requires WellTyped(w) && Legal(w, Dispose(m)) && Agree(w, a, n, o)
    ensures Agree(Step(w, Dispose(m)), SetsStep(a, Dispose(m)), n, o)
  {}

  /** Writing a slot of an object: a new mark or an erased one. */
  function Write(w: World, o: nat, slot: nat, gen: nat): World
    requires slot < NUM_CONCURRENT_MARKERS
  {
    w.(objects := w.objects[o := Marks(w, o)[slot := gen]])
  }

  lemma WriteKeepsInv(w: World, o: nat, slot: nat, gen: nat)
    requires WellTyped(w) && Inv(w) && slot < NUM_CONCURRENT_MARKERS && gen <= w.current
    ensures WellTyped(Write(w, o, slot, gen)) && Inv(Write(w, o, slot, gen))
  {
    UpToMarks(w, o, slot);
    assert UpTo(Marks(w, o)[slot := gen], w.current);
    hide SlotsOwned, UpTo, GensIssued;
  }

  lemma WriteProbes(w: World, m: nat, o: nat, gen: nat, n: nat, x: nat)
    requires WellTyped(w) && SlotsOwned(w.tracker, w.live) && m in w.live && n in w.live
    ensures WellTyped(Write(w, o, w.live[m].slot, gen))
    ensures Probe(Write(w, o, w.live[m].slot, gen), n, x)
       <==> if n == m && x == o then w.live[m].gen == gen else Probe(w, n, x)
  {}

  lemma MarkKeeps(w: World, a: Sets, op: Op)
    requires WellTyped(w) && Legal(w, op) && Inv(w) && Refines(w, a) && (op.Set? || op.Clear?)
    ensures var r := Step(w, op);
      Inv(r) && Refines(r, SetsStep(a, op)) && r.current == w.current
  {
    var r := Step(w, op);
    var h := w.live[op.marker];
    var gen := if op.Set? then h.gen else GEN_UNSET;
    assert r == Write(w, op.obj, h.slot, gen);
    assert GensIssued(w.live, w.current) && SlotsOwned(w.tracker, w.live) && 0 < h.gen <= w.current;
    WriteKeepsInv(w, op.obj, h.slot, gen);
    hide Inv, Write, SlotsOwned, GensIssued, Step, Agree, SetsStep;
    forall n, x ensures Agree(r, SetsStep(a, op), n, x) {
      WriteAgree(w, a, op, n, x);
    }
  }

  lemma WriteAgree(w: World, a: Sets, op: Op, n: nat, x: nat)
    requires WellTyped(w) && Legal(w, op) && Inv(w) && (op.Set? || op.Clear?)
    requires Agree(w, a, n, x) && Agree(w, a, op.marker, x)
    ensures Agree(Step(w, op), SetsStep(a, op), n, x)
  {
    var h := w.live[op.marker];
    var gen := if op.Set? then h.gen else GEN_UNSET;
    assert Step(w, op) == Write(w, op.obj, h.slot, gen);
    assert GensIssued(w.live, w.current) && SlotsOwned(w.tracker, w.live) && 0 < h.gen;
    hide Inv, SlotsOwned, GensIssued, Step;
    if n in w.live {
      WriteProbes(w, op.marker, op.obj, gen, n, x);
    }
  }

  lemma {:induction false} RunKeeps(ops: seq<Op>)
    requires Run(ops).legal && Creations(ops) < GEN_MODULUS
    ensures var r := Run(ops);
      Inv(r.world) && Refines(r.world, r.sets) && r.world.current == Creations(ops)
  {
    if ops != [] {
      var before := ops[..|ops| - 1];
      var op := ops[|ops| - 1];
      var r := Run(before);
      RunKeeps(before);
      hide Inv, Refines, Step, SetsStep;
      match op
      case Create(m) => CreateKeeps(r.world, r.sets, m);
      case Dispose(m) => DisposeKeeps(r.world, r.sets, m);
      case _ => MarkKeeps(r.world, r.sets, op);
    }
  }

  // ---- Exactly how long it works ---------------------------------------------------------------

  /** `n` markers, one after the other. */
  function Cycles(n: nat): seq<Op> {
    if n == 0 then [] else Cycles(n - 1) + [Create(1), Dispose(1)]
  }

  const FIRST: seq<Op> := [Create(0), Set(0, 7), Dispose(0)]

  lemma RunSnoc(ops: seq<Op>, op: Op)
    ensures var r := Run(ops);
      Run(ops + [op]) == if r.legal && Legal(r.world, op)
                         then Outcome(true, Step(r.world, op), SetsStep(r.sets, op)) else r.(legal := false)
    ensures Creations(ops + [op]) == Creations(ops) + if op.Create? then 1 else 0
  {
    assert (ops + [op])[..|ops + [op]| - 1] == ops;
  }

  function MarkedOnce(current: nat): Outcome {
    Outcome(true, World([false, false, false, false], current, map[], map[7 := [1, GEN_UNSET, GEN_UNSET, GEN_UNSET]]),
            map[])
  }

  lemma RunFirst()
    ensures Run(FIRST) == MarkedOnce(1) && Creations(FIRST) == 1
  {
    RunSnoc([], Create(0));
    RunSnoc([Create(0)], Set(0, 7));
    RunSnoc([Create(0), Set(0, 7)], Dispose(0));
    assert [] + [Create(0)] == [Create(0)];
    assert [Create(0)] + [Set(0, 7)] == [Create(0), Set(0, 7)];
    assert [Create(0), Set(0, 7)] + [Dispose(0)] == FIRST;
    var w1 := Step(Initial(), Create(0));
    assert w1 == World([true, false, false, false], 1, map[0 := Handle(0, 1)], map[]);
    var w2 := Step(w1, Set(0, 7));
    assert Marks(w1, 7)[0 := 1] == [1, GEN_UNSET, GEN_UNSET, GEN_UNSET];
    assert Step(w2, Dispose(0)).live == map[];
  }

  lemma CycleSteps(current: nat)
    requires current + 1 < GEN_MODULUS
    ensures var w := MarkedOnce(current).world;
      && Legal(w, Create(1)) && Legal(Step(w, Create(1)), Dispose(1))
      && Step(Step(w, Create(1)), Dispose(1)) == MarkedOnce(current + 1).world
  {
    var w := Step(MarkedOnce(current).world, Create(1));
    assert w.live == map[1 := Handle(0, current + 1)];
    assert Step(w, Dispose(1)).live == map[];
  }

  lemma Cycle(ops: seq<Op>, current: nat)
    requires Run(ops) == MarkedOnce(current) && current + 1 < GEN_MODULUS
    ensures Run(ops + [Create(1), Dispose(1)]) == MarkedOnce(current + 1)
    ensures Creations(ops + [Create(1), Dispose(1)]) == Creations(ops) + 1
  {
    CycleSteps(current);
    hide Legal, Step;
    RunSnoc(ops, Create(1));
    RunSnoc(ops + [Create(1)], Dispose(1));
    assert ops + [Create(1)] + [Dispose(1)] == ops + [Create(1), Dispose(1)];
    assert SetsStep(SetsStep(map[], Create(1)), Dispose(1)) == map[];
  }

  lemma {:induction false} RunCycles(n: nat)
    requires 1 + n < GEN_MODULUS
    ensures Run(FIRST + Cycles(n)) == MarkedOnce(1 + n) && Creations(FIRST + Cycles(n)) == 1 + n
  {
    if n == 0 {
      RunFirst();
      assert FIRST + Cycles(0) == FIRST;
    } else {
      RunCycles(n - 1);
      Cycle(FIRST + Cycles(n - 1), n);
      assert FIRST + Cycles(n) == FIRST + Cycles(n - 1) + [Create(1), Dispose(1)];
    }
  }

  /** After 2^32 - 1 generations the numbers start again at one, and a new marker finds the mark that
      the very first marker left behind. */
  lemma StaleMark()
    ensures var ops := FIRST + Cycles(GEN_MODULUS - 2) + [Create(2)];
      var r := Run(ops);
      r.legal && Creations(ops) == GEN_MODULUS && 2 in r.world.live && Probe(r.world, 2, 7)
        && 2 in r.sets && r.sets[2] == {}
    ensures !Refines(Run(FIRST + Cycles(GEN_MODULUS - 2) + [Create(2)]).world,
                     Run(FIRST + Cycles(GEN_MODULUS - 2) + [Create(2)]).sets)
  {
    hide Cycles;
    RunCycles(GEN_MODULUS - 2);
    RunSnoc(FIRST + Cycles(GEN_MODULUS - 2), Create(2));
    var r := Run(FIRST + Cycles(GEN_MODULUS - 2) + [Create(2)]);
    assert !Agree(r.world, r.sets, 2, 7);
  }

  /** Marks are exact in every interleaving with at most `n` markers ever created if and only if `n`
      is at most 2^32 - 1. */
  lemma ExactBudget(n: nat)
    ensures (forall ops :: Run(ops).legal && Creations(ops) <= n ==> Refines(Run(ops).world, Run(ops).sets))
       <==> n < GEN_MODULUS
  {
    if n < GEN_MODULUS {
      forall ops | Run(ops).legal && Creations(ops) <= n ensures Refines(Run(ops).world, Run(ops).sets) {
        RunKeeps(ops);
      }
    } else {
      StaleMark();
    }
  }
}
