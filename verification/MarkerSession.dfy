/** The marker objects of utils/marker at work: what their methods do to the whole heap is a step of the
    abstract world in which `Markers` proves the refinement. */
module MarkerSession {
  import opened Markers

  /** A factory, the live markers and the marked objects, by name. */
  class Session {
    const factory: MarkerFactory
    var markers: map<nat, Marker>
    var objects: map<nat, Markable>

    constructor ()
      ensures Valid() && Abs() == Initial() && fresh(factory) && fresh(factory.slotTracker)
    {
      factory := new MarkerFactory();
      markers, objects := map[], map[];
    }

    ghost predicate Valid()
      reads this, factory, factory.slotTracker, markers.Values, objects.Values
    {
      && factory.slotTracker.Length == NUM_CONCURRENT_MARKERS
      && (forall m :: m in markers ==> markers[m].slot < NUM_CONCURRENT_MARKERS)
      && (forall o :: o in objects ==> objects[o].markers.Length == NUM_CONCURRENT_MARKERS)
      && (forall o, p :: o in objects && p in objects && o != p ==> objects[o].markers != objects[p].markers)
    }

    ghost function Arrays(): set<object>
      reads this, objects.Values
    {
      set o | o in objects :: objects[o].markers
    }

    ghost function Abs(): World
      requires Valid()
      reads this, factory, factory.slotTracker, markers.Values, objects.Values, Arrays()
    {
      World(factory.slotTracker[..], factory.currentGen, Live(), Marked())
    }

    ghost function Live(): map<nat, Handle>
      reads this, markers.Values
    {
      map m | m in markers :: Handle(markers[m].slot, markers[m].gen)
    }

    ghost function Marked(): map<nat, Slots>
      requires Valid()
      reads this, factory, factory.slotTracker, markers.Values, objects.Values, Arrays()
    {
      map o | o in objects :: objects[o].markers[..]
    }

    /** Takes a slot and a generation for a marker without a name yet. */
    method NewMarker() returns (ok: bool, marker: Marker)
      requires Valid()
      modifies factory, factory.slotTracker
      ensures Valid() && fresh(marker) && markers == old(markers) && objects == old(objects)
      ensures Live() == old(Live()) && Marked() == old(Marked())
      ensures var w, i := old(Abs()), FreeSlot(old(Abs()).tracker);
        && (ok <==> i < |w.tracker|)
        && (if ok then marker.slot == i && marker.gen == NextGen(w.current)
                       && Abs() == World(w.tracker[i := true], NextGen(w.current), w.live, w.objects)
            else Abs() == w)
    {
      ghost var live, marked := Live(), Marked();
      marker := new Marker();
      hide FreeSlot, NextGen;
      ok := factory.InitMarker(marker);
      assert Live() == live && Marked() == marked;
    }

    /** A new marker; `ok` says whether there was a slot for it. */
    method Create(m: nat) returns (ok: bool)
      requires Valid() && m !in markers
      modifies this, factory, factory.slotTracker
      ensures Valid() && objects == old(objects) && (ok <==> Legal(old(Abs()), Op.Create(m)))
      ensures Abs() == if ok then Step(old(Abs()), Op.Create(m)) else old(Abs())
    {
      hide FreeSlot, NextGen;
      var x: Marker;
      ok, x := NewMarker();
      if ok {
        Enter(m, x);
      }
    }

    method Enter(m: nat, x: Marker)
      requires Valid() && m !in markers && x.slot < NUM_CONCURRENT_MARKERS
      modifies this`markers
      ensures Valid() && objects == old(objects)
      ensures Abs() == old(Abs()).(live := old(Abs()).live[m := Handle(x.slot, x.gen)])
    {
      ghost var live, marked := Live(), Marked();
      markers := markers[m := x];
      assert Live() == live[m := Handle(x.slot, x.gen)] && Marked() == marked;
    }

    method Dispose(m: nat)
      requires Valid() && m in markers
      modifies this, factory.slotTracker
      ensures Valid() && objects == old(objects) && Abs() == Step(old(Abs()), Op.Dispose(m))
    {
      factory.DisposeMarker(markers[m]);
      markers := markers - {m};
    }

    /** An object that has not been named yet is a new one. */
    method Object(o: nat)
      requires Valid()
      modifies this`objects
      ensures Valid() && o in objects && markers == old(markers)
      ensures o in old(objects) ==> objects == old(objects)
      ensures o !in old(objects) ==> objects == old(objects)[o := objects[o]] && fresh(objects[o].markers)
      ensures Abs() == old(Abs()).(objects := old(Abs()).objects[o := Marks(old(Abs()), o)])
    {
      if o !in objects {
        var x := new Markable();
        objects := objects[o := x];
      }
    }

    method SetKnown(m: nat, o: nat) returns (wasSet: bool)
      requires Valid() && m in markers && o in objects
      modifies objects[o].markers
      ensures Valid() && markers == old(markers) && objects == old(objects)
      ensures Abs() == Step(old(Abs()), Op.Set(m, o)) && (wasSet <==> Markers.Probe(old(Abs()), m, o))
    {
      ghost var marked := Marked();
      wasSet := objects[o].SetMark(markers[m]);
      assert Live() == old(Live());
      assert Marked() == marked[o := marked[o][markers[m].slot := markers[m].gen]];
    }

    method ClearKnown(m: nat, o: nat) returns (wasSet: bool)
      requires Valid() && m in markers && o in objects
      modifies objects[o].markers
      ensures Valid() && markers == old(markers) && objects == old(objects)
      ensures Abs() == Step(old(Abs()), Op.Clear(m, o)) && (wasSet <==> Markers.Probe(old(Abs()), m, o))
    {
      ghost var marked := Marked();
      wasSet := objects[o].ClearMark(markers[m]);
      assert Live() == old(Live());
      assert Marked() == marked[o := marked[o][markers[m].slot := GEN_UNSET]];
    }

    /** Naming an object does not matter. */
    lemma SameStep(w: World, w': World, m: nat, o: nat)
      requires WellTyped(w) && m in w.live && w' == w.(objects := w.objects[o := Marks(w, o)])
      ensures Step(w', Op.Set(m, o)) == Step(w, Op.Set(m, o)) && Step(w', Op.Clear(m, o)) == Step(w, Op.Clear(m, o))
      ensures Markers.Probe(w', m, o) == Markers.Probe(w, m, o)
    {}

    /** `wasSet` is what the marker knew of the object. */
    method Set(m: nat, o: nat) returns (wasSet: bool)
      requires Valid() && m in markers
      modifies this`objects, Arrays()
      ensures Valid() && markers == old(markers)
      ensures Abs() == Step(old(Abs()), Op.Set(m, o)) && (wasSet <==> Markers.Probe(old(Abs()), m, o))
    {
      ghost var w := Abs();
      Object(o);
      SameStep(w, Abs(), m, o);
      hide Step, Abs, Valid;
      wasSet := SetKnown(m, o);
    }

    method Clear(m: nat, o: nat) returns (wasSet: bool)
      requires Valid() && m in markers
      modifies this`objects, Arrays()
      ensures Valid() && markers == old(markers)
      ensures Abs() == Step(old(Abs()), Op.Clear(m, o)) && (wasSet <==> Markers.Probe(old(Abs()), m, o))
    {
      ghost var w := Abs();
      Object(o);
      SameStep(w, Abs(), m, o);
      hide Step, Abs, Valid;
      wasSet := ClearKnown(m, o);
    }

    method Probe(m: nat, o: nat) returns (r: bool)
      requires Valid() && m in markers && o in objects
      ensures r <==> Markers.Probe(Abs(), m, o)
    {
      r := objects[o].ProbeMark(markers[m]);
    }
  }
}
