/** From the original program to registers: loop analysis rewrites it, liveness analysis and linear scan
    give every value a place (pass/linear_scan.cpp:14-22 and the passes it asks for). */
module Pipeline {
  import opened Cfg
  import opened Coverage
  import opened CoverageLimit
  import opened Ssa
  import opened LiveRanges
  import opened Execution
  import opened LoopTree
  import opened BlockOrder
  import opened LoopRewrite
  import opened Preservation
  import opened SsaRewrite
  import E = EndToEnd
  import LS = LinearScan
  import RS = RegisterSafety
  import RL = RegisterLimits
  import IS = IntendedScan

  /** Liveness analysis has been carried out for the rewritten program `d`, and `a.rs` are its ranges. */
  ghost predicate Allocated(d: Program, a: E.Allocation) {
    && E.Prog(a) == d && Finished(a.g, a.t, a.rank, a.order) && WellPlaced(E.Plan(a))
    && E.InputFor(a.rs, Sweep(E.Plan(a), 0).ranges, a.noUse)
  }

  /** What the allocated program needs: every live point lies in its range, and ranges are kept apart. */
  ghost predicate Favourable(a: E.Allocation)
    requires WellFormed(a.g, a.t) && WellPlaced(E.Plan(a))
  {
    AllCovered(E.Plan(a)) && E.KeptApart(a.rs, a.loc)
  }

  /** The ranges cover every live point if latches are shared.  If they are not, there is a program over the
      same graph for which they do not. */
  lemma SharedLatchesCover(d: Program, a: E.Allocation)
    requires Allocated(d, a) && StrictSsa(a.g, a.body)
    ensures LatchesShared(a.g, a.t) ==> AllCovered(E.Plan(a))
    ensures !LatchesShared(a.g, a.t) ==>
              exists body: Code :: |body| == |a.g| && StrictSsa(a.g, body) && !SoundFor(a.g, a.t, a.order, body)
  {
    LivenessSoundIff(a.g, a.t, a.rank, a.order);
    hide Finished, LatchesShared, Sweep, AllCovered;
    assert LatchesShared(a.g, a.t) ==> SoundFor(a.g, a.t, a.order, a.body);
  }

  lemma RangesNonEmpty(d: Program, a: E.Allocation)
    requires Allocated(d, a)
    ensures LS.Sorted(a.rs) && forall k :: 0 <= k < |a.rs| ==> RS.Start(a.rs, k) < RS.End(a.rs, k)
  {
    OrderIsTopological(a.g, a.t, a.rank, a.order, a.body);
    hide Finished, Topological, Sweep;
    SweptRangesEnd(E.Plan(a), 0);
  }

  /** The allocator as written keeps values apart exactly if no step meets its guard. */
  lemma AsWritten(d: Program, a: E.Allocation, n: nat)
    requires Allocated(d, a) && n > 0 && a.loc == LS.Run(a.rs, n, |a.rs|).loc
    ensures E.KeptApart(a.rs, a.loc) <==> RL.NoHazard(a.rs, n)
  {
    RangesNonEmpty(d, a);
    hide Allocated, LS.Run, RL.NoHazard, RS.Separated;
    RL.AllocationSound(a.rs, n);
  }

  /** With the expiry as intended it always does. */
  lemma AsIntended(d: Program, a: E.Allocation, n: nat)
    requires Allocated(d, a) && n > 0 && a.loc == IS.RunIntended(a.rs, n, |a.rs|).loc
    ensures E.KeptApart(a.rs, a.loc)
  {
    RangesNonEmpty(d, a);
    hide Allocated, IS.RunIntended, RS.Separated, RL.MarksAre;
    IS.IntendedIsSound(a.rs, n, 0);
  }

  lemma AllocationIsSound(d: Program, a: E.Allocation, base: Value)
    requires Allocated(d, a) && Favourable(a) && SsaProgram(d, base) && PhisComplete(d.g, d.body)
    ensures E.Sound(a)
  {
    hide StrictSsa, UniqueIds, PhisComplete, Used, AllCovered, Sweep;
  }

  /** The original program in its own names, at the end of a path. */
  ghost function Original(c: Program, f: Semantics, p: seq<Block>): Store<Value>
    requires InProgram(c, p)
  {
    End(c, Self(), f, p)
  }

  /** The allocated program at the end of a path. */
  ghost function InPlaces(a: E.Allocation, f: Semantics, q: seq<Block>): Store<E.LS.Location>
    requires InProgram(E.Prog(a), q)
  {
    E.PlacedAt(a, f, q, |a.body[q[|q| - 1]].insts|)
  }

  lemma SameNames(d: Program, a: E.Allocation, f: Semantics, q: seq<Block>)
    requires E.Prog(a) == d && InProgram(d, q)
    ensures End(d, Self(), f, q) == E.SsaAt(a, f, q, |a.body[q[|q| - 1]].insts|)
  {
    hide At, Enter, Steps;
  }

  /** The original program and the allocated program agree: along every path of the original program,
      with the blocks put in that loop analysis added, the allocated program observes the same, and every
      old value that is live at the end is found in its register or stack slot with the value that it has
      in the original program. */
  lemma OriginalRunAgrees(c: Program, d: Program, cs: seq<Change>, base: Value, a: E.Allocation, f: Semantics,
                          p: seq<Block>)
    requires Preserved(c, d, cs, base) && SsaProgram(d, base) && PhisComplete(d.g, d.body)
    requires Allocated(d, a) && Favourable(a) && InProgram(c, p) && p[0] == START
    ensures var q := ExpandAll(cs, p);
      && InProgram(d, q) && Original(c, f, p).trace == InPlaces(a, f, q).trace
      && forall v: Value :: v < base && LiveAt(d.g, d.body, v, q[|q| - 1], |d.body[q[|q| - 1]].insts|) ==>
           Read(Original(c, f, p), v) == Read(InPlaces(a, f, q), E.Place(a, v))
  {
    hide SsaProgram, PhisComplete, Allocated, Favourable, E.Sound, End, LiveAt, E.Place;
    AllocationIsSound(d, a, base);
    RunIsKept(c, d, cs, base, f, p);
    var q := ExpandAll(cs, p);
    SameProgram(d, a);
    SameNames(d, a, f, q);
    E.AllocatedRunAgrees(a, f, q, |a.body[q[|q| - 1]].insts|);
    hide E.SsaAt, E.PlacedAt, InProgram;
  }

  lemma SameProgram(d: Program, a: E.Allocation)
    requires Allocated(d, a)
    ensures E.Prog(a) == d
  {}

  lemma RunIsKept(c: Program, d: Program, cs: seq<Change>, base: Value, f: Semantics, p: seq<Block>)
    requires Preserved(c, d, cs, base) && InProgram(c, p)
    ensures InProgram(d, ExpandAll(cs, p)) && SameBelow(base, End(c, Self(), f, p), End(d, Self(), f, ExpandAll(cs, p)))
  {
    assert RunKept(c, d, cs, base, p);
    assert SameRun(c, d, base, f, p, ExpandAll(cs, p));
  }
}
