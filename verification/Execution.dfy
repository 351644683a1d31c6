/** Running a program: along a path of blocks, phis are carried out as a parallel copy on the edge
    and instructions one after the other.  Values live in named places: the SSA program names a
    value by itself, an allocated program by its register or stack slot. */
module Execution {
  import opened Cfg
  import opened Ssa

  /** An observable instruction and the operand values it was given. */
  datatype Event = Event(inst: Value, operands: seq<int>)

  datatype Store<K> = Store(vals: map<K, int>, trace: seq<Event>)

  /** What an instruction computes from its operands and everything that has been observed so far. */
  type Semantics = (seq<Event>, Value, seq<int>) -> int

  /** `noUse`: instructions without a result.  `moved`: the phis that are carried out.  `effects`:
      the observable instructions. */
  datatype Program = Program(g: Graph, body: Code, noUse: set<Value>, moved: set<Value>, effects: set<Value>)

  function Read<K>(s: Store<K>, k: K): int {
    if k in s.vals then s.vals[k] else 0
  }

  function Operands<K>(s: Store<K>, name: Value -> K, ins: seq<Value>): seq<int> {
    if ins == [] then [] else [Read(s, name(ins[0]))] + Operands(s, name, ins[1..])
  }

  function Step<K>(c: Program, s: Store<K>, name: Value -> K, f: Semantics, inst: Inst): Store<K> {
    var ops := Operands(s, name, inst.inputs);
    Store(if inst.id in c.noUse then s.vals else s.vals[name(inst.id) := f(s.trace, inst.id, ops)],
          if inst.id in c.effects then s.trace + [Event(inst.id, ops)] else s.trace)
  }

  /** The first input of a phi that comes from `b`. */
  function SourceOf(ins: seq<PhiInput>, b: Block): (v: Value)
    ensures (exists k :: 0 <= k < |ins| && ins[k].source == b) ==>
              exists k :: 0 <= k < |ins| && ins[k] == PhiInput(v, b)
  {
    if ins == [] then 0
    else if ins[0].source == b then
      assert ins[0] == PhiInput(ins[0].value, b);
      ins[0].value
    else
      var v := SourceOf(ins[1..], b);
      assert forall k :: 0 < k < |ins| ==> ins[k] == ins[1..][k - 1];
      v
  }

  /** All phis in `moved` read their inputs from `before` at once. */
  function Copies<K>(before: Store<K>, vals: map<K, int>, name: Value -> K, phis: seq<Phi>, b: Block,
                     moved: set<Value>): map<K, int>
    decreases |phis|
  {
    if phis == [] then vals
    else
      var r := Read(before, name(SourceOf(phis[0].inputs, b)));
      Copies(before, if phis[0].id in moved then vals[name(phis[0].id) := r] else vals, name, phis[1..], b, moved)
  }

  /** Control passes from block `b` to block `s`. */
  function Cross<K>(c: Program, st: Store<K>, name: Value -> K, b: Block, s: Block): Store<K>
    requires s < |c.body|
  {
    Store(Copies(st, st.vals, name, c.body[s].phis, b, c.moved), st.trace)
  }

  function Steps<K>(c: Program, s: Store<K>, name: Value -> K, f: Semantics, insts: seq<Inst>, k: nat): Store<K>
    requires k <= |insts|
  {
    if k == 0 then s else Step(c, Steps(c, s, name, f, insts, k - 1), name, f, insts[k - 1])
  }

  ghost predicate InProgram(c: Program, p: seq<Block>) {
    |c.body| == |c.g| && IsPath(c.g, p)
  }

  /** The store when control has followed `p` and is about to execute its last block. */
  ghost function Enter<K>(c: Program, name: Value -> K, f: Semantics, p: seq<Block>): Store<K>
    requires InProgram(c, p)
    decreases |p|
  {
    if |p| == 1 then Store(map[], [])
    else
      PathSlice(c.g, p, 0, |p| - 1);
      var q := p[0..|p| - 1];
      var a := q[|q| - 1];
      Cross(c, Steps(c, Enter(c, name, f, q), name, f, c.body[a].insts, |c.body[a].insts|), name, a, p[|p| - 1])
  }

  /** The store when `k` instructions of the last block have been executed. */
  ghost function At<K>(c: Program, name: Value -> K, f: Semantics, p: seq<Block>, k: nat): Store<K>
    requires InProgram(c, p) && k <= |c.body[p[|p| - 1]].insts|
  {
    Steps(c, Enter(c, name, f, p), name, f, c.body[p[|p| - 1]].insts, k)
  }

  /** The store at the end of `p`. */
  ghost function End<K>(c: Program, name: Value -> K, f: Semantics, p: seq<Block>): Store<K>
    requires InProgram(c, p)
  {
    At(c, name, f, p, |c.body[p[|p| - 1]].insts|)
  }

  lemma EnterStep<K>(c: Program, name: Value -> K, f: Semantics, p: seq<Block>, q: seq<Block>)
    requires InProgram(c, p) && InProgram(c, q) && |p| > 1 && q == p[0..|p| - 1]
    ensures Enter(c, name, f, p) == Cross(c, End(c, name, f, q), name, q[|q| - 1], p[|p| - 1])
    ensures Edge(c.g, q[|q| - 1], p[|p| - 1])
  {
    assert EdgeAt(c.g, p, |p| - 2);
  }

  ghost predicate Untouched<K(!new)>(name: Value -> K, phis: seq<Phi>, moved: set<Value>, from: nat, k: K) {
    forall q :: from <= q < |phis| && phis[q].id in moved ==> name(phis[q].id) != k
  }

  lemma {:induction false} CopiesOther<K(!new)>(before: Store<K>, vals: map<K, int>, name: Value -> K,
                                                phis: seq<Phi>, b: Block, moved: set<Value>, k: K)
    requires Untouched(name, phis, moved, 0, k)
    ensures var r := Copies(before, vals, name, phis, b, moved);
      (k in r <==> k in vals) && (k in r ==> r[k] == vals[k])
    decreases |phis|
  {
    if phis != [] {
      var r := Read(before, name(SourceOf(phis[0].inputs, b)));
      forall q | 0 <= q < |phis[1..]| && phis[1..][q].id in moved ensures name(phis[1..][q].id) != k {
        assert phis[1..][q] == phis[q + 1];
      }
      CopiesOther(before, if phis[0].id in moved then vals[name(phis[0].id) := r] else vals, name, phis[1..], b,
                  moved, k);
    }
  }

  lemma {:induction false} CopiesOwn<K(!new)>(before: Store<K>, vals: map<K, int>, name: Value -> K,
                                              phis: seq<Phi>, b: Block, moved: set<Value>, q: nat)
    requires q < |phis| && phis[q].id in moved && Untouched(name, phis, moved, q + 1, name(phis[q].id))
    ensures var r := Copies(before, vals, name, phis, b, moved);
      && name(phis[q].id) in r
      && r[name(phis[q].id)] == Read(before, name(SourceOf(phis[q].inputs, b)))
    decreases |phis|
  {
    var r := Read(before, name(SourceOf(phis[0].inputs, b)));
    var vals' := if phis[0].id in moved then vals[name(phis[0].id) := r] else vals;
    forall x | 0 <= x < |phis[1..]| ensures phis[1..][x] == phis[x + 1] {}
    if q == 0 {
      assert Untouched(name, phis[1..], moved, 0, name(phis[0].id));
      CopiesOther(before, vals', name, phis[1..], b, moved, name(phis[0].id));
    } else {
      CopiesOwn(before, vals', name, phis[1..], b, moved, q - 1);
    }
  }

  // ---- Which path a run takes ------------------------------------------------------------------

  /** Picks the successor to go to after a block; branches are observable, so the choice can depend
      on everything observed so far. */
  type Control = (seq<Event>, Block) -> Block

  /** `p` is the path that the program takes under `choose`. */
  ghost predicate Taken(c: Program, f: Semantics, choose: Control, p: seq<Block>) {
    && InProgram(c, p) && p[0] == START
    && forall i {:trigger p[i + 1]} :: 0 <= i < |p| - 1 ==>
         p[i + 1] == choose(TraceAfter(c, f, p, i), p[i])
  }

  /** What has been observed when the `i`-th block of the path has been executed. */
  ghost function TraceAfter(c: Program, f: Semantics, p: seq<Block>, i: nat): seq<Event>
    requires InProgram(c, p) && i < |p|
  {
    PathSlice(c.g, p, 0, i + 1);
    End(c, (v: Value) => v, f, p[0..i + 1]).trace
  }
}
