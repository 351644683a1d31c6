/** The link forest of the dominator tree pass (pass/dom_tree.cpp:53-83) by itself: whatever the order of
    `Link` and `Eval`, the compressed forest answers as the uncompressed one. */
module PathCompression {
  import opened Cfg

  /** The links made so far; a root has none.  Parents have smaller numbers. */
  predicate Links(up: seq<int>) {
    forall v :: 0 <= v < |up| && up[v] != NULL ==> 0 <= up[v] < v
  }

  /** `x` is on the way from `v` to its root. */
  predicate OnPath(up: seq<int>, v: nat, x: nat)
    requires Links(up) && v < |up|
    decreases v
  {
    x == v || (up[v] != NULL && OnPath(up, up[v], x))
  }

  datatype Forest = Forest(ancestor: seq<int>, labels: seq<int>)

  predicate Usable(f: Forest) {
    Links(f.ancestor) && |f.labels| == |f.ancestor| && forall v :: 0 <= v < |f.labels| ==> 0 <= f.labels[v] < |f.labels|
  }

  /** `Compress` as a function; `v` is no root. */
  function Compressed(semi: seq<int>, f: Forest, v: nat): (r: Forest)
    requires Usable(f) && |semi| == |f.ancestor| && v < |semi| && f.ancestor[v] != NULL
    ensures Usable(r) && |r.ancestor| == |semi| && r.ancestor[v] != NULL
    ensures forall x :: v < x < |semi| ==> r.ancestor[x] == f.ancestor[x] && r.labels[x] == f.labels[x]
    decreases v
  {
    var a := f.ancestor[v];
    if f.ancestor[a] == NULL then f else Shortened(semi, Compressed(semi, f, a), v)
  }

  /** `v` inherits the shortcut of its shortcut, and the better label. */
  function Shortened(semi: seq<int>, f: Forest, v: nat): (r: Forest)
    requires Usable(f) && |semi| == |f.ancestor| && v < |semi| && f.ancestor[v] != NULL
    requires f.ancestor[f.ancestor[v]] != NULL
    ensures Usable(r) && |r.ancestor| == |semi| && r.ancestor[v] != NULL
  {
    var a := f.ancestor[v];
    Forest(f.ancestor[v := f.ancestor[a]],
           f.labels[v := if semi[f.labels[a]] < semi[f.labels[v]] then f.labels[a] else f.labels[v]])
  }

  /** The forest after `Eval(v)`. */
  function Evaluated(semi: seq<int>, f: Forest, v: nat): (r: Forest)
    requires Usable(f) && |semi| == |f.ancestor| && v < |semi|
    ensures Usable(r) && |r.ancestor| == |semi|
  {
    if f.ancestor[v] == NULL then f else Compressed(semi, f, v)
  }

  /** What `Eval(v)` returns. */
  function Answer(semi: seq<int>, f: Forest, v: nat): int
    requires Usable(f) && |semi| == |f.ancestor| && v < |semi|
  {
    if f.ancestor[v] == NULL then v else Evaluated(semi, f, v).labels[v]
  }

  // ---- The uncompressed forest ---------------------------------------------------------------------

  /** `l` has the least semidominator of the nodes on the path from `v` up to, but without, `a`. */
  ghost predicate Least(up: seq<int>, semi: seq<int>, a: int, l: int, v: nat)
    requires Links(up) && |semi| == |up| && v < |up|
  {
    && 0 <= l < |up| && a < l && OnPath(up, v, l)
    && forall x: nat :: a < x < |up| && OnPath(up, v, x) ==> semi[l] <= semi[x]
  }

  /** The shortcuts and labels of `f` say the truth about the links `up`. */
  ghost predicate Refines(up: seq<int>, semi: seq<int>, f: Forest) {
    && Links(up) && |semi| == |f.ancestor| == |f.labels| == |up|
    && forall v :: 0 <= v < |up| ==> NodeOk(up, semi, f, v)
  }

  ghost predicate NodeOk(up: seq<int>, semi: seq<int>, f: Forest, v: nat)
    requires Links(up) && |semi| == |f.ancestor| == |f.labels| == |up| && v < |up|
  {
    if up[v] == NULL then f.ancestor[v] == NULL && f.labels[v] == v
    else
      && 0 <= f.ancestor[v] < v && OnPath(up, v, f.ancestor[v])
      && Least(up, semi, f.ancestor[v], f.labels[v], v)
  }

  /** What `Eval` promises: a root is its own answer; for any other node the answer has the least
      semidominator of all nodes of the path below the root. */
  ghost predicate Best(up: seq<int>, semi: seq<int>, v: nat, r: int)
    requires Links(up) && |semi| == |up| && v < |up|
  {
    if up[v] == NULL then r == v
    else
      && 0 <= r < |up| && OnPath(up, v, r) && up[r] != NULL
      && forall x: nat :: x < |up| && OnPath(up, v, x) && up[x] != NULL ==> semi[r] <= semi[x]
  }

  lemma {:induction false} PathDescends(up: seq<int>, v: nat, x: nat)
    requires Links(up) && v < |up| && OnPath(up, v, x)
    ensures x <= v
    decreases v
  {
    if x != v {
      PathDescends(up, up[v], x);
    }
  }

  /** A path through `a` is a path to `a` and one from there. */
  lemma {:induction false} PathThrough(up: seq<int>, v: nat, a: nat, x: nat)
    requires Links(up) && v < |up| && OnPath(up, v, a)
    ensures a <= v
    ensures OnPath(up, a, x) ==> OnPath(up, v, x)
    ensures OnPath(up, v, x) && x <= a ==> OnPath(up, a, x)
    decreases v
  {
    PathDescends(up, v, a);
    if v != a {
      PathThrough(up, up[v], a, x);
    }
  }

  lemma UsableIfRefines(up: seq<int>, semi: seq<int>, f: Forest)
    requires Refines(up, semi, f)
    ensures Usable(f) && forall v :: 0 <= v < |up| ==> (up[v] == NULL <==> f.ancestor[v] == NULL)
  {
    forall v | 0 <= v < |up|
      ensures (up[v] == NULL <==> f.ancestor[v] == NULL) && NULL <= f.ancestor[v] < v && 0 <= f.labels[v] < |up|
    {
      assert NodeOk(up, semi, f, v);
    }
  }

  lemma ShortenedRefines(up: seq<int>, semi: seq<int>, f: Forest, v: nat)
    requires Refines(up, semi, f) && Usable(f) && v < |up| && f.ancestor[v] != NULL
    requires f.ancestor[f.ancestor[v]] != NULL
    ensures Refines(up, semi, Shortened(semi, f, v))
  {
    var a := f.ancestor[v];
    var b := f.ancestor[a];
    var r := Shortened(semi, f, v);
    assert NodeOk(up, semi, f, v) && NodeOk(up, semi, f, a);
    PathThrough(up, v, a, b);
    PathThrough(up, v, a, f.labels[a]);
    forall x: nat | b < x < |up| && OnPath(up, v, x) ensures semi[r.labels[v]] <= semi[x] {
      if x <= a {
        PathThrough(up, v, a, x);
      }
    }
    assert Least(up, semi, b, r.labels[v], v);
    forall x | 0 <= x < |up| ensures NodeOk(up, semi, r, x) {
      assert NodeOk(up, semi, f, x);
    }
  }

  /** Compression keeps the meaning of every shortcut and label, and leads `v` to its root. */
  lemma {:induction false} CompressedRefines(up: seq<int>, semi: seq<int>, f: Forest, v: nat)
    requires Refines(up, semi, f) && Usable(f) && v < |up| && f.ancestor[v] != NULL
    ensures Refines(up, semi, Compressed(semi, f, v)) && up[Compressed(semi, f, v).ancestor[v]] == NULL
    decreases v
  {
    var a := f.ancestor[v];
    UsableIfRefines(up, semi, f);
    if f.ancestor[a] != NULL {
      CompressedRefines(up, semi, f, a);
      ShortenedRefines(up, semi, Compressed(semi, f, a), v);
    }
  }

  /** `Eval` gives the answer of the uncompressed forest. */
  lemma AnswerIsBest(up: seq<int>, semi: seq<int>, f: Forest, v: nat)
    requires Refines(up, semi, f) && Usable(f) && v < |up|
    ensures Refines(up, semi, Evaluated(semi, f, v)) && Best(up, semi, v, Answer(semi, f, v))
  {
    assert NodeOk(up, semi, f, v);
    if f.ancestor[v] != NULL {
      CompressedRefines(up, semi, f, v);
      var r := Compressed(semi, f, v);
      assert NodeOk(up, semi, r, v);
      RootIsLast(up, v, r.ancestor[v]);
    }
  }

  lemma RootIsLast(up: seq<int>, v: nat, r: nat)
    requires Links(up) && v < |up| && OnPath(up, v, r) && r < |up| && up[r] == NULL
    ensures forall x: nat :: x < |up| && OnPath(up, v, x) ==> (up[x] != NULL <==> r < x)
  {
    forall x: nat | x < |up| && OnPath(up, v, x) ensures up[x] != NULL <==> r < x {
      PathThrough(up, v, r, x);
      PathThrough(up, v, x, r);
    }
  }

  // ---- Links and changes of semidominators ---------------------------------------------------------

  /** A link at the root `w` makes paths longer beyond `w` only. */
  lemma {:induction false} PathGrows(up: seq<int>, w: nat, p: nat, v: nat, a: nat, x: nat)
    requires Links(up) && p < w < |up| && up[w] == NULL && v < |up| && OnPath(up, v, a)
    ensures Links(up[w := p]) && OnPath(up[w := p], v, a)
    ensures a <= x && OnPath(up[w := p], v, x) ==> OnPath(up, v, x)
    decreases v
  {
    if v == a {
      if OnPath(up[w := p], v, x) {
        PathDescends(up[w := p], v, x);
      }
    } else {
      PathGrows(up, w, p, up[v], a, x);
    }
  }

  lemma LinkRefines(up: seq<int>, semi: seq<int>, f: Forest, w: nat, p: nat)
    requires Refines(up, semi, f) && p < w < |up| && up[w] == NULL
    ensures Refines(up[w := p], semi, f.(ancestor := f.ancestor[w := p]))
  {
    var now, r := up[w := p], f.(ancestor := f.ancestor[w := p]);
    forall v | 0 <= v < |up| ensures NodeOk(now, semi, r, v) {
      assert NodeOk(up, semi, f, v);
      if v != w && up[v] != NULL {
        var a, l := f.ancestor[v], f.labels[v];
        PathGrows(up, w, p, v, a, a);
        PathGrows(up, w, p, v, l, l);
        forall x: nat | a < x < |up| && OnPath(now, v, x) ensures semi[l] <= semi[x] {
          PathGrows(up, w, p, v, a, x);
        }
      } else if v == w {
        forall x: nat | p < x && OnPath(now, w, x) ensures x == w {
          if x != w {
            PathDescends(now, p, x);
          }
        }
      }
    }
  }

  /** No label speaks of the root. */
  lemma LowerRefines(up: seq<int>, semi: seq<int>, f: Forest, w: nat, s: int)
    requires Refines(up, semi, f) && w < |up| && up[w] == NULL
    ensures Refines(up, semi[w := s], f)
  {
    var now := semi[w := s];
    forall v | 0 <= v < |up| ensures NodeOk(up, now, f, v) {
      assert NodeOk(up, semi, f, v);
      if up[v] != NULL && OnPath(up, v, w) {
        RootIsLast(up, v, w);
        PathThrough(up, v, w, f.ancestor[v]);
        assert w <= f.ancestor[v];
      }
    }
  }

  // ---- Any order of operations ---------------------------------------------------------------------

  datatype Op = Link(parent: nat, node: nat) | Eval(node: nat) | SetSemi(node: nat, value: int)

  /** The links and semidominators, and next to them what the pass keeps. */
  datatype State = State(up: seq<int>, semi: seq<int>, f: Forest)

  /** Only a root is linked, below a smaller number, and only a root gets a new semidominator. */
  predicate Legal(s: State, op: Op) {
    && op.node < |s.up| && (op.Eval? || s.up[op.node] == NULL)
    && (op.Link? ==> op.parent < op.node)
  }

  predicate Sound(s: State) {
    Usable(s.f) && |s.f.ancestor| == |s.semi| == |s.up|
  }

  function Step(s: State, op: Op): (r: State)
    requires Sound(s) && Legal(s, op)
    ensures Sound(r) && |r.up| == |s.up|
  {
    match op
    case Link(p, w) => s.(up := s.up[w := p], f := s.f.(ancestor := s.f.ancestor[w := p]))
    case Eval(v) => s.(f := Evaluated(s.semi, s.f, v))
    case SetSemi(w, d) => s.(semi := s.semi[w := d])
  }

  predicate LegalRun(s: State, ops: seq<Op>)
    requires Sound(s)
    decreases |ops|
  {
    ops == [] || (Legal(s, ops[0]) && LegalRun(Step(s, ops[0]), ops[1..]))
  }

  /** The state before operation `i`. */
  function At(s: State, ops: seq<Op>, i: nat): (r: State)
    requires Sound(s) && LegalRun(s, ops) && i <= |ops|
    ensures Sound(r) && |r.up| == |s.up|
    decreases |ops|
  {
    if i == 0 then s else At(Step(s, ops[0]), ops[1..], i - 1)
  }

  /** Nothing is linked and every label is the node itself. */
  predicate Fresh(s: State) {
    Sound(s) && forall v :: 0 <= v < |s.up| ==> s.up[v] == s.f.ancestor[v] == NULL && s.f.labels[v] == v
  }

  lemma StepRefines(s: State, op: Op)
    requires Sound(s) && Legal(s, op) && Refines(s.up, s.semi, s.f)
    ensures var r := Step(s, op); Refines(r.up, r.semi, r.f)
  {
    match op
    case Link(p, w) => LinkRefines(s.up, s.semi, s.f, w, p);
    case Eval(v) => AnswerIsBest(s.up, s.semi, s.f, v);
    case SetSemi(w, d) => LowerRefines(s.up, s.semi, s.f, w, d);
  }

  lemma {:induction false} RunRefines(s: State, ops: seq<Op>, i: nat)
    requires Sound(s) && LegalRun(s, ops) && i <= |ops| && Refines(s.up, s.semi, s.f)
    ensures var r := At(s, ops, i); Refines(r.up, r.semi, r.f)
    ensures i < |ops| ==> Legal(At(s, ops, i), ops[i])
    decreases |ops|
  {
    if i > 0 {
      StepRefines(s, ops[0]);
      RunRefines(Step(s, ops[0]), ops[1..], i - 1);
    }
  }

  /** Every `Eval` of every legal sequence of operations answers as the uncompressed forest does. */
  lemma EveryAnswerBest(s: State, ops: seq<Op>, i: nat, v: nat)
    requires Fresh(s) && LegalRun(s, ops) && i < |ops| && ops[i] == Eval(v)
    ensures var r := At(s, ops, i); v < |r.up| && Links(r.up) && Best(r.up, r.semi, v, Answer(r.semi, r.f, v))
  {
    RunRefines(s, ops, i);
    var r := At(s, ops, i);
    AnswerIsBest(r.up, r.semi, r.f, v);
  }
}
