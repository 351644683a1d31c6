/** The dominator tree pass (pass/dom_tree.cpp): Lengauer-Tarjan with path compression.
    `tree_` is reserved once and filled in depth-first order, so a `Node*` is modelled by its
    index and comparing pointers is comparing `dfs_idx`. */
module DominatorTree {
  import opened Cfg
  import opened Semidominators
  import opened Traversal
  import opened PathCompression

  /** The reachable part of `g` with every block replaced by its position in `order`. */
  ghost function Renumber(g: Graph, order: seq<Block>): Graph
    requires forall i :: 0 <= i < |order| ==> order[i] < |g|
    requires forall i, s :: 0 <= i < |order| && s in g[order[i]] ==> s in order
  {
    seq(|order|, i requires 0 <= i < |order| =>
      seq(|g[order[i]]|, j requires 0 <= j < |g[order[i]]| => IndexOf(order, g[order[i]][j])))
  }

  /** Nodes `[0, c)` have been visited and point to themselves, the others are unset. */
  ghost predicate SelfUpTo(s: seq<int>, c: nat) {
    forall i :: 0 <= i < |s| ==> s[i] == if i < c then i else NULL
  }

  lemma VisitNext(s: seq<int>, c: nat)
    requires SelfUpTo(s, c) && c < |s|
    ensures SelfUpTo(s[c := c], c + 1)
  {}

  /** What `FillTree_` writes besides `semi` and `label`: tree parents and predecessor lists.
      `last[v]` is the number of nodes visited when `FillTree_(v)` returned. */
  datatype Filling = Filling(parent: seq<int>, last: seq<nat>, pred: seq<seq<nat>>)

  ghost predicate Sized(tg: Graph, s: Filling) {
    |s.parent| == |s.last| == |s.pred| == |tg|
  }

  /** Facts about one finished node `x` among the descendants `(v, hi)` of `v`. */
  ghost predicate Settled(tg: Graph, parent: seq<int>, last: seq<nat>, v: nat, hi: nat, x: nat)
    requires |parent| == |last| == |tg| && v < x < |tg| && hi <= |tg|
  {
    && x < last[x] <= hi && v <= parent[x] < x && Edge(tg, parent[x], x)
    && (parent[x] > v ==> Anc(last, parent[x], x))
    && (forall y: nat :: Edge(tg, x, y) ==> y < last[x])
    && (forall y: nat {:trigger Anc(last, x, y)} :: x < y < hi && Anc(last, x, y) ==>
          last[y] <= last[x] && x <= parent[y])
  }

  /** The strict descendants of `v` found so far are `(v, hi)`, with finished subtrees. */
  ghost predicate Partial(tg: Graph, parent: seq<int>, last: seq<nat>, v: nat, hi: nat)
    requires |parent| == |last| == |tg| && hi <= |tg|
  {
    forall x :: v < x < hi ==> Settled(tg, parent, last, v, hi, x)
  }

  /** `s` is `s0` after visiting `v` and `c - v - 1` descendants, with the first `k` successors
      of `v` handled. */
  ghost predicate Visiting(tg: Graph, s0: Filling, s: Filling, v: nat, c: nat, k: nat) {
    && Sized(tg, s0) && Sized(tg, s) && v < c <= |tg| && k <= |tg[v]|
    && (forall i :: 0 <= i < |tg| && (i <= v || i >= c) ==>
          s.parent[i] == s0.parent[i] && s.last[i] == s0.last[i])
    && Partial(tg, s.parent, s.last, v, c)
    && (forall j :: 0 <= j < k ==> tg[v][j] < c)
    && (forall x: nat, w :: 0 <= w < |tg| ==>
          (x in s.pred[w] <==>
             x in s0.pred[w] || (v < x < c && Edge(tg, x, w)) || (x == v && w in tg[v][..k])))
  }

  /** `s` is `s0` after the whole visit of `v`, which numbered the nodes `[v, c)`. */
  ghost predicate Visited(tg: Graph, s0: Filling, s: Filling, v: nat, c: nat) {
    && Sized(tg, s0) && Sized(tg, s) && v < c <= |tg|
    && (forall i :: 0 <= i < |tg| && (i <= v || i >= c) ==> s.parent[i] == s0.parent[i])
    && (forall i :: 0 <= i < |tg| && (i < v || i >= c) ==> s.last[i] == s0.last[i])
    && Partial(tg, s.parent, s.last, v, c) && s.last[v] == c
    && (forall y: nat :: Edge(tg, v, y) ==> y < c)
    && (forall x: nat, w :: 0 <= w < |tg| ==>
          (x in s.pred[w] <==> x in s0.pred[w] || (v <= x < c && Edge(tg, x, w))))
  }

  lemma PartialMerge(tg: Graph, parent0: seq<int>, last0: seq<nat>, parent: seq<int>, last: seq<nat>,
                     v: nat, c: nat, hi: nat)
    requires |parent0| == |parent| == |last0| == |last| == |tg| && v < c < hi <= |tg|
    requires Partial(tg, parent0, last0, v, c)
    requires forall i :: 0 <= i < c ==> parent[i] == parent0[i] && last[i] == last0[i]
    requires Partial(tg, parent, last, c, hi) && last[c] == hi
    requires parent[c] == v && Edge(tg, v, c)
    requires forall y: nat :: Edge(tg, c, y) ==> y < hi
    ensures Partial(tg, parent, last, v, hi)
  {
    forall x | v < x < hi ensures Settled(tg, parent, last, v, hi, x) {
      if x < c {
        assert Settled(tg, parent0, last0, v, c, x);
        forall y: nat | x < y < hi && Anc(last, x, y) ensures last[y] <= last[x] && x <= parent[y] {
          assert Anc(last0, x, y);
        }
        if parent[x] > v {
          assert Anc(last0, parent0[x], x);
        }
      } else if x > c {
        assert Settled(tg, parent, last, c, hi, x);
      } else {
        forall y: nat | x < y < hi && Anc(last, x, y) ensures last[y] <= last[x] && x <= parent[y] {
          assert Settled(tg, parent, last, c, hi, y);
        }
      }
    }
  }

  lemma ChildVisited(tg: Graph, s0: Filling, s: Filling, s': Filling, v: nat, c: nat, hi: nat, k: nat)
    requires Visiting(tg, s0, s, v, c, k) && k < |tg[v]| && tg[v][k] == c < |tg|
    requires Visited(tg, s.(parent := s.parent[c := v]), s', c, hi)
    ensures Visiting(tg, s0, s', v, hi, k)
  {
    PartialMerge(tg, s.parent, s.last, s'.parent, s'.last, v, c, hi);
  }

  lemma EdgeRecorded(tg: Graph, s0: Filling, s: Filling, v: nat, c: nat, k: nat)
    requires Visiting(tg, s0, s, v, c, k) && k < |tg[v]| && tg[v][k] < c
    ensures Visiting(tg, s0, s.(pred := s.pred[tg[v][k] := s.pred[tg[v][k]] + [v]]), v, c, k + 1)
  {
    assert tg[v][..k + 1] == tg[v][..k] + [tg[v][k]];
  }

  lemma VisitStart(tg: Graph, s: Filling, v: nat)
    requires v < |tg| && Sized(tg, s)
    ensures Visiting(tg, s, s, v, v + 1, 0)
  {}

  lemma VisitDone(tg: Graph, s0: Filling, s: Filling, v: nat, c: nat)
    requires v < |tg| && Visiting(tg, s0, s, v, c, |tg[v]|)
    ensures Visited(tg, s0, s.(last := s.last[v := c]), v, c)
  {
    assert tg[v][..|tg[v]|] == tg[v];
    var last' := s.last[v := c];
    forall x | v < x < c ensures Settled(tg, s.parent, last', v, c, x) {
      assert Settled(tg, s.parent, s.last, v, c, x);
      assert forall y :: Anc(last', x, y) == Anc(s.last, x, y);
      if s.parent[x] > v {
        assert Anc(last', s.parent[x], x) == Anc(s.last, s.parent[x], x);
      }
    }
  }

  /** `blocks[v..end]` is the depth-first visit of `blocks[v]`. */
  ghost predicate SubtreeAt(g: Graph, blocks: seq<Block>, v: nat, end: nat)
    requires Valid(g)
  {
    && v < end <= |blocks| && blocks[v] < |g|
    && blocks[v..end] == Pre(g, blocks[v], Elems(blocks[..v]))
  }

  /** `blocks[c..end]` is what remains to be visited from the successors `succs[k..]`. */
  ghost predicate Remaining(g: Graph, blocks: seq<Block>, succs: seq<Block>, k: nat, c: nat, end: nat)
    requires Valid(g) && InRange(g, succs)
  {
    && k <= |succs| && c <= end <= |blocks|
    && blocks[c..end] == PreList(g, succs[k..], Elems(blocks[..c]))
  }

  lemma FirstSuccessor(g: Graph, blocks: seq<Block>, v: nat, end: nat)
    requires Valid(g) && SubtreeAt(g, blocks, v, end)
    ensures Remaining(g, blocks, g[blocks[v]], 0, v + 1, end)
  {
    var vis := Elems(blocks[..v]);
    assert blocks[..v + 1] == blocks[..v] + [blocks[v]];
    ElemsConcat(blocks[..v], [blocks[v]]);
    assert Elems([blocks[v]]) == {blocks[v]};
    assert g[blocks[v]][0..] == g[blocks[v]];
    assert Pre(g, blocks[v], vis) == [blocks[v]] + PreList(g, g[blocks[v]], vis + {blocks[v]});
    assert blocks[v + 1..end] == blocks[v..end][1..];
  }

  /** What the block order promises about the next unprocessed successor: it is either an
      earlier block or exactly the next block. */
  lemma NextSuccessor(g: Graph, blocks: seq<Block>, succs: seq<Block>, k: nat, c: nat, end: nat)
    returns (c': nat)
    requires Valid(g) && InRange(g, succs) && Remaining(g, blocks, succs, k, c, end) && k < |succs|
    ensures Remaining(g, blocks, succs, k + 1, c', end)
    ensures if succs[k] in blocks[..c] then c' == c
            else c < |blocks| && blocks[c] == succs[k] && SubtreeAt(g, blocks, c, c')
  {
    var vis := Elems(blocks[..c]);
    var p := Pre(g, succs[k], vis);
    var rest := PreList(g, succs[k + 1..], vis + Elems(p));
    assert succs[k..][1..] == succs[k + 1..];
    assert blocks[c..end] == p + rest;
    c' := c + |p|;
    assert blocks[c..c'] == blocks[c..end][..|p|] == p;
    assert blocks[c'..end] == blocks[c..end][|p|..] == rest;
    assert blocks[..c'] == blocks[..c] + p;
    ElemsConcat(blocks[..c], p);
    if succs[k] !in blocks[..c] {
      assert p[0] == succs[k];
      assert blocks[c] == blocks[c..c'][0];
    }
  }

  lemma NothingRemains(g: Graph, blocks: seq<Block>, succs: seq<Block>, c: nat, end: nat)
    requires Valid(g) && InRange(g, succs) && Remaining(g, blocks, succs, |succs|, c, end)
    ensures c == end
  {
    assert |blocks[c..end]| == 0;
  }

  /** `blocks` is the depth-first order of `g` and `idx` inverts it. */
  ghost predicate Indexing(g: Graph, blocks: seq<Block>, idx: map<Block, nat>) {
    && Valid(g) && blocks == Pre(g, START, {}) && |blocks| > 0
    && (forall i :: 0 <= i < |blocks| ==> blocks[i] < |g|)
    && (forall i, s :: 0 <= i < |blocks| && s in g[blocks[i]] ==> s in blocks)
    && (forall i :: 0 <= i < |blocks| ==> blocks[i] in idx && idx[blocks[i]] == i)
  }

  lemma SuccessorsKnown(g: Graph, blocks: seq<Block>, idx: map<Block, nat>, v: nat)
    requires Indexing(g, blocks, idx) && v < |blocks|
    ensures Valid(g) && blocks[v] < |g| && InRange(g, g[blocks[v]])
    ensures |Renumber(g, blocks)| == |blocks| && |Renumber(g, blocks)[v]| == |g[blocks[v]]|
  {}

  lemma SuccessorIndex(g: Graph, blocks: seq<Block>, idx: map<Block, nat>, v: nat, k: nat, c: nat)
    requires Indexing(g, blocks, idx) && v < |blocks|
    requires k < |g[blocks[v]]| && c <= |blocks|
    ensures g[blocks[v]][k] in idx && k < |Renumber(g, blocks)[v]|
    ensures idx[g[blocks[v]][k]] == Renumber(g, blocks)[v][k] < |blocks|
    ensures idx[g[blocks[v]][k]] < c <==> g[blocks[v]][k] in blocks[..c]
    ensures c < |blocks| && blocks[c] == g[blocks[v]][k] ==> idx[g[blocks[v]][k]] == c
  {
    var s := g[blocks[v]][k];
    assert s in g[blocks[v]];
    var w := Renumber(g, blocks)[v][k];
    assert blocks[w] == s;
    if w < c {
      assert blocks[..c][w] == s;
    }
  }

  /** The links when the nodes `>= cur` are linked below their tree parents. */
  function UpTo(parent: seq<int>, cur: nat): (r: seq<int>)
    ensures |r| == |parent|
  {
    seq(|parent|, v requires 0 <= v < |parent| => if v < cur then NULL else parent[v])
  }

  /** Shortcuts and labels are right for the nodes `>= cur` being linked below their tree parents. */
  ghost predicate LinkForest(parent: seq<int>, semi: seq<int>, f: Forest, cur: nat) {
    Refines(UpTo(parent, cur), semi, f)
  }

  /** `r` is what `Eval` returns on the uncompressed forest: `v` itself when `v` is a root, or
      else a node of least semidominator on the link path of `v` below its root. */
  ghost predicate IsEval(last: seq<nat>, semi: seq<int>, cur: nat, v: nat, r: int)
    requires |semi| == |last|
  {
    if v < cur then r == v
    else
      && cur <= r < |last| && Anc(last, r, v)
      && forall x: nat {:trigger Anc(last, x, v)} :: cur <= x < |last| && Anc(last, x, v) ==> semi[r] <= semi[x]
  }

  /** The value that processing the bucket of `semi[v]` leaves in `dom[v]`. */
  ghost predicate DomReady(last: seq<nat>, semi: seq<int>, d: int, v: nat)
    requires |semi| == |last| && v < |last|
  {
    && 0 <= d < |last| && semi[v] <= d
    && (d == semi[v] || (Anc(last, d, v) && semi[d] < semi[v]))
    && forall x: nat {:trigger Anc(last, x, v)} :: semi[v] < x < |last| && Anc(last, x, v) ==>
         semi[if d == semi[v] then v else d] <= semi[x]
  }

  /** The whole tree path strictly below `semi[v]` is linked. */
  ghost predicate PathLinked(last: seq<nat>, semi: seq<int>, v: nat, cur: nat)
    requires |semi| == |last| && v < |last|
  {
    forall x: nat {:trigger Anc(last, x, v)} :: semi[v] < x < |last| && Anc(last, x, v) ==> cur <= x
  }

  /** The semidominator recurrence: a value below all candidates that is itself the source of a
      semidominator path is the semidominator. */
  lemma SemiComputed(tg: Graph, parent: seq<int>, last: seq<nat>, semi: seq<int>, w: nat)
    requires DfsTree(tg, parent, last) && |semi| == |tg| && 0 < w < |tg| && 0 <= semi[w]
    requires forall x :: w < x < |tg| ==> 0 <= semi[x] && IsSemi(tg, semi[x], x)
    requires semi[w] == w || exists p :: SemiPath(tg, p, w) && p[0] == semi[w]
    requires forall v: nat :: v <= w && Edge(tg, v, w) ==> semi[w] <= v
    requires forall v: nat, x: nat {:trigger Anc(last, x, v), Edge(tg, v, w)} ::
               w < x < |tg| && Anc(last, x, v) && Edge(tg, v, w) ==> semi[w] <= semi[x]
    ensures IsSemi(tg, semi[w], w)
  {
    assert Edge(tg, parent[w], w);
    forall p | SemiPath(tg, p, w) ensures semi[w] <= p[0] {
      if |p| == 2 {
        assert EdgeAt(tg, p, 0);
      } else {
        var j := PathHasCandidate(tg, parent, last, p, w);
        assert EdgeAt(tg, p, |p| - 2);
        assert IsSemi(tg, semi[p[j]], p[j]);
        assert p[..j + 1][0] == p[0];
      }
    }
  }

  ghost predicate PredsExact(tg: Graph, pred: seq<seq<nat>>) {
    |pred| == |tg| && forall x: nat, w :: 0 <= w < |tg| ==> (x in pred[w] <==> Edge(tg, x, w))
  }

  lemma WholeVisitNode(tg: Graph, parent: seq<int>, last: seq<nat>, v: nat)
    requires |parent| == |last| == |tg| && v < |tg| && last[0] == |tg|
    requires Partial(tg, parent, last, 0, |tg|) && InRange(tg, tg[v])
    ensures v < last[v] <= |tg|
    ensures v > 0 ==> 0 <= parent[v] < v && Anc(last, parent[v], v) && Edge(tg, parent[v], v)
    ensures forall w: nat :: v <= w < |tg| && Anc(last, v, w) ==> last[w] <= last[v]
    ensures forall w: nat :: v < w < |tg| && Anc(last, v, w) ==> v <= parent[w]
    ensures forall w: nat :: Edge(tg, v, w) ==> w < last[v]
  {
    if v > 0 {
      assert Settled(tg, parent, last, 0, |tg|, v);
    } else {
      forall w: nat | 0 < w < |tg| ensures last[w] <= |tg| && 0 <= parent[w] {
        assert Settled(tg, parent, last, 0, |tg|, w);
      }
    }
  }

  lemma WholeVisitIsDfsTree(tg: Graph, s0: Filling, s: Filling)
    requires Valid(tg) && Visited(tg, s0, s, 0, |tg|)
    requires forall w :: 0 <= w < |tg| ==> s0.pred[w] == []
    ensures DfsTree(tg, s.parent, s.last) && PredsExact(tg, s.pred)
  {
    forall v: nat | v < |tg|
      ensures v < s.last[v] <= |tg|
      ensures v > 0 ==> 0 <= s.parent[v] < v && Anc(s.last, s.parent[v], v) && Edge(tg, s.parent[v], v)
      ensures forall w: nat :: v <= w < |tg| && Anc(s.last, v, w) ==> s.last[w] <= s.last[v]
      ensures forall w: nat :: v < w < |tg| && Anc(s.last, v, w) ==> v <= s.parent[w]
      ensures forall w: nat :: Edge(tg, v, w) ==> w < s.last[v]
    {
      hide Partial;
      WholeVisitNode(tg, s.parent, s.last, v);
    }
  }

  lemma WholeOrder(g: Graph, blocks: seq<Block>, idx: map<Block, nat>)
    requires Valid(g) && blocks == Pre(g, START, {})
    requires forall i :: 0 <= i < |blocks| ==> blocks[i] in idx && idx[blocks[i]] == i
    ensures Indexing(g, blocks, idx) && SubtreeAt(g, blocks, 0, |blocks|)
  {
    PreExplores(g, START, {});
    assert blocks[0] == START;
    assert blocks[..0] == [] && blocks[0..|blocks|] == blocks;
    assert Elems(blocks[..0]) == {};
    assert forall i :: 0 <= i < |blocks| ==> blocks[i] in blocks;
    forall i, s | 0 <= i < |blocks| && s in g[blocks[i]] ensures s in blocks {
    }
  }

  lemma RenumberValid(g: Graph, blocks: seq<Block>, idx: map<Block, nat>)
    requires Indexing(g, blocks, idx)
    ensures Valid(Renumber(g, blocks)) && |Renumber(g, blocks)| == |blocks|
  {}

  lemma LinkStep(tg: Graph, parent: seq<int>, last: seq<nat>, semi: seq<int>, f: Forest, w: nat)
    requires DfsTree(tg, parent, last) && LinkForest(parent, semi, f, w + 1) && 0 < w < |tg|
    ensures LinkForest(parent, semi, f.(ancestor := f.ancestor[w := parent[w]]), w)
  {
    LinkRefines(UpTo(parent, w + 1), semi, f, w, parent[w]);
    assert UpTo(parent, w) == UpTo(parent, w + 1)[w := parent[w]];
  }

  /** The way to the root is the part of the tree path that is linked. */
  lemma {:induction false} LinkPath(tg: Graph, parent: seq<int>, last: seq<nat>, cur: nat, v: nat, x: nat)
    requires DfsTree(tg, parent, last) && 0 < cur && v < |tg|
    ensures Links(UpTo(parent, cur))
    ensures OnPath(UpTo(parent, cur), v, x) <==>
              Anc(last, x, v) && forall y: nat {:trigger Anc(last, y, v)} :: x < y && Anc(last, y, v) ==> cur <= y
    decreases v
  {
    if v >= cur && x != v {
      var p := parent[v];
      LinkPath(tg, parent, last, cur, p, x);
      forall y: nat | y != v ensures Anc(last, y, v) <==> Anc(last, y, p) {
        if Anc(last, y, v) {
          assert y <= p;
        }
      }
    } else {
      assert Anc(last, v, v);
    }
  }

  /** `Eval` keeps the forest and gives what the tree demands. */
  lemma EvalStep(tg: Graph, parent: seq<int>, last: seq<nat>, semi: seq<int>, f: Forest, v: nat, cur: nat)
    requires DfsTree(tg, parent, last) && LinkForest(parent, semi, f, cur) && 0 < cur && v < |tg|
    ensures Usable(f) && |semi| == |f.ancestor| == |tg| && LinkForest(parent, semi, Evaluated(semi, f, v), cur)
    ensures IsEval(last, semi, cur, v, Answer(semi, f, v)) && 0 <= Answer(semi, f, v) < |tg|
  {
    var up := UpTo(parent, cur);
    UsableIfRefines(up, semi, f);
    AnswerIsBest(up, semi, f, v);
    var r := Answer(semi, f, v);
    assert 0 <= r < |tg|;
    LinkPath(tg, parent, last, cur, v, r);
    forall x: nat | cur <= x < |last| && Anc(last, x, v) ensures v >= cur ==> semi[r] <= semi[x] {
      LinkPath(tg, parent, last, cur, v, x);
    }
  }

  lemma LowerStep(parent: seq<int>, semi: seq<int>, f: Forest, w: nat, s: int)
    requires LinkForest(parent, semi, f, w + 1) && w < |parent|
    ensures LinkForest(parent, semi[w := s], f, w + 1)
  {
    LowerRefines(UpTo(parent, w + 1), semi, f, w, s);
  }

  lemma ForestUsable(parent: seq<int>, semi: seq<int>, f: Forest, cur: nat)
    requires LinkForest(parent, semi, f, cur)
    ensures Usable(f) && |semi| == |f.ancestor| == |parent|
  {
    UsableIfRefines(UpTo(parent, cur), semi, f);
  }

  /** Semidominators are final for the nodes `>= cur` and initial below. */
  ghost predicate SemiState(tg: Graph, semi: seq<int>, cur: nat) {
    && |semi| == |tg|
    && (forall x :: 0 <= x < |tg| && x < cur ==> semi[x] == x)
    && (forall x :: cur <= x < |tg| && x > 0 ==> 0 <= semi[x] && IsSemi(tg, semi[x], x))
  }

  ghost predicate BucketState(semi: seq<int>, bucket: seq<seq<nat>>, cur: nat) {
    && |bucket| == |semi|
    && (forall v :: cur <= v < |semi| ==> 0 <= semi[v] < |semi| && v in bucket[semi[v]])
    && (forall p, j :: 0 <= p < |semi| && 0 <= j < |bucket[p]| ==>
          cur <= bucket[p][j] < |semi| && semi[bucket[p][j]] == p)
  }

  ghost predicate DomState(last: seq<nat>, semi: seq<int>, dom: seq<int>, cur: nat) {
    && |dom| == |semi| == |last|
    && forall v :: cur <= v < |semi| && PathLinked(last, semi, v, cur) ==>
         DomReady(last, semi, dom[v], v)
  }

  /** `semi[w]` is at most what the predecessors in `vs` offer through `Eval`, and it is the
      source of a semidominator path unless nothing better than `w` was offered. */
  ghost predicate Offered(tg: Graph, last: seq<nat>, semi: seq<int>, vs: seq<nat>, w: nat) {
    && |semi| == |last| == |tg| && w < |tg| && 0 <= semi[w] <= w
    && (semi[w] == w || exists p :: SemiPath(tg, p, w) && p[0] == semi[w])
    && (forall v :: v in vs && v <= w ==> semi[w] <= v)
    && (forall v, x: nat {:trigger v in vs, Anc(last, x, v)} ::
          v in vs && w < x < |tg| && Anc(last, x, v) ==> semi[w] <= semi[x])
  }

  lemma OfferNext(tg: Graph, parent: seq<int>, last: seq<nat>, semi: seq<int>, vs: seq<nat>,
                  v: nat, u: int, w: nat)
    requires DfsTree(tg, parent, last) && 0 < w && Offered(tg, last, semi, vs, w)
    requires forall x :: 0 <= x < w ==> semi[x] == x
    requires forall x :: w < x < |tg| ==> 0 <= semi[x] && IsSemi(tg, semi[x], x)
    requires Edge(tg, v, w) && v < |tg| && IsEval(last, semi, w + 1, v, u)
    ensures 0 <= u < |tg|
    ensures var s := if semi[u] < semi[w] then semi[u] else semi[w];
      Offered(tg, last, semi[w := s], vs + [v], w)
  {
    if semi[u] < semi[w] {
      var semi' := semi[w := semi[u]];
      if v < w {
        EdgePath(tg, v, w);
        assert SemiPath(tg, [v, w], w);
      } else {
        assert v > w && IsSemi(tg, semi[u], u);
        CandidateHasPath(tg, parent, last, semi[u], u, v, w);
      }
      assert exists p :: SemiPath(tg, p, w) && p[0] == semi'[w];
    }
  }

  lemma OfferStart(tg: Graph, last: seq<nat>, semi: seq<int>, w: nat)
    requires |semi| == |last| == |tg| && w < |tg| && semi[w] == w
    ensures Offered(tg, last, semi, [], w)
  {}

  lemma PredIsEdge(tg: Graph, pred: seq<seq<nat>>, w: nat, k: nat)
    requires PredsExact(tg, pred) && w < |tg| && k < |pred[w]|
    ensures Edge(tg, pred[w][k], w) && pred[w][k] < |tg|
  {
    assert pred[w][k] in pred[w];
  }

  lemma OffersDecide(tg: Graph, parent: seq<int>, last: seq<nat>, semi: seq<int>,
                     pred: seq<seq<nat>>, w: nat)
    requires DfsTree(tg, parent, last) && 0 < w < |tg| && PredsExact(tg, pred)
    requires Offered(tg, last, semi, pred[w], w)
    requires forall x :: 0 <= x < w ==> semi[x] == x
    requires forall x :: w < x < |tg| ==> 0 <= semi[x] && IsSemi(tg, semi[x], x)
    ensures SemiState(tg, semi, w) && semi[w] < w
  {
    SemiComputed(tg, parent, last, semi, w);
    SemiIsProperAncestor(tg, parent, last, semi[w], w);
  }

  /** What evaluating a member of the bucket of `p = parent[w]` decides, right after linking `w`.
      Nothing depends on whether the same member was evaluated before. */
  lemma BucketMember(tg: Graph, parent: seq<int>, last: seq<nat>, semi: seq<int>, v: nat, u: int, w: nat)
    requires DfsTree(tg, parent, last) && |semi| == |tg| && 0 < w <= v < |tg|
    requires IsSemi(tg, parent[w], v) && semi[v] == parent[w] && IsEval(last, semi, w, v, u)
    ensures 0 <= u < |tg|
    ensures DomReady(last, semi, if semi[u] < semi[v] then u else parent[w], v)
  {
    var p := parent[w];
    SemiIsProperAncestor(tg, parent, last, p, v);
    forall x: nat | p < x < |last| && Anc(last, x, v) ensures w <= x {
      if x < w {
        assert Anc(last, x, w);
      }
    }
  }

  /** The nodes that become decidable when `w` is linked are those in the bucket of its parent. */
  lemma NewlyLinked(tg: Graph, parent: seq<int>, last: seq<nat>, semi: seq<int>, v: nat, w: nat)
    requires DfsTree(tg, parent, last) && |semi| == |tg| && 0 < w <= v < |tg|
    requires 0 <= semi[v] && IsSemi(tg, semi[v], v)
    requires PathLinked(last, semi, v, w) && (v == w || !PathLinked(last, semi, v, w + 1))
    ensures semi[v] == parent[w]
  {
    SemiIsProperAncestor(tg, parent, last, semi[v], v);
    assert Anc(last, w, v) && semi[v] < w;
    assert Anc(last, semi[v], w);
    assert Anc(last, parent[w], v);
  }

  lemma BucketEntry(tg: Graph, semi: seq<int>, bucket: seq<seq<nat>>, w: nat, p: int, k: nat)
    requires SemiState(tg, semi, w) && BucketState(semi, bucket, w) && 0 < w
    requires 0 <= p < |bucket| && k < |bucket[p]|
    ensures w <= bucket[p][k] < |semi| == |tg| && semi[bucket[p][k]] == p && IsSemi(tg, p, bucket[p][k])
  {}

  lemma BucketPush(semi0: seq<int>, semi: seq<int>, bucket: seq<seq<nat>>, w: nat)
    requires BucketState(semi0, bucket, w + 1) && |semi| == |semi0| && w < |semi|
    requires forall x :: 0 <= x < |semi| && x != w ==> semi[x] == semi0[x]
    requires 0 <= semi[w] < |semi|
    ensures BucketState(semi, bucket[semi[w] := bucket[semi[w]] + [w]], w)
  {
    var bucket' := bucket[semi[w] := bucket[semi[w]] + [w]];
    forall v | w <= v < |semi| ensures 0 <= semi[v] < |semi| && v in bucket'[semi[v]] {
      if v == w {
        assert bucket'[semi[w]][|bucket[semi[w]]|] == w;
      }
    }
  }

  lemma DomUpdate(last: seq<nat>, semi: seq<int>, dom: seq<int>, v: nat, d: int, cur: nat)
    requires DomState(last, semi, dom, cur) && v < |dom| && DomReady(last, semi, d, v)
    ensures DomState(last, semi, dom[v := d], cur)
  {}

  lemma InitialState(tg: Graph, parent: seq<int>, last: seq<nat>, semi: seq<int>, f: Forest,
                     dom: seq<int>, bucket: seq<seq<nat>>)
    requires |semi| == |f.ancestor| == |f.labels| == |dom| == |bucket| == |parent| == |last| == |tg|
    requires SelfUpTo(semi, |tg|) && SelfUpTo(f.labels, |tg|) && SelfUpTo(f.ancestor, 0)
    requires forall p :: 0 <= p < |bucket| ==> bucket[p] == []
    ensures LinkForest(parent, semi, f, |tg|) && SemiState(tg, semi, |tg|)
    ensures BucketState(semi, bucket, |tg|) && DomState(last, semi, dom, |tg|)
  {}

  /** The bucket entries `vs[..k]` have been processed. */
  ghost predicate BucketDone(last: seq<nat>, semi: seq<int>, dom: seq<int>, vs: seq<nat>, k: nat) {
    && k <= |vs| && |dom| == |semi| == |last|
    && forall j :: 0 <= j < k ==> vs[j] < |dom| && DomReady(last, semi, dom[vs[j]], vs[j])
  }

  lemma BucketDoneStep(last: seq<nat>, semi: seq<int>, dom: seq<int>, vs: seq<nat>, k: nat, d: int)
    requires BucketDone(last, semi, dom, vs, k) && k < |vs| && vs[k] < |dom|
    requires DomReady(last, semi, d, vs[k])
    ensures BucketDone(last, semi, dom[vs[k] := d], vs, k + 1)
  {
    hide DomReady;
  }

  lemma BucketDoneStart(last: seq<nat>, semi: seq<int>, dom: seq<int>, vs: seq<nat>)
    requires |dom| == |semi| == |last|
    ensures BucketDone(last, semi, dom, vs, 0)
  {}

  lemma DomStateStep(tg: Graph, parent: seq<int>, last: seq<nat>, semi: seq<int>, dom: seq<int>,
                     bucket: seq<seq<nat>>, w: nat)
    requires DfsTree(tg, parent, last) && 0 < w < |tg| && |dom| == |tg|
    requires SemiState(tg, semi, w) && BucketState(semi, bucket, w)
    requires DomState(last, semi, dom, w + 1)
    requires BucketDone(last, semi, dom, bucket[parent[w]], |bucket[parent[w]]|)
    ensures DomState(last, semi, dom, w)
  {
    forall v | w <= v < |semi| && PathLinked(last, semi, v, w) ensures DomReady(last, semi, dom[v], v) {
      if v == w || !PathLinked(last, semi, v, w + 1) {
        NewlyLinked(tg, parent, last, semi, v, w);
        assert v in bucket[parent[w]];
      }
    }
  }

  /** Changing the semidominator of the node about to be linked disturbs nothing below it. */
  lemma DomStateLocal(last: seq<nat>, semi: seq<int>, semi': seq<int>, dom: seq<int>, w: nat)
    requires DomState(last, semi, dom, w + 1) && |semi'| == |semi|
    requires forall x :: w < x < |semi| ==> semi'[x] == semi[x]
    ensures DomState(last, semi', dom, w + 1)
  {
    forall v | w + 1 <= v < |semi| && PathLinked(last, semi', v, w + 1)
      ensures DomReady(last, semi', dom[v], v)
    {
      assert PathLinked(last, semi, v, w + 1);
      assert DomReady(last, semi, dom[v], v);
      forall x: nat | semi'[v] < x < |last| && Anc(last, x, v)
        ensures semi'[if dom[v] == semi'[v] then v else dom[v]] <= semi'[x]
      {
        assert x >= w + 1;
      }
    }
  }

  /** Final values for the nodes below `cur`, bucket results from `cur` on. */
  ghost predicate DomsUpTo(tg: Graph, last: seq<nat>, semi: seq<int>, dom: seq<int>, cur: nat) {
    && |dom| == |semi| == |last| == |tg|
    && (forall x :: 0 < x < |tg| && x < cur ==> 0 <= dom[x] < x && IsImmDominator(tg, dom[x], x))
    && (forall x :: 0 < x < |tg| && cur <= x ==> DomReady(last, semi, dom[x], x))
  }

  lemma DomFinal(tg: Graph, parent: seq<int>, last: seq<nat>, semi: seq<int>, dom: seq<int>, w: nat)
    requires DfsTree(tg, parent, last) && SemiState(tg, semi, 1) && 0 < w < |tg|
    requires DomsUpTo(tg, last, semi, dom, w)
    ensures 0 <= dom[w] < |tg|
    ensures var d := if dom[w] != semi[w] then dom[dom[w]] else dom[w];
      0 <= d < w && DomsUpTo(tg, last, semi, dom[w := d], w + 1)
  {
    var u := dom[w];
    assert DomReady(last, semi, u, w);
    if u == semi[w] {
      SemiIsImmDominator(tg, parent, last, semi, w);
      SemiIsProperAncestor(tg, parent, last, u, w);
    } else {
      assert 0 < u < w;
      SharedImmDominator(tg, parent, last, semi, u, dom[u], w);
    }
  }

  lemma PathToBlocks(g: Graph, blocks: seq<Block>, idx: map<Block, nat>, p: seq<nat>) returns (q: seq<Block>)
    requires Indexing(g, blocks, idx) && IsPath(Renumber(g, blocks), p)
    ensures |q| == |p| && IsPath(g, q) && forall i :: 0 <= i < |p| ==> p[i] < |blocks| && q[i] == blocks[p[i]]
  {
    q := seq(|p|, i requires 0 <= i < |p| => blocks[p[i]]);
    forall i | 0 <= i < |q| - 1 ensures EdgeAt(g, q, i) {
      assert EdgeAt(Renumber(g, blocks), p, i);
    }
  }

  lemma PathInTree(g: Graph, blocks: seq<Block>, idx: map<Block, nat>, q: seq<Block>)
    requires Indexing(g, blocks, idx) && IsPath(g, q) && q[0] == START
    ensures forall i :: 0 <= i < |q| ==> q[i] in blocks
  {
    PreorderComplete(g);
    SinglePath(g, START);
    assert Reachable(g, START);
    assert forall x, s :: x in Elems(blocks) && Edge(g, x, s) ==> s in Elems(blocks);
    ClosedHoldsPath(g, Elems(blocks), q);
    assert forall i :: 0 <= i < |q| ==> q[i] in q;
  }

  lemma EdgeToNodes(g: Graph, blocks: seq<Block>, idx: map<Block, nat>, u: Block, v: Block)
    requires Indexing(g, blocks, idx) && Edge(g, u, v) && u in blocks && v in blocks
    ensures Edge(Renumber(g, blocks), IndexOf(blocks, u), IndexOf(blocks, v))
  {
    var ss := g[u];
    var k :| 0 <= k < |ss| && ss[k] == v;
    assert Renumber(g, blocks)[IndexOf(blocks, u)][k] == IndexOf(blocks, ss[k]);
  }

  lemma PathToNodes(g: Graph, blocks: seq<Block>, idx: map<Block, nat>, q: seq<Block>) returns (p: seq<nat>)
    requires Indexing(g, blocks, idx) && IsPath(g, q) && q[0] == START
    ensures |q| == |p| && IsPath(Renumber(g, blocks), p)
    ensures forall i :: 0 <= i < |p| ==> p[i] < |blocks| && q[i] == blocks[p[i]]
  {
    PathInTree(g, blocks, idx, q);
    p := seq(|q|, i requires 0 <= i < |q| => IndexOf(blocks, q[i]));
    assert |Renumber(g, blocks)| == |blocks|;
    hide Indexing;
    forall i | 0 <= i < |p| - 1 ensures EdgeAt(Renumber(g, blocks), p, i) {
      assert EdgeAt(g, q, i);
      EdgeToNodes(g, blocks, idx, q[i], q[i + 1]);
    }
  }

  lemma DominanceRenumber(g: Graph, blocks: seq<Block>, idx: map<Block, nat>, d: nat, w: nat)
    requires Indexing(g, blocks, idx) && d < |blocks| && w < |blocks|
    ensures Dominates(Renumber(g, blocks), d, w) <==> Dominates(g, blocks[d], blocks[w])
  {
    var tg := Renumber(g, blocks);
    assert blocks[0] == START;
    if Dominates(tg, d, w) {
      forall q | PathFromTo(g, q, START, blocks[w]) ensures blocks[d] in q {
        var p := PathToNodes(g, blocks, idx, q);
        assert idx[blocks[p[0]]] == p[0] && idx[blocks[p[|p| - 1]]] == p[|p| - 1];
        assert PathFromTo(tg, p, START, w);
      }
    }
    if Dominates(g, blocks[d], blocks[w]) {
      forall p | PathFromTo(tg, p, START, w) ensures d in p {
        var q := PathToBlocks(g, blocks, idx, p);
        assert PathFromTo(g, q, START, blocks[w]);
        var i :| 0 <= i < |q| && q[i] == blocks[d];
        assert idx[blocks[p[i]]] == p[i] && idx[blocks[d]] == d;
      }
    }
  }

  lemma ImmDominatorRenumber(g: Graph, blocks: seq<Block>, idx: map<Block, nat>, d: nat, w: nat)
    requires Indexing(g, blocks, idx) && d < |blocks| && w < |blocks|
    requires IsImmDominator(Renumber(g, blocks), d, w)
    ensures IsImmDominator(g, blocks[d], blocks[w])
  {
    PreorderComplete(g);
    assert blocks[d] in blocks && blocks[w] in blocks;
    assert idx[blocks[d]] == d && idx[blocks[w]] == w;
    DominanceRenumber(g, blocks, idx, d, w);
    forall e | e != blocks[w] && Dominates(g, e, blocks[w]) ensures Dominates(g, e, blocks[d]) {
      var q :| PathFromTo(g, q, START, blocks[w]);
      var p := PathToNodes(g, blocks, idx, q);
      var i :| 0 <= i < |q| && q[i] == e;
      DominanceRenumber(g, blocks, idx, p[i], w);
      DominanceRenumber(g, blocks, idx, p[i], d);
    }
  }

  /** The result of the pass: the true immediate dominator of every reachable block but the
      start block, and nothing for the others. */
  ghost predicate IsDominatorTree(g: Graph, imm: seq<int>) {
    && |imm| == |g|
    && forall b :: 0 <= b < |g| ==>
         if b != START && Reachable(g, b) then 0 <= imm[b] < |g| && IsImmDominator(g, imm[b], b)
         else imm[b] == NULL
  }

  /** `imm` holds the blocks of the dominators found for the nodes `[1, cur)`. */
  ghost predicate ImmUpTo(blocks: seq<Block>, dom: seq<int>, imm: seq<int>, cur: nat)
    requires |dom| == |blocks| && 1 <= cur <= |blocks|
  {
    && (forall w :: 0 < w < cur ==>
          0 <= dom[w] < |blocks| && blocks[w] < |imm| && imm[blocks[w]] == blocks[dom[w]])
    && (forall b: nat {:trigger imm[b]} :: b < |imm| && b !in blocks[1..cur] ==> imm[b] == NULL)
  }

  lemma DomsStart(tg: Graph, parent: seq<int>, last: seq<nat>, semi: seq<int>, dom: seq<int>)
    requires DfsTree(tg, parent, last) && SemiState(tg, semi, 1) && DomState(last, semi, dom, 1)
    ensures DomsUpTo(tg, last, semi, dom, 1) && |dom| == |semi| == |tg|
  {
    forall x | 0 < x < |tg| ensures DomReady(last, semi, dom[x], x) {
      assert PathLinked(last, semi, x, 1);
    }
  }

  lemma ImmStep(g: Graph, blocks: seq<Block>, idx: map<Block, nat>, dom: seq<int>, imm: seq<int>,
                w: nat, d: nat)
    requires Indexing(g, blocks, idx) && |dom| == |blocks| && |imm| == |g|
    requires 1 <= w < |blocks| && d < |blocks| && ImmUpTo(blocks, dom, imm, w)
    ensures blocks[w] < |g|
    ensures ImmUpTo(blocks, dom[w := d], imm[blocks[w] := blocks[d]], w + 1)
  {
    assert blocks[1..w + 1] == blocks[1..w] + [blocks[w]];
    assert idx[blocks[w]] == w;
    assert forall x :: 0 <= x < w ==> idx[blocks[x]] == x;
  }

  lemma ImmFinal(g: Graph, blocks: seq<Block>, idx: map<Block, nat>, last: seq<nat>, semi: seq<int>,
                 dom: seq<int>, imm: seq<int>)
    requires Indexing(g, blocks, idx) && |imm| == |g| && |dom| == |blocks|
    requires DomsUpTo(Renumber(g, blocks), last, semi, dom, |blocks|)
    requires ImmUpTo(blocks, dom, imm, |blocks|)
    ensures IsDominatorTree(g, imm)
  {
    PreorderComplete(g);
    assert blocks == [blocks[0]] + blocks[1..] && blocks[0] == START;
    forall x | x in blocks[1..] ensures x != START && x in blocks {
      var w :| 0 <= w < |blocks[1..]| && blocks[1..][w] == x;
      assert blocks[w + 1] == x;
    }
    forall b | 0 <= b < |g|
      ensures if b != START && Reachable(g, b) then 0 <= imm[b] < |g| && IsImmDominator(g, imm[b], b)
              else imm[b] == NULL
    {
      if b != START && Reachable(g, b) {
        var w :| 0 <= w < |blocks| && blocks[w] == b;
        ImmDominatorRenumber(g, blocks, idx, dom[w], w);
      }
    }
  }

  ghost function Dominators(g: Graph, b: Block): set<Block> {
    set e {:trigger Dominates(g, e, b)} | 0 <= e < |g| && Dominates(g, e, b)
  }

  lemma SelfDominates(g: Graph, b: Block)
    ensures Dominates(g, b, b)
  {
    forall p | PathFromTo(g, p, START, b) ensures b in p {
      assert p[|p| - 1] in p;
    }
  }

  lemma DominatesTransitive(g: Graph, a: Block, d: Block, b: Block)
    requires Dominates(g, a, d) && Dominates(g, d, b)
    ensures Dominates(g, a, b)
  {
    forall p | PathFromTo(g, p, START, b) ensures a in p {
      var i :| 0 <= i < |p| && p[i] == d;
      PathSlice(g, p, 0, i + 1);
      assert a in p[0..i + 1];
    }
  }

  /** Two different blocks, one of them reachable, cannot dominate each other. */
  lemma {:induction false} DominanceAntisymmetric(g: Graph, a: Block, b: Block, p: seq<Block>)
    requires Dominates(g, a, b) && Dominates(g, b, a) && PathFromTo(g, p, START, a)
    ensures a == b
    decreases |p|
  {
    var i :| 0 <= i < |p| && p[i] == b;
    if a != b {
      PathSlice(g, p, 0, i + 1);
      var q := p[0..i + 1];
      DominanceAntisymmetric(g, b, a, q);
    }
  }

  /** Dominance of `b` is decided by its immediate dominator. */
  lemma ChainStep(g: Graph, imm: seq<int>, a: Block, b: Block)
    requires IsDominatorTree(g, imm) && b < |g| && a != b
    ensures imm[b] == NULL || (0 <= imm[b] < |g| && Reachable(g, imm[b]))
    ensures (Reachable(g, b) && Dominates(g, a, b)) <==> (imm[b] != NULL && Dominates(g, a, imm[b]))
  {
    if imm[b] == NULL {
      if b == START {
        SinglePath(g, START);
        assert a !in [START];
      }
    } else if Dominates(g, a, imm[b]) {
      DominatesTransitive(g, a, imm[b], b);
    }
  }

  lemma ChainDecreases(g: Graph, imm: seq<int>, d: Block)
    requires IsDominatorTree(g, imm) && d < |g|
    ensures imm[d] != NULL ==> Dominators(g, imm[d]) < Dominators(g, d)
  {
    var e := imm[d];
    if e == NULL {
      return;
    }
    SelfDominates(g, d);
    forall x | x in Dominators(g, e) ensures x in Dominators(g, d) {
      DominatesTransitive(g, x, e, d);
    }
    if Dominates(g, d, e) {
      var p :| PathFromTo(g, p, START, e);
      DominanceAntisymmetric(g, e, d, p);
    }
    assert d in Dominators(g, d) && d !in Dominators(g, e);
  }

  class DomTree {
    const g: Graph
    var immDominator: seq<int>
    var blocks: seq<Block>
    var idToDfsIdx: map<Block, nat>
    var ancestor: seq<int>
    var parent: seq<int>
    var semi: seq<int>
    var labels: seq<int>
    var dom: seq<int>
    var bucket: seq<seq<nat>>
    var pred: seq<seq<nat>>
    ghost var last: seq<nat>

    constructor (g: Graph)
      ensures this.g == g
    {
      this.g := g;
      immDominator, blocks, idToDfsIdx := [], [], map[];
      ancestor, parent, semi, labels, dom, bucket, pred, last := [], [], [], [], [], [], [], [];
    }

    ghost function Nodes(): Graph
      requires Indexing(g, blocks, idToDfsIdx)
      reads `blocks, `idToDfsIdx
    {
      Renumber(g, blocks)
    }

    /** `tree_` holds one node per reachable block, in depth-first order. */
    ghost predicate Indexed()
      reads this
    {
      && Indexing(g, blocks, idToDfsIdx)
      && |parent| == |semi| == |labels| == |pred| == |last| == |blocks|
    }

    ghost function Fill(): Filling
      reads this
    {
      Filling(parent, last, pred)
    }

    /** The spanning tree is in place; the later phases never change it. */
    ghost predicate TreeReady()
      reads `blocks, `idToDfsIdx, `parent, `last, `pred
    {
      && Indexing(g, blocks, idToDfsIdx) && |Nodes()| == |blocks| == |parent| == |last| == |pred|
      && Valid(Nodes()) && DfsTree(Nodes(), parent, last) && PredsExact(Nodes(), pred)
    }

    lemma TreeFacts()
      requires TreeReady()
      ensures Indexing(g, blocks, idToDfsIdx)
      ensures |Nodes()| == |blocks| == |parent| == |last| == |pred| && |blocks| > 0
      ensures DfsTree(Nodes(), parent, last) && PredsExact(Nodes(), pred)
      ensures forall w :: 0 < w < |blocks| ==> 0 <= parent[w] < w
    {}

    /** `FillTree_`: visits exactly the nodes `[v, end)`. */
    method FillSubtree(v: nat, ghost end: nat)
      requires Indexed() && SubtreeAt(g, blocks, v, end)
      requires SelfUpTo(semi, v) && SelfUpTo(labels, v)
      modifies this`semi, this`labels, this`parent, this`pred, this`last
      ensures Indexed() && end <= |blocks|
      ensures SelfUpTo(semi, end) && SelfUpTo(labels, end)
      ensures Visited(Nodes(), old(Fill()), Fill(), v, end)
      decreases |blocks| - v
    {
      hide Visiting, Visited, Indexing, Remaining, InRange, Renumber;
      VisitNext(semi, v);
      VisitNext(labels, v);
      labels, semi := labels[v := v], semi[v := v];
      ghost var c := v + 1;
      ghost var tg := Nodes();
      SuccessorsKnown(g, blocks, idToDfsIdx, v);
      FirstSuccessor(g, blocks, v, end);
      VisitStart(tg, Fill(), v);
      var succs := g[blocks[v]];
      var k := 0;
      hide SubtreeAt;
      while k < |succs|
        invariant Indexed()
        invariant 0 <= k <= |succs| && v < c <= |blocks|
        invariant SelfUpTo(semi, c) && SelfUpTo(labels, c)
        invariant Remaining(g, blocks, succs, k, c, end)
        invariant Visiting(tg, old(Fill()), Fill(), v, c, k)
      {
        ghost var c' := NextSuccessor(g, blocks, succs, k, c, end);
        SuccessorIndex(g, blocks, idToDfsIdx, v, k, c);
        var w := idToDfsIdx[succs[k]];
        if semi[w] == NULL {
          ghost var s := Fill();
          parent := parent[w := v];
          FillSubtree(w, c');
          ChildVisited(tg, old(Fill()), s, Fill(), v, c, c', k);
          c := c';
        }
        EdgeRecorded(tg, old(Fill()), Fill(), v, c, k);
        pred := pred[w := pred[w] + [v]];
        k := k + 1;
      }
      NothingRemains(g, blocks, succs, c, end);
      VisitDone(tg, old(Fill()), Fill(), v, c);
      last := last[v := c];
    }

    method FillTree()
      requires Valid(g)
      modifies this
      ensures TreeReady() && blocks == Pre(g, START, {})
      ensures LinkForest(parent, semi, Kept(), |blocks|) && SemiState(Nodes(), semi, |blocks|)
      ensures BucketState(semi, bucket, |blocks|) && DomState(last, semi, dom, |blocks|)
      ensures immDominator == old(immDominator)
    {
      hide DfsTree, PredsExact, Visited, Renumber, SubtreeAt, LinkForest, SemiState, BucketState, DomState;
      EmplaceNodes();
      hide Indexing;
      ghost var s := Fill();
      ghost var n := |blocks|;
      FillSubtree(0, n);
      RenumberValid(g, blocks, idToDfsIdx);
      WholeVisitIsDfsTree(Nodes(), s, Fill());
      InitialState(Nodes(), parent, last, semi, Kept(), dom, bucket);
    }

    /** One blank node for every block of the depth-first order. */
    method EmplaceNodes()
      requires Valid(g)
      modifies this
      ensures Indexed() && blocks == Pre(g, START, {}) && SubtreeAt(g, blocks, 0, |blocks|)
      ensures |ancestor| == |dom| == |bucket| == |blocks|
      ensures SelfUpTo(semi, 0) && SelfUpTo(labels, 0) && SelfUpTo(ancestor, 0)
      ensures forall p :: 0 <= p < |blocks| ==> bucket[p] == [] && pred[p] == []
      ensures immDominator == old(immDominator)
    {
      hide SubtreeAt, Indexing;
      var dfs := new DFS(g);
      dfs.Run();
      blocks, idToDfsIdx := dfs.blocks, map[];
      var n := |blocks|;
      PreorderComplete(g);
      for i := 0 to n
        invariant blocks == Pre(g, START, {}) && |blocks| == n && immDominator == old(immDominator)
        invariant forall j :: 0 <= j < i ==> blocks[j] in idToDfsIdx && idToDfsIdx[blocks[j]] == j
      {
        idToDfsIdx := idToDfsIdx[blocks[i] := i];
      }
      WholeOrder(g, blocks, idToDfsIdx);
      var unset: seq<int> := seq(n, _ => NULL);
      ancestor, parent, semi, labels, dom := unset, unset, unset, unset, unset;
      bucket, pred := seq(n, _ => []), seq(n, _ => []);
      last := seq(n, _ => 0);
    }

    /** Shortcuts and labels. */
    ghost function Kept(): Forest
      reads `ancestor, `labels
    {
      Forest(ancestor, labels)
    }

    /** Hangs node `w`, the root of its link tree, below its tree parent `v`. */
    method Link(v: nat, w: nat)
      requires TreeReady() && 0 < w < |blocks| && |parent| == |blocks| && parent[w] == v
      requires LinkForest(parent, semi, Kept(), w + 1)
      modifies this`ancestor
      ensures LinkForest(parent, semi, Kept(), w)
    {
      LinkStep(Nodes(), parent, last, semi, Kept(), w);
      ancestor := ancestor[w := v];
    }

    method Eval(v: nat) returns (u: nat)
      requires Usable(Kept()) && v < |semi| == |ancestor|
      modifies this`ancestor, this`labels
      ensures u == Answer(semi, old(Kept()), v) && Kept() == Evaluated(semi, old(Kept()), v)
    {
      if ancestor[v] == NULL {
        return v;
      }
      Compress(v);
      return labels[v];
    }

    /** Afterwards the shortcut of `v` leads to the root of its link tree. */
    method Compress(v: nat)
      requires Usable(Kept()) && v < |semi| == |ancestor| && ancestor[v] != NULL
      modifies this`ancestor, this`labels
      ensures Kept() == Compressed(semi, old(Kept()), v)
      decreases v
    {
      var a := ancestor[v];
      if ancestor[a] == NULL {
        return;
      }
      Compress(a);
      if semi[labels[a]] < semi[labels[v]] {
        labels := labels[v := labels[a]];
      }
      ancestor := ancestor[v := ancestor[a]];
    }

    /** The predecessor loop for node `w`: pointer order on `semi` is `dfs_idx` order. */
    method ImproveSemi(w: nat)
      requires TreeReady() && 0 < w < |blocks|
      requires LinkForest(parent, semi, Kept(), w + 1) && SemiState(Nodes(), semi, w + 1)
      modifies this`semi, this`ancestor, this`labels
      ensures LinkForest(parent, semi, Kept(), w + 1)
      ensures SemiState(Nodes(), semi, w) && |semi| == |old(semi)| == |blocks| && 0 <= semi[w] < w
      ensures forall x :: 0 <= x < |semi| && x != w ==> semi[x] == old(semi)[x]
    {
      hide TreeReady, LinkForest, Indexing, Renumber, DfsTree, PredsExact, Offered, IsEval, Evaluated, Answer, Usable;
      TreeFacts();
      ghost var tg := Nodes();
      OfferStart(tg, last, semi, w);
      var k := 0;
      assert pred[w][..k] == [];
      while k < |pred[w]|
        invariant 0 <= k <= |pred[w]|
        invariant LinkForest(parent, semi, Kept(), w + 1)
        invariant Offered(tg, last, semi, pred[w][..k], w)
        invariant |semi| == |tg|
        invariant forall x :: 0 <= x < |semi| && x != w ==> semi[x] == old(semi)[x]
      {
        var v := pred[w][k];
        PredIsEdge(tg, pred, w, k);
        assert pred[w][..k + 1] == pred[w][..k] + [v];
        ForestUsable(parent, semi, Kept(), w + 1);
        EvalStep(tg, parent, last, semi, Kept(), v, w + 1);
        var u := Eval(v);
        OfferNext(tg, parent, last, semi, pred[w][..k], v, u, w);
        if semi[u] < semi[w] {
          LowerStep(parent, semi, Kept(), w, semi[u]);
          semi := semi[w := semi[u]];
        } else {
          assert semi[w := semi[w]] == semi;
        }
        k := k + 1;
      }
      assert pred[w][..|pred[w]|] == pred[w];
      OffersDecide(tg, parent, last, semi, pred, w);
    }

    /** The bucket loop run after linking `w`; the bucket is not emptied. */
    method ProcessBucket(w: nat)
      requires TreeReady() && 0 < w < |blocks|
      requires LinkForest(parent, semi, Kept(), w) && SemiState(Nodes(), semi, w)
      requires BucketState(semi, bucket, w) && DomState(last, semi, dom, w + 1)
      modifies this`dom, this`ancestor, this`labels
      ensures LinkForest(parent, semi, Kept(), w)
      ensures DomState(last, semi, dom, w)
    {
      hide TreeReady, LinkForest, Indexing, Renumber, DfsTree, PredsExact, DomReady, IsEval;
      TreeFacts();
      ghost var tg := Nodes();
      var vs := bucket[parent[w]];
      var k := 0;
      BucketDoneStart(last, semi, dom, vs);
      hide SemiState, PathLinked, BucketState, DomState, BucketDone;
      while k < |vs|
        invariant 0 <= k <= |vs| && |dom| == |semi| == |tg|
        invariant LinkForest(parent, semi, Kept(), w)
        invariant DomState(last, semi, dom, w + 1)
        invariant BucketDone(last, semi, dom, vs, k)
      {
        var v := vs[k];
        BucketEntry(tg, semi, bucket, w, parent[w], k);
        ForestUsable(parent, semi, Kept(), w);
        EvalStep(tg, parent, last, semi, Kept(), v, w);
        var u := Eval(v);
        BucketMember(tg, parent, last, semi, v, u, w);
        DomUpdate(last, semi, dom, v, if semi[u] < semi[v] then u else parent[w], w + 1);
        BucketDoneStep(last, semi, dom, vs, k, if semi[u] < semi[v] then u else parent[w]);
        dom := dom[v := if semi[u] < semi[v] then u else parent[w]];
        k := k + 1;
      }
      DomStateStep(tg, parent, last, semi, dom, bucket, w);
    }

    method ComputeSdoms()
      requires TreeReady()
      requires LinkForest(parent, semi, Kept(), |blocks|) && SemiState(Nodes(), semi, |blocks|)
      requires BucketState(semi, bucket, |blocks|) && DomState(last, semi, dom, |blocks|)
      modifies this`semi, this`ancestor, this`labels, this`bucket, this`dom
      ensures SemiState(Nodes(), semi, 1) && DomState(last, semi, dom, 1)
    {
      hide TreeReady, LinkForest, Indexing, Renumber, DfsTree, PredsExact, DomReady, DomState, SemiState;
      TreeFacts();
      for w := |blocks| downto 1
        invariant LinkForest(parent, semi, Kept(), w) && SemiState(Nodes(), semi, w)
        invariant BucketState(semi, bucket, w) && DomState(last, semi, dom, w)
      {
        ghost var semi0, bucket0 := semi, bucket;
        ImproveSemi(w);
        DomStateLocal(last, semi0, semi, dom, w);
        bucket := bucket[semi[w] := bucket[semi[w]] + [w]];
        BucketPush(semi0, semi, bucket0, w);
        Link(parent[w], w);
        ProcessBucket(w);
      }
    }

    method ComputeDoms()
      requires TreeReady() && blocks == Pre(g, START, {})
      requires SemiState(Nodes(), semi, 1) && DomState(last, semi, dom, 1)
      requires |immDominator| == |g| && forall b :: 0 <= b < |g| ==> immDominator[b] == NULL
      modifies this`dom, this`immDominator
      ensures IsDominatorTree(g, immDominator)
    {
      hide TreeReady, Indexing, Renumber, DfsTree, PredsExact, SemiState, DomReady, DomState, DomsUpTo;
      TreeFacts();
      ghost var tg := Nodes();
      DomsStart(tg, parent, last, semi, dom);
      for w := 1 to |blocks|
        invariant DomsUpTo(tg, last, semi, dom, w) && |dom| == |semi| == |blocks|
        invariant |immDominator| == |g| && ImmUpTo(blocks, dom, immDominator, w)
      {
        DomFinal(tg, parent, last, semi, dom, w);
        ghost var d := if dom[w] != semi[w] then dom[dom[w]] else dom[w];
        ImmStep(g, blocks, idToDfsIdx, dom, immDominator, w, d);
        if dom[w] != semi[w] {
          dom := dom[w := dom[dom[w]]];
        } else {
          assert dom == dom[w := dom[w]];
        }
        immDominator := immDominator[blocks[w] := blocks[dom[w]]];
      }
      ImmFinal(g, blocks, idToDfsIdx, last, semi, dom, immDominator);
    }

    /** The pass: whatever was computed before, the result is the dominator tree. */
    method Run()
      requires Valid(g)
      modifies this
      ensures IsDominatorTree(g, immDominator)
    {
      immDominator := seq(|g|, _ => NULL);
      FillTree();
      ComputeSdoms();
      ComputeDoms();
    }

    /** `BasicBlock::Dominates`: walking the chain decides all-paths dominance. */
    method BlockDominates(a: Block, b: Block) returns (r: bool)
      requires Valid(g) && IsDominatorTree(g, immDominator) && a < |g| && b < |g|
      ensures r <==> a == b || (Reachable(g, b) && Dominates(g, a, b))
    {
      if a == b {
        return true;
      }
      var d := immDominator[b];
      ChainStep(g, immDominator, a, b);
      while d != NULL
        invariant d == NULL || (0 <= d < |g| && Reachable(g, d))
        invariant (Reachable(g, b) && Dominates(g, a, b)) <==> (d != NULL && Dominates(g, a, d))
        decreases d != NULL, if d == NULL then {} else Dominators(g, d)
      {
        if d == a {
          SelfDominates(g, a);
          return true;
        }
        ChainStep(g, immDominator, a, d);
        ChainDecreases(g, immDominator, d);
        d := immDominator[d];
      }
      return false;
    }
  }
}
