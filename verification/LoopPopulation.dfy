/** Populating loops and building the loop tree (pass/loop_analysis.cpp:60-105, 236-256): headers are
    visited in postorder, every search claims the blocks nobody claimed before and puts itself around
    the loops it meets. */
module LoopPopulation {
  import opened Cfg
  import opened Coverage
  import opened Traversal
  import opened Orders
  import opened NaturalLoops
  import LT = LoopTree

  /** The loops that the back edges gave; number 0 is the root and has neither header nor latch. */
  datatype Headers = Headers(header: seq<Block>, latch: seq<Block>, reducible: seq<bool>)

  ghost predicate Proper(g: Graph, l: Headers) {
    var n := |l.header|;
    && Valid(g) && n > 0 && |l.latch| == |l.reducible| == n
    && (forall b :: 0 <= b < |g| ==> Reachable(g, b))
    && (forall k :: 0 < k < n ==> l.header[k] < |g| && l.latch[k] < |g| && Edge(g, l.latch[k], l.header[k]))
    && (forall k :: 0 < k < n && l.reducible[k] ==> IsLoop(g, l.header[k], l.latch[k]))
    && (forall j, k :: 0 < j < k < n ==> l.header[j] != l.header[k])
  }

  /** Block `x` belongs to the reducible loop `k`. */
  ghost predicate Has(g: Graph, l: Headers, k: nat, x: Block)
    requires |l.latch| == |l.reducible| == |l.header|
  {
    0 < k < |l.header| && l.reducible[k] && InNaturalLoop(g, l.header[k], l.latch[k], x)
  }

  /** `loopOf` and `outer` as they are set so far. */
  datatype Tree = Tree(loopOf: seq<int>, outer: seq<int>)

  // ---- What one search does to the tree ------------------------------------------------------------

  function Touch(s: Tree, x: Block, k: nat): (r: Tree)
    requires x < |s.loopOf|
    ensures |r.loopOf| == |s.loopOf| && |r.outer| == |s.outer|
  {
    var m := s.loopOf[x];
    if m == NULL then s.(loopOf := s.loopOf[x := k])
    else if m != k && 0 <= m < |s.outer| && s.outer[m] == NULL then s.(outer := s.outer[m := k])
    else s
  }

  function TouchAll(s: Tree, xs: seq<Block>, k: nat): (r: Tree)
    requires forall i :: 0 <= i < |xs| ==> xs[i] < |s.loopOf|
    ensures |r.loopOf| == |s.loopOf| && |r.outer| == |s.outer|
    decreases |xs|
  {
    if xs == [] then s else TouchAll(Touch(s, xs[0], k), xs[1..], k)
  }

  ghost predicate Claims(s: Tree, xs: seq<Block>, m: nat)
    requires forall i :: 0 <= i < |xs| ==> xs[i] < |s.loopOf|
  {
    exists i :: 0 <= i < |xs| && s.loopOf[xs[i]] == m
  }

  lemma {:induction false} TouchAllFacts(s: Tree, xs: seq<Block>, k: nat)
    requires (forall i :: 0 <= i < |xs| ==> xs[i] < |s.loopOf|) && NoRepeats(xs)
    requires forall i :: 0 <= i < |xs| ==> s.loopOf[xs[i]] != k
    ensures var r := TouchAll(s, xs, k);
      && (forall x :: 0 <= x < |s.loopOf| ==>
            r.loopOf[x] == if x in xs && s.loopOf[x] == NULL then k else s.loopOf[x])
      && (forall m :: 0 <= m < |s.outer| ==>
            r.outer[m] == if s.outer[m] == NULL && m != k && Claims(s, xs, m) then k else s.outer[m])
    decreases |xs|
  {
    if xs != [] {
      var s1 := Touch(s, xs[0], k);
      var rest := xs[1..];
      forall i | 0 <= i < |rest| ensures rest[i] == xs[i + 1] && s1.loopOf[rest[i]] == s.loopOf[rest[i]] {
        assert xs[0] != xs[i + 1];
      }
      TouchAllFacts(s1, rest, k);
      forall m | 0 <= m < |s.outer| ensures Claims(s, xs, m) <==> s.loopOf[xs[0]] == m || Claims(s1, rest, m) {
        ClaimsStep(s, s1, xs, m);
      }
      assert forall x :: x in xs <==> x == xs[0] || x in rest;
      assert xs[0] !in rest;
    }
  }

  lemma ClaimsStep(s: Tree, s1: Tree, xs: seq<Block>, m: nat)
    requires |xs| > 0 && |s1.loopOf| == |s.loopOf| && forall i :: 0 <= i < |xs| ==> xs[i] < |s.loopOf|
    requires forall i :: 0 < i < |xs| ==> s1.loopOf[xs[i]] == s.loopOf[xs[i]]
    ensures Claims(s, xs, m) <==> s.loopOf[xs[0]] == m || Claims(s1, xs[1..], m)
  {
    var rest := xs[1..];
    forall i | 0 <= i < |rest| ensures rest[i] == xs[i + 1] {}
    if Claims(s, xs, m) {
      var i :| 0 <= i < |xs| && s.loopOf[xs[i]] == m;
      assert i > 0 ==> rest[i - 1] == xs[i];
    }
    if Claims(s1, rest, m) {
      var i :| 0 <= i < |rest| && s1.loopOf[rest[i]] == m;
      assert s.loopOf[xs[i + 1]] == m;
    }
  }

  // ---- The order of the headers --------------------------------------------------------------------

  function Pos(po: seq<Block>, x: Block): nat
    requires x in po
  {
    IndexOf(po, x)
  }

  /** The postorder of all blocks. */
  ghost predicate Postorder(g: Graph, po: seq<Block>) {
    && Valid(g) && po == Post(g, START, {}) && NoRepeats(po)
    && (forall x :: 0 <= x < |g| ==> x in po) && (forall i :: 0 <= i < |po| ==> po[i] < |g|)
  }

  lemma PosAt(po: seq<Block>, i: nat)
    requires NoRepeats(po) && i < |po|
    ensures po[i] in po && Pos(po, po[i]) == i
  {}

  lemma DominatorLater(g: Graph, po: seq<Block>, a: Block, b: Block)
    requires Postorder(g, po) && Dominates(g, a, b) && Reachable(g, b)
    ensures a in po && b in po && Pos(po, b) <= Pos(po, a)
  {
    DominatorsComeLast(g, a, b);
    var i, m :| 0 <= i <= m < |po| && po[i] == b && po[m] == a;
    PosAt(po, i);
    PosAt(po, m);
  }

  /** The header of a loop comes after everything else in the loop. */
  lemma HeaderLast(g: Graph, l: Headers, po: seq<Block>, k: nat, x: Block)
    requires Proper(g, l) && Postorder(g, po) && Has(g, l, k, x) && x < |g|
    ensures x == l.header[k] || Pos(po, x) < Pos(po, l.header[k])
  {
    LatchReached(g, l.header[k], l.latch[k], x);
    DominatorLater(g, po, l.header[k], x);
  }

  /** Of two loops that share a block the one whose header comes first lies in the other. */
  lemma EarlierNests(g: Graph, l: Headers, po: seq<Block>, j: nat, k: nat, x: Block)
    requires Proper(g, l) && Postorder(g, po) && Has(g, l, j, x) && Has(g, l, k, x) && x < |g|
    requires Pos(po, l.header[j]) < Pos(po, l.header[k])
    ensures Has(g, l, k, l.header[j])
  {
    var a, b := l.header[j], l.header[k];
    LatchReached(g, a, l.latch[j], x);
    LatchReached(g, b, l.latch[k], x);
    DominatorsComparable(g, a, b, x);
    if Dominates(g, a, b) {
      DominatorLater(g, po, a, b);
    } else {
      SharedBlockNests(g, b, l.latch[k], a, l.latch[j], x);
    }
  }

  // ---- What is true after the first `i` blocks of the postorder ---------------------------------------

  /** Among the loops visited, `v` is the first that has `x`, or there is none and `v` is null; loop
      `but` is left out. */
  ghost predicate FirstWith(g: Graph, l: Headers, po: seq<Block>, i: nat, x: Block, but: int, v: int)
    requires Proper(g, l) && Postorder(g, po)
  {
    if v == NULL then forall k: nat :: Has(g, l, k, x) && k != but ==> i <= Pos(po, l.header[k])
    else
      && v > 0 && v != but && Has(g, l, v, x) && Pos(po, l.header[v]) < i
      && forall k: nat :: Has(g, l, k, x) && k != but ==> Pos(po, l.header[v]) <= Pos(po, l.header[k])
  }

  ghost predicate IsHeader(l: Headers, x: Block) {
    exists k :: 0 < k < |l.header| && l.header[k] == x
  }

  ghost predicate LoopsSet(g: Graph, l: Headers, po: seq<Block>, i: nat, loopOf: seq<int>)
    requires Proper(g, l) && Postorder(g, po)
  {
    && |loopOf| == |g|
    && (forall k :: 0 < k < |l.header| && i <= Pos(po, l.header[k]) ==> loopOf[l.header[k]] == k)
    && (forall x :: 0 <= x < |g| && (Pos(po, x) < i || !IsHeader(l, x)) ==> FirstWith(g, l, po, i, x, NULL, loopOf[x]))
  }

  ghost predicate OuterSet(g: Graph, l: Headers, po: seq<Block>, i: nat, outer: seq<int>)
    requires Proper(g, l) && Postorder(g, po)
  {
    && |outer| == |l.header|
    && forall j :: 0 < j < |l.header| ==>
         if l.reducible[j] then FirstWith(g, l, po, i, l.header[j], j, outer[j]) else outer[j] == NULL
  }

  ghost predicate Inv(g: Graph, l: Headers, po: seq<Block>, i: nat, s: Tree) {
    Proper(g, l) && Postorder(g, po) && LoopsSet(g, l, po, i, s.loopOf) && OuterSet(g, l, po, i, s.outer)
  }

  /** The header of a visited loop knows its own loop. */
  lemma OwnHeader(g: Graph, l: Headers, po: seq<Block>, i: nat, s: Tree, j: nat)
    requires Inv(g, l, po, i, s) && 0 < j < |l.header| && l.reducible[j] && Pos(po, l.header[j]) < i
    ensures s.loopOf[l.header[j]] == j
  {
    var h := l.header[j];
    var v := s.loopOf[h];
    assert Has(g, l, j, h) && FirstWith(g, l, po, i, h, NULL, v);
    if v != NULL && v != j {
      HeaderLast(g, l, po, v, h);
    }
  }

  /** Only loop `k` is new at position `i`. */
  lemma FirstGrows(g: Graph, l: Headers, po: seq<Block>, i: nat, x: Block, but: int, v: int, k: int)
    requires Proper(g, l) && Postorder(g, po) && i < |po| && FirstWith(g, l, po, i, x, but, v)
    requires forall m :: 0 < m < |l.header| && m != k ==> l.header[m] != po[i]
    ensures v != NULL || k <= 0 || k == but || !Has(g, l, k, x) ==> FirstWith(g, l, po, i + 1, x, but, v)
    ensures v == NULL && k > 0 && k != but && Has(g, l, k, x) && l.header[k] == po[i] ==>
              FirstWith(g, l, po, i + 1, x, but, k)
  {
    forall m | 0 < m < |l.header| && m != k ensures Pos(po, l.header[m]) != i {
      assert po[Pos(po, l.header[m])] == l.header[m];
    }
    if k > 0 && k < |l.header| && l.header[k] == po[i] {
      PosAt(po, i);
    }
  }

  lemma OnlyHeader(g: Graph, l: Headers, po: seq<Block>, i: nat, k: nat)
    requires Proper(g, l) && i < |po| && 0 < k < |l.header| && l.header[k] == po[i]
    ensures forall m :: 0 < m < |l.header| && m != k ==> l.header[m] != po[i]
  {
    forall m | 0 < m < |l.header| && m != k ensures l.header[m] != po[i] {
      assert m < k || k < m;
    }
  }

  /** The blocks that the search for loop `k` visits. */
  ghost predicate SearchOf(g: Graph, l: Headers, k: nat, xs: seq<Block>)
    requires Proper(g, l) && 0 < k < |l.header|
  {
    && NoRepeats(xs) && (forall i :: 0 <= i < |xs| ==> xs[i] < |g|)
    && forall x: nat :: x in xs <==> x < |g| && x != l.header[k] && Has(g, l, k, x)
  }

  /** A block that the search meets has been decided before, or belongs to nobody yet. */
  lemma MetBefore(g: Graph, l: Headers, po: seq<Block>, i: nat, s: Tree, k: nat, xs: seq<Block>, x: Block)
    requires Inv(g, l, po, i, s) && i < |po| && 0 < k < |l.header| && l.header[k] == po[i] && l.reducible[k]
    requires SearchOf(g, l, k, xs) && x in xs
    ensures x < |g| && Pos(po, x) < i && FirstWith(g, l, po, i, x, NULL, s.loopOf[x]) && s.loopOf[x] != k
  {
    HeaderLast(g, l, po, k, x);
    PosAt(po, i);
  }

  /** The search for `k` meets blocks of the visited loop `j` exactly when `k` has the header of `j`. */
  lemma ClaimsIff(g: Graph, l: Headers, po: seq<Block>, i: nat, s: Tree, k: nat, xs: seq<Block>, j: nat)
    requires Inv(g, l, po, i, s) && i < |po| && 0 < k < |l.header| && l.header[k] == po[i] && l.reducible[k]
    requires SearchOf(g, l, k, xs) && 0 < j < |l.header| && j != k && (forall i :: 0 <= i < |xs| ==> xs[i] < |s.loopOf|)
    ensures Claims(s, xs, j) <==> l.reducible[j] && Has(g, l, k, l.header[j])
  {
    PosAt(po, i);
    OnlyHeader(g, l, po, i, k);
    if Claims(s, xs, j) {
      var q :| 0 <= q < |xs| && s.loopOf[xs[q]] == j;
      assert xs[q] in xs;
      MetBefore(g, l, po, i, s, k, xs, xs[q]);
      EarlierNests(g, l, po, j, k, xs[q]);
    }
    if l.reducible[j] && Has(g, l, k, l.header[j]) {
      assert l.header[j] in xs;
      MetBefore(g, l, po, i, s, k, xs, l.header[j]);
      OwnHeader(g, l, po, i, s, j);
      var q :| 0 <= q < |xs| && xs[q] == l.header[j];
      assert s.loopOf[xs[q]] == j;
    }
  }

  lemma LoopsAfterSearch(g: Graph, l: Headers, po: seq<Block>, i: nat, s: Tree, k: nat, xs: seq<Block>, x: Block)
    requires Inv(g, l, po, i, s) && i < |po| && 0 < k < |l.header| && l.header[k] == po[i] && l.reducible[k]
    requires SearchOf(g, l, k, xs) && x < |g| && (Pos(po, x) < i + 1 || !IsHeader(l, x))
    ensures FirstWith(g, l, po, i + 1, x, NULL, if x in xs && s.loopOf[x] == NULL then k else s.loopOf[x])
  {
    PosAt(po, i);
    OnlyHeader(g, l, po, i, k);
    if x == po[i] {
      assert s.loopOf[x] == k && Has(g, l, k, x);
      forall m: nat | Has(g, l, m, x) ensures i <= Pos(po, l.header[m]) {
        HeaderLast(g, l, po, m, x);
      }
    } else {
      assert Pos(po, x) != i by { assert po[Pos(po, x)] == x; }
      FirstGrows(g, l, po, i, x, NULL, s.loopOf[x], k);
    }
  }

  lemma OuterAfterSearch(g: Graph, l: Headers, po: seq<Block>, i: nat, s: Tree, k: nat, xs: seq<Block>, j: nat)
    requires Inv(g, l, po, i, s) && i < |po| && 0 < k < |l.header| && l.header[k] == po[i] && l.reducible[k]
    requires SearchOf(g, l, k, xs) && 0 < j < |l.header| && (forall i :: 0 <= i < |xs| ==> xs[i] < |s.loopOf|)
    ensures var v := if s.outer[j] == NULL && j != k && Claims(s, xs, j) then k else s.outer[j];
      if l.reducible[j] then FirstWith(g, l, po, i + 1, l.header[j], j, v) else v == NULL
  {
    OnlyHeader(g, l, po, i, k);
    if j != k {
      ClaimsIff(g, l, po, i, s, k, xs, j);
    }
    if l.reducible[j] {
      FirstGrows(g, l, po, i, l.header[j], j, s.outer[j], k);
    }
  }

  /** The search for a reducible loop. */
  lemma SearchKeepsInv(g: Graph, l: Headers, po: seq<Block>, i: nat, s: Tree, k: nat, xs: seq<Block>)
    requires Inv(g, l, po, i, s) && i < |po| && 0 < k < |l.header| && l.header[k] == po[i] && l.reducible[k]
    requires SearchOf(g, l, k, xs)
    ensures (forall q :: 0 <= q < |xs| ==> xs[q] < |s.loopOf|) && Inv(g, l, po, i + 1, TouchAll(s, xs, k))
  {
    forall q | 0 <= q < |xs| ensures s.loopOf[xs[q]] != k {
      assert xs[q] in xs;
      MetBefore(g, l, po, i, s, k, xs, xs[q]);
    }
    TouchAllFacts(s, xs, k);
    var r := TouchAll(s, xs, k);
    PosAt(po, i);
    SearchLoops(g, l, po, i, s, k, xs, r.loopOf);
    hide FirstWith, Has, Proper, Postorder, TouchAll, LoopsSet;
    forall j | 0 < j < |l.header|
      ensures if l.reducible[j] then FirstWith(g, l, po, i + 1, l.header[j], j, r.outer[j]) else r.outer[j] == NULL
    {
      OuterAfterSearch(g, l, po, i, s, k, xs, j);
    }
  }

  lemma SearchLoops(g: Graph, l: Headers, po: seq<Block>, i: nat, s: Tree, k: nat, xs: seq<Block>, loopOf: seq<int>)
    requires Inv(g, l, po, i, s) && i < |po| && 0 < k < |l.header| && l.header[k] == po[i] && l.reducible[k]
    requires SearchOf(g, l, k, xs) && |loopOf| == |g|
    requires forall x :: 0 <= x < |g| ==> loopOf[x] == if x in xs && s.loopOf[x] == NULL then k else s.loopOf[x]
    ensures LoopsSet(g, l, po, i + 1, loopOf)
  {
    forall m | 0 < m < |l.header| && i + 1 <= Pos(po, l.header[m]) ensures loopOf[l.header[m]] == m {
      if l.header[m] in xs {
        MetBefore(g, l, po, i, s, k, xs, l.header[m]);
      }
    }
    hide FirstWith, Has;
    forall x | 0 <= x < |g| && (Pos(po, x) < i + 1 || !IsHeader(l, x))
      ensures FirstWith(g, l, po, i + 1, x, NULL, loopOf[x])
    {
      LoopsAfterSearch(g, l, po, i, s, k, xs, x);
    }
  }

  /** A block that is no header changes nothing. */
  lemma PlainKeepsInv(g: Graph, l: Headers, po: seq<Block>, i: nat, s: Tree)
    requires Inv(g, l, po, i, s) && i < |po| && !IsHeader(l, po[i])
    ensures Inv(g, l, po, i + 1, s)
  {
    forall x | 0 <= x < |g| && (Pos(po, x) < i + 1 || !IsHeader(l, x))
      ensures FirstWith(g, l, po, i + 1, x, NULL, s.loopOf[x])
    {
      assert po[Pos(po, x)] == x;
      FirstGrows(g, l, po, i, x, NULL, s.loopOf[x], 0);
    }
    forall j | 0 < j < |l.header| && l.reducible[j]
      ensures FirstWith(g, l, po, i + 1, l.header[j], j, s.outer[j])
    {
      FirstGrows(g, l, po, i, l.header[j], j, s.outer[j], 0);
    }
  }

  lemma IrreducibleLoop(g: Graph, l: Headers, po: seq<Block>, i: nat, s: Tree, k: nat, x: Block)
    requires Inv(g, l, po, i, s) && i < |po| && 0 < k < |l.header| && l.header[k] == po[i] && !l.reducible[k]
    requires x < |g| && (Pos(po, x) < i + 1 || !IsHeader(l, x))
    ensures FirstWith(g, l, po, i + 1, x, NULL, if x == po[i] then s.outer[k] else s.loopOf[x])
  {
    OnlyHeader(g, l, po, i, k);
    PosAt(po, i);
    assert po[Pos(po, x)] == x;
    if x == po[i] {
      forall m: nat | Has(g, l, m, x) ensures i + 1 <= Pos(po, l.header[m]) {
        HeaderLast(g, l, po, m, x);
      }
    } else {
      FirstGrows(g, l, po, i, x, NULL, s.loopOf[x], k);
    }
  }

  lemma IrreducibleOuter(g: Graph, l: Headers, po: seq<Block>, i: nat, s: Tree, k: nat)
    requires Inv(g, l, po, i, s) && i < |po| && 0 < k < |l.header| && l.header[k] == po[i] && !l.reducible[k]
    ensures OuterSet(g, l, po, i + 1, s.outer)
  {
    OnlyHeader(g, l, po, i, k);
    forall j | 0 < j < |l.header| && l.reducible[j]
      ensures FirstWith(g, l, po, i + 1, l.header[j], j, s.outer[j])
    {
      FirstGrows(g, l, po, i, l.header[j], j, s.outer[j], k);
    }
  }

  /** An irreducible loop gives up its header. */
  lemma IrreducibleKeepsInv(g: Graph, l: Headers, po: seq<Block>, i: nat, s: Tree, k: nat)
    requires Inv(g, l, po, i, s) && i < |po| && 0 < k < |l.header| && l.header[k] == po[i] && !l.reducible[k]
    ensures Inv(g, l, po, i + 1, Tree(s.loopOf[po[i] := s.outer[k]], s.outer))
  {
    var loopOf := s.loopOf[po[i] := s.outer[k]];
    IrreducibleOuter(g, l, po, i, s, k);
    PosAt(po, i);
    hide FirstWith, Proper, OuterSet;
    forall x | 0 <= x < |g| && (Pos(po, x) < i + 1 || !IsHeader(l, x))
      ensures FirstWith(g, l, po, i + 1, x, NULL, loopOf[x])
    {
      IrreducibleLoop(g, l, po, i, s, k, x);
    }
  }

  function IndexOfHeader(l: Headers, x: Block, k: nat): int
    requires k <= |l.header|
    decreases |l.header| - k
  {
    if k == |l.header| then NULL
    else if k > 0 && l.header[k] == x then k
    else IndexOfHeader(l, x, k + 1)
  }

  /** Back edges have been collected: every header points to its loop. */
  function Collected(g: Graph, l: Headers): Tree {
    Tree(seq(|g|, x => if x >= 0 then IndexOfHeader(l, x, 0) else NULL), seq(|l.header|, _ => NULL))
  }

  lemma {:induction false} IndexOfHeaderIs(l: Headers, x: Block, k: nat)
    requires k <= |l.header|
    ensures var m := IndexOfHeader(l, x, k);
      if m == NULL then forall j :: k <= j < |l.header| && j > 0 ==> l.header[j] != x
      else k <= m < |l.header| && 0 < m && l.header[m] == x
    decreases |l.header| - k
  {
    if k < |l.header| {
      IndexOfHeaderIs(l, x, k + 1);
    }
  }

  lemma CollectedInv(g: Graph, l: Headers, po: seq<Block>)
    requires Proper(g, l) && Postorder(g, po)
    ensures Inv(g, l, po, 0, Collected(g, l))
  {
    var s := Collected(g, l);
    forall x | 0 <= x < |g|
      ensures if IsHeader(l, x) then 0 < s.loopOf[x] < |l.header| && l.header[s.loopOf[x]] == x else s.loopOf[x] == NULL
    {
      IndexOfHeaderIs(l, x, 0);
    }
    forall k | 0 < k < |l.header| ensures s.loopOf[l.header[k]] == k {
      assert IsHeader(l, l.header[k]);
      var m := s.loopOf[l.header[k]];
      assert m < k || m == k || k < m;
    }
  }

  // ---- The finished tree -----------------------------------------------------------------------------

  /** `BuildLoopTree`: what nobody claimed goes to the root. */
  function Rooted(v: int): int {
    if v == NULL then 0 else v
  }

  /** `v` is the innermost loop with `x`, not counting loop `but`; the root if there is none. */
  ghost predicate InnermostWith(g: Graph, l: Headers, x: Block, but: int, v: int)
    requires |l.latch| == |l.reducible| == |l.header|
  {
    if v == 0 then forall k: nat :: Has(g, l, k, x) ==> k == but
    else
      && v > 0 && v != but && Has(g, l, v, x)
      && forall k: nat :: Has(g, l, k, x) && k != but && k != v ==> Has(g, l, k, l.header[v])
  }

  lemma HeadersApart(g: Graph, l: Headers, po: seq<Block>, j: nat, k: nat)
    requires Proper(g, l) && Postorder(g, po) && 0 < j < |l.header| && 0 < k < |l.header| && j != k
    ensures Pos(po, l.header[j]) != Pos(po, l.header[k])
  {
    assert po[Pos(po, l.header[j])] == l.header[j] && po[Pos(po, l.header[k])] == l.header[k];
    assert j < k || k < j;
  }

  /** The first loop in postorder is the innermost one. */
  lemma FirstIsInnermost(g: Graph, l: Headers, po: seq<Block>, x: Block, but: int, v: int)
    requires Proper(g, l) && Postorder(g, po) && x < |g| && FirstWith(g, l, po, |po|, x, but, v)
    ensures InnermostWith(g, l, x, but, Rooted(v))
  {
    if v != NULL {
      forall k: nat | Has(g, l, k, x) && k != but && k != v ensures Has(g, l, k, l.header[v]) {
        HeadersApart(g, l, po, v, k);
        EarlierNests(g, l, po, v, k, x);
      }
    }
  }

  /** Population and tree building: every block gets its innermost reducible natural loop, every
      reducible loop the smallest loop around it. */
  ghost predicate Built(g: Graph, l: Headers, s: Tree) {
    Proper(g, l) && RightTree(g, l, s)
  }

  ghost predicate RightTree(g: Graph, l: Headers, s: Tree)
    requires |l.latch| == |l.reducible| == |l.header| > 0
  {
    && |s.loopOf| == |g| && |s.outer| == |l.header|
    && (forall x :: 0 <= x < |g| ==> InnermostWith(g, l, x, NULL, s.loopOf[x]))
    && (forall j :: 0 < j < |l.header| ==>
          if l.reducible[j] then InnermostWith(g, l, l.header[j], j, s.outer[j]) else s.outer[j] == 0)
    && s.outer[0] == NULL
  }

  lemma InvBuilds(g: Graph, l: Headers, po: seq<Block>, s: Tree, r: Tree)
    requires Inv(g, l, po, |po|, s) && IsRooted(s, r)
    ensures Built(g, l, r)
  {
    forall x | 0 <= x < |g| ensures InnermostWith(g, l, x, NULL, r.loopOf[x]) {
      FirstIsInnermost(g, l, po, x, NULL, s.loopOf[x]);
    }
    forall j | 0 < j < |l.header| && l.reducible[j] ensures InnermostWith(g, l, l.header[j], j, r.outer[j]) {
      FirstIsInnermost(g, l, po, l.header[j], j, s.outer[j]);
    }
  }

  // ---- The loop tree that liveness uses ----------------------------------------------------------------

  lemma OuterLater(g: Graph, l: Headers, po: seq<Block>, s: Tree, j: nat)
    requires Postorder(g, po) && Built(g, l, s) && 0 < j < |l.header|
    ensures 0 <= s.outer[j] < |l.header|
    ensures s.outer[j] > 0 ==> Pos(po, l.header[j]) < Pos(po, l.header[s.outer[j]]) && s.outer[j] != j
  {
    var o := s.outer[j];
    if o > 0 {
      HeaderLast(g, l, po, o, l.header[j]);
      HeadersApart(g, l, po, j, o);
    }
  }

  ghost function Depth(g: Graph, l: Headers, po: seq<Block>, s: Tree, j: nat): nat
    requires Postorder(g, po) && Built(g, l, s) && j < |l.header|
    decreases if j == 0 then 0 else 1 + |po| - Pos(po, l.header[j])
  {
    if j == 0 then 0
    else
      OuterLater(g, l, po, s, j);
      1 + Depth(g, l, po, s, s.outer[j])
  }

  ghost function AsTree(g: Graph, l: Headers, po: seq<Block>, s: Tree, pre: seq<nat>): (t: LT.Loops)
    requires Postorder(g, po) && Built(g, l, s) && |pre| == |l.header| && forall k :: 0 < k < |pre| ==> pre[k] < |g|
    ensures LT.WellFormed(g, t) && t.outer == s.outer && t.header == l.header && t.latch == l.latch
    ensures t.preHeader == pre
    ensures |t.loopOf| == |g| && forall x :: 0 <= x < |g| ==> t.loopOf[x] == s.loopOf[x]
  {
    LoopNumbers(g, l, s);
    var depth := seq(|l.header|, j requires 0 <= j < |l.header| => Depth(g, l, po, s, j));
    var loopOf := seq(|g|, x requires 0 <= x < |g| => s.loopOf[x] as nat);
    OuterNumbers(g, l, po, s);
    LT.Loops(loopOf, s.outer, depth, l.header, l.latch, pre)
  }

  lemma LoopNumbers(g: Graph, l: Headers, s: Tree)
    requires Built(g, l, s)
    ensures forall x :: 0 <= x < |g| ==> 0 <= s.loopOf[x] < |l.header|
  {
    forall x | 0 <= x < |g| ensures 0 <= s.loopOf[x] < |l.header| {
      assert InnermostWith(g, l, x, NULL, s.loopOf[x]);
    }
  }

  lemma OuterNumbers(g: Graph, l: Headers, po: seq<Block>, s: Tree)
    requires Postorder(g, po) && Built(g, l, s)
    ensures forall j :: 0 < j < |l.header| ==>
              && 0 <= s.outer[j] < |l.header|
              && Depth(g, l, po, s, j) == 1 + Depth(g, l, po, s, s.outer[j])
  {
    forall j | 0 < j < |l.header|
      ensures 0 <= s.outer[j] < |l.header| && Depth(g, l, po, s, j) == 1 + Depth(g, l, po, s, s.outer[j])
    {
      OuterLater(g, l, po, s, j);
    }
  }

  ghost predicate AllReducible(l: Headers)
    requires |l.reducible| == |l.header|
  {
    forall k :: 0 < k < |l.header| ==> l.reducible[k]
  }

  /** Loop `k` around a block of loop `a` is a loop around the header of `a`. */
  lemma AroundHeader(g: Graph, l: Headers, a: nat, k: nat, x: Block)
    requires Proper(g, l) && a != k && Has(g, l, a, x) && Has(g, l, k, l.header[a])
    ensures Has(g, l, k, x)
  {
    assert l.header[k] != l.header[a] by { assert a < k || k < a; }
    HeaderInside(g, l.header[k], l.latch[k], l.header[a], l.latch[a], x);
  }

  /** Nesting in the tree is nesting of natural loops. */
  lemma {:induction false} InIff(g: Graph, l: Headers, po: seq<Block>, s: Tree, t: LT.Loops, a: nat, k: nat)
    requires Postorder(g, po) && Built(g, l, s) && AllReducible(l)
    requires LT.WellFormed(g, t) && t.outer == s.outer && t.header == l.header && t.latch == l.latch
    requires 0 < a < |l.header| && 0 < k < |l.header|
    ensures LT.In(g, t, a, k) <==> Has(g, l, k, l.header[a])
    decreases |po| - Pos(po, l.header[a])
  {
    if a != k {
      var o := s.outer[a];
      OuterLater(g, l, po, s, a);
      assert InnermostWith(g, l, l.header[a], a, o);
      if o > 0 {
        InIff(g, l, po, s, t, o, k);
        if o != k && Has(g, l, k, l.header[o]) {
          AroundHeader(g, l, o, k, l.header[a]);
        }
      }
    }
  }

  /** What liveness assumes of the loop tree holds of the tree that loop analysis builds: every block
      points to its innermost natural loop, and outer pointers follow nesting. */
  lemma BuiltIsInnermost(g: Graph, l: Headers, po: seq<Block>, s: Tree, pre: seq<nat>)
    requires Postorder(g, po) && Built(g, l, s) && AllReducible(l)
    requires |pre| == |l.header| && forall k :: 0 < k < |pre| ==> pre[k] < |g|
    ensures LT.Innermost(g, AsTree(g, l, po, s, pre))
    ensures forall k :: 0 < k < |l.header| ==> s.loopOf[l.header[k]] == k
  {
    var t := AsTree(g, l, po, s, pre);
    hide Depth;
    forall k, b | 0 < k < |t.outer| && 0 <= b < |g|
      ensures LT.In(g, t, t.loopOf[b], k) <==> InNaturalLoop(g, t.header[k], t.latch[k], b)
    {
      MemberIff(g, l, po, s, t, b, k);
    }
    forall k | 0 < k < |l.header| ensures s.loopOf[l.header[k]] == k {
      OwnLoop(g, l, po, s, k);
    }
  }

  lemma MemberIff(g: Graph, l: Headers, po: seq<Block>, s: Tree, t: LT.Loops, b: Block, k: nat)
    requires Postorder(g, po) && Built(g, l, s) && AllReducible(l)
    requires LT.WellFormed(g, t) && t.outer == s.outer && t.header == l.header && t.latch == l.latch
    requires b < |g| && 0 < k < |l.header| && t.loopOf[b] == s.loopOf[b]
    ensures LT.In(g, t, t.loopOf[b], k) <==> InNaturalLoop(g, l.header[k], l.latch[k], b)
  {
    var a := t.loopOf[b];
    assert InnermostWith(g, l, b, NULL, a);
    assert Has(g, l, k, b) <==> InNaturalLoop(g, l.header[k], l.latch[k], b);
    if a > 0 {
      InIff(g, l, po, s, t, a, k);
      if a != k && Has(g, l, k, l.header[a]) {
        AroundHeader(g, l, a, k, b);
      }
    }
  }

  lemma OwnLoop(g: Graph, l: Headers, po: seq<Block>, s: Tree, k: nat)
    requires Postorder(g, po) && Built(g, l, s) && 0 < k < |l.header| && l.reducible[k]
    ensures s.loopOf[l.header[k]] == k
  {
    var v := s.loopOf[l.header[k]];
    assert InnermostWith(g, l, l.header[k], NULL, v) && Has(g, l, k, l.header[k]);
    assert v > 0;
    if v != k {
      HeadersApart(g, l, po, v, k);
      HeaderLast(g, l, po, v, l.header[k]);
      HeaderLast(g, l, po, k, l.header[v]);
    }
  }

  // ---- The pass ----------------------------------------------------------------------------------------

  /** The blocks that `RunLoopSearch` visits from `b`: it starts at `b` even when `b` is marked. */
  function SearchOrder(preds: Graph, b: Block, green: set<Block>): seq<Block>
    requires Valid(preds) && b < |preds|
  {
    [b] + PreList(preds, preds[b], green + {b})
  }

  predicate Within(n: nat, xs: seq<Block>) {
    forall i :: 0 <= i < |xs| ==> xs[i] < n
  }

  lemma {:induction false} TouchConcat(s: Tree, a: seq<Block>, b: seq<Block>, k: nat)
    requires Within(|s.loopOf|, a) && Within(|s.loopOf|, b)
    ensures Within(|s.loopOf|, a + b) && TouchAll(s, a + b, k) == TouchAll(TouchAll(s, a, k), b, k)
    decreases |a|
  {
    if a == [] {
      assert a + b == b;
    } else {
      assert (a + b)[0] == a[0] && (a + b)[1..] == a[1..] + b;
      TouchConcat(Touch(s, a[0], k), a[1..], b, k);
    }
  }

  lemma ListBlocks(r: Graph, ss: seq<Block>, vis: set<Block>)
    requires Valid(r) && InRange(r, ss)
    ensures Within(|r|, PreList(r, ss, vis))
  {
    PreListExplores(r, ss, vis);
    var l := PreList(r, ss, vis);
    forall i | 0 <= i < |l| ensures l[i] < |r| {
      assert l[i] in l;
    }
  }

  lemma VisitBlocks(r: Graph, b: Block, vis: set<Block>)
    requires Valid(r) && b < |r|
    ensures Within(|r|, Pre(r, b, vis)) && Within(|r|, SearchOrder(r, b, vis))
  {
    PreExplores(r, b, vis);
    var l := Pre(r, b, vis);
    forall i | 0 <= i < |l| ensures l[i] < |r| {
      assert l[i] in l;
    }
    ListBlocks(r, r[b], vis + {b});
  }

  /** One more predecessor of the list. */
  lemma SearchStep(r: Graph, ss: seq<Block>, i: nat, green: set<Block>, s: Tree, k: nat)
    requires Valid(r) && InRange(r, ss) && i < |ss| && |s.loopOf| == |r|
    ensures var p, rest := Pre(r, ss[i], green), PreList(r, ss[i + 1..], green + Elems(Pre(r, ss[i], green)));
      && Within(|r|, PreList(r, ss[i..], green)) && Within(|r|, p) && Within(|r|, rest)
      && TouchAll(s, PreList(r, ss[i..], green), k) == TouchAll(TouchAll(s, p, k), rest, k)
      && green + Elems(PreList(r, ss[i..], green)) == green + Elems(p) + Elems(rest)
      && (ss[i] in green ==> p == []) && (ss[i] !in green ==> p == SearchOrder(r, ss[i], green))
  {
    assert ss[i..][1..] == ss[i + 1..] && ss[i..][0] == ss[i];
    var p, rest := Pre(r, ss[i], green), PreList(r, ss[i + 1..], green + Elems(Pre(r, ss[i], green)));
    VisitBlocks(r, ss[i], green);
    ListBlocks(r, ss[i..], green);
    ListBlocks(r, ss[i + 1..], green + Elems(p));
    TouchConcat(s, p, rest, k);
    ElemsConcat(p, rest);
  }

  /** What the search from the latch `t` finds, together with the header `h`. */
  function Found(preds: Graph, h: Block, t: Block): set<Block>
    requires Valid(preds) && t < |preds|
  {
    {h} + Elems(SearchOrder(preds, t, {h}))
  }

  /** The search finds exactly the natural loop, unless the latch is the header itself and the header
      has other predecessors: then the search starts at the marked header and leaks out of the loop. */
  lemma SearchExactIff(g: Graph, r: Graph, h: Block, t: Block)
    requires Reversed(g, r) && h < |g| && t < |g|
    ensures (forall x: nat :: x in Found(r, h, t) <==> InNaturalLoop(g, h, t, x))
       <==> h != t || forall p: nat :: Edge(g, p, h) ==> p == h
  {
    if h != t {
      forall x: nat ensures x in Found(r, h, t) <==> InNaturalLoop(g, h, t, x) {
        SearchFindsLoop(g, r, h, t, x);
        assert SearchOrder(r, t, {h}) == Pre(r, t, {h});
      }
    } else {
      forall x: nat ensures InNaturalLoop(g, h, t, x) <==> x == h {
        SelfLoopAlone(g, h, x);
      }
      PreListExplores(r, r[h], {h} + {h});
      assert forall x :: x in Found(r, h, h) <==> x == h || x in PreList(r, r[h], {h} + {h});
      if forall p: nat :: Edge(g, p, h) ==> p == h {
        forall q | q in r[h] ensures q in {h} + {h} {
          assert Edge(r, h, q) && Edge(g, q, h);
        }
        AllVisited(r, r[h], {h} + {h});
      } else {
        var p: nat :| Edge(g, p, h) && p != h;
        assert Edge(r, h, p) && p in Found(r, h, h);
      }
    }
  }

  lemma SelfLoopAlone(g: Graph, h: Block, x: Block)
    ensures InNaturalLoop(g, h, h, x) <==> x == h
  {
    forall p | PathFromTo(g, p, x, h) ensures h in p {
      assert p[|p| - 1] in p;
    }
  }

  lemma {:induction false} AllVisited(r: Graph, ss: seq<Block>, vis: set<Block>)
    requires Valid(r) && InRange(r, ss) && forall s :: s in ss ==> s in vis
    ensures PreList(r, ss, vis) == []
    decreases |ss|
  {
    if ss != [] {
      assert Pre(r, ss[0], vis) == [];
      assert vis + Elems([]) == vis;
      AllVisited(r, ss[1..], vis);
    }
  }

  /** The pass object after back edges have been collected and split.  `preds` are the predecessor
      lists; `green` are the marks of the current search. */
  class LoopPopulator {
    const g: Graph
    const preds: Graph
    const l: Headers
    var loopOf: seq<int>
    var outer: seq<int>
    var green: set<Block>

    constructor (g: Graph, preds: Graph, l: Headers)
      ensures this.g == g && this.preds == preds && this.l == l && State() == Collected(g, l)
    {
      this.g, this.preds, this.l := g, preds, l;
      loopOf, outer, green := Collected(g, l).loopOf, Collected(g, l).outer, {};
    }

    ghost function State(): Tree
      reads this
    {
      Tree(loopOf, outer)
    }

    method RunLoopSearch(k: nat, b: Block)
      requires Valid(preds) && b < |preds| == |loopOf|
      modifies this
      ensures Within(|preds|, SearchOrder(preds, b, old(green)))
      ensures |loopOf| == |preds| && State() == TouchAll(old(State()), SearchOrder(preds, b, old(green)), k)
      ensures green == old(green) + Elems(SearchOrder(preds, b, old(green)))
      decreases All(preds) - (green + {b}), 1
    {
      hide PreList, TouchAll, Touch, Valid, SearchOrder, Within, InRange;
      BlockPreds(b);
      green := green + {b};
      TouchBlock(k, b);
      ghost var rest := PreList(preds, preds[b], green);
      ListBlocks(preds, preds[b], green);
      SearchUnfold(old(State()), old(green), b, rest, k);
      SearchPreds(k, preds[b]);
    }

    lemma BlockPreds(b: Block)
      requires Valid(preds) && b < |preds|
      ensures InRange(preds, preds[b])
    {}

    /** The loop over the predecessors. */
    method SearchPreds(k: nat, ps: seq<Block>)
      requires Valid(preds) && InRange(preds, ps) && |preds| == |loopOf|
      modifies this
      ensures Within(|preds|, PreList(preds, ps, old(green))) && |loopOf| == |preds|
      ensures State() == TouchAll(old(State()), PreList(preds, ps, old(green)), k)
      ensures green == old(green) + Elems(PreList(preds, ps, old(green)))
      decreases All(preds) - green, 0
    {
      ghost var s1, green1 := State(), green;
      ListBlocks(preds, ps, green);
      ghost var rest := PreList(preds, ps, green);
      assert ps[0..] == ps;
      hide *;
      for i := 0 to |ps|
        invariant |loopOf| == |preds| && green1 <= green && Within(|preds|, PreList(preds, ps[i..], green))
        invariant TouchAll(State(), PreList(preds, ps[i..], green), k) == TouchAll(s1, rest, k)
        invariant green + Elems(PreList(preds, ps[i..], green)) == green1 + Elems(rest)
      {
        SearchStep(preds, ps, i, green, State(), k);
        InList(ps, i);
        if ps[i] !in green {
          RunLoopSearch(k, ps[i]);
        } else {
          NothingTouched(State(), k);
        }
      }
      EndOfList(ps, k);
    }

    lemma InList(ps: seq<Block>, i: nat)
      requires InRange(preds, ps) && i < |ps|
      ensures ps[i] < |preds| && ps[i] in All(preds)
    {
      assert preds[ps[i]] == preds[ps[i]];
    }

    lemma NothingTouched(s: Tree, k: nat)
      ensures TouchAll(s, [], k) == s && green + Elems([]) == green
    {}

    lemma EndOfList(ps: seq<Block>, k: nat)
      requires Valid(preds) && InRange(preds, ps)
      ensures PreList(preds, ps[|ps|..], green) == [] && TouchAll(State(), [], k) == State()
      ensures green + Elems([]) == green
    {
      assert ps[|ps|..] == [];
    }

    lemma SearchUnfold(s: Tree, green0: set<Block>, b: Block, rest: seq<Block>, k: nat)
      requires Valid(preds) && b < |s.loopOf| == |preds| && Within(|preds|, rest)
      requires rest == PreList(preds, preds[b], green0 + {b})
      ensures SearchOrder(preds, b, green0) == [b] + rest && Within(|preds|, [b] + rest)
      ensures TouchAll(s, [b] + rest, k) == TouchAll(Touch(s, b, k), rest, k)
      ensures green0 + Elems([b] + rest) == green0 + {b} + Elems(rest)
    {
      assert ([b] + rest)[1..] == rest;
      ElemsConcat([b], rest);
    }

    /** What a search does at one block. */
    method TouchBlock(k: nat, b: Block)
      requires b < |loopOf|
      modifies this`loopOf, this`outer
      ensures State() == Touch(old(State()), b, k)
    {
      var m := loopOf[b];
      if m == NULL {
        loopOf := loopOf[b := k];
      } else if m != k && 0 <= m < |outer| && outer[m] == NULL {
        outer := outer[m := k];
      }
    }

    method PopulateLoop(k: nat)
      requires Shape(g, preds, l) && 0 < k < |l.header| && |loopOf| == |g| && |outer| == |l.header|
      modifies this
      ensures State() == VisitHeader(g, preds, l, old(State()), k)
    {
      if l.reducible[k] {
        var h, t := l.header[k], l.latch[k];
        green := {h};
        hide SearchOrder, TouchAll, Valid;
        RunLoopSearch(k, t);
      } else {
        loopOf := loopOf[l.header[k] := outer[k]];
      }
    }

    method PopulateLoops()
      requires Shape(g, preds, l) && State() == Collected(g, l)
      modifies this
      ensures forall i :: 0 <= i < |Post(g, START, {})| ==> Post(g, START, {})[i] < |g|
      ensures State() == Populated(g, preds, l, Post(g, START, {}), |Post(g, START, {})|)
    {
      var order := new PO(g);
      order.Run();
      var po := order.blocks;
      PostorderInside(g);
      hide Shape, Collected, Visit;
      for i := 0 to |po|
        invariant State() == Populated(g, preds, l, po, i)
      {
        VisitBlock(po[i]);
      }
    }

    method VisitBlock(b: Block)
      requires Shape(g, preds, l) && |loopOf| == |g| && |outer| == |l.header| && b < |g|
      modifies this
      ensures State() == Visit(g, preds, l, old(State()), b)
    {
      IndexOfHeaderIs(l, b, 0);
      var k := IndexOfHeader(l, b, 0);
      if k != NULL {
        hide VisitHeader;
        PopulateLoop(k);
      }
    }

    /** The loop pointers of all blocks and loops that are still unset go to the root. */
    method BuildLoopTree()
      requires |outer| > 0
      modifies this`loopOf, this`outer
      ensures IsRooted(old(State()), State())
    {
      ghost var s := State();
      PopulateRootLoop();
      ghost var populated := loopOf;
      outer := outer[0 := NULL];
      for j := 1 to |outer|
        invariant |outer| == |s.outer| && outer[0] == NULL && loopOf == populated
        invariant forall y :: 0 < y < |outer| ==> outer[y] == if y < j then Rooted(s.outer[y]) else s.outer[y]
      {
        if outer[j] == NULL {
          outer := outer[j := 0];
        }
      }
    }

    method PopulateRootLoop()
      modifies this`loopOf
      ensures |loopOf| == |old(loopOf)|
      ensures forall y :: 0 <= y < |loopOf| ==> loopOf[y] == Rooted(old(loopOf)[y])
    {
      for x := 0 to |loopOf|
        invariant |loopOf| == |old(loopOf)|
        invariant forall y :: 0 <= y < |loopOf| ==>
                  loopOf[y] == if y < x then Rooted(old(loopOf)[y]) else old(loopOf)[y]
      {
        if loopOf[x] == NULL {
          loopOf := loopOf[x := 0];
        }
      }
    }

    /** The tree is right exactly if no reducible loop is a single block. */
    method Run()
      requires Shape(g, preds, l) && Sourced(g, l) && State() == Collected(g, l)
      modifies this
      ensures RightTree(g, l, State()) <==> NoSelfLoop(l)
      ensures NoSelfLoop(l) ==> Built(g, l, State())
    {
      PostorderInside(g);
      hide Shape, Sourced, Collected, Populated, IsRooted, RightTree, Built;
      PopulateLoops();
      ghost var s := State();
      HasRoot(g, preds, l, Post(g, START, {}));
      BuildLoopTree();
      RightIffNoSelfLoop(g, preds, l, s, State());
    }
  }

  // ---- What the pass computes ----------------------------------------------------------------------------

  /** The graph with its predecessor lists, and loops of existing blocks. */
  ghost predicate Shape(g: Graph, preds: Graph, l: Headers) {
    && Reversed(g, preds) && |l.latch| == |l.reducible| == |l.header| > 0
    && forall k :: 0 < k < |l.header| ==> l.header[k] < |g| && l.latch[k] < |g|
  }

  function VisitHeader(g: Graph, preds: Graph, l: Headers, s: Tree, k: nat): (r: Tree)
    requires Shape(g, preds, l) && 0 < k < |l.header| && |s.loopOf| == |g| && |s.outer| == |l.header|
    ensures |r.loopOf| == |g| && |r.outer| == |l.header|
  {
    if l.reducible[k] then
      VisitBlocks(preds, l.latch[k], {l.header[k]});
      TouchAll(s, SearchOrder(preds, l.latch[k], {l.header[k]}), k)
    else
      s.(loopOf := s.loopOf[l.header[k] := s.outer[k]])
  }

  function Visit(g: Graph, preds: Graph, l: Headers, s: Tree, b: Block): (r: Tree)
    requires Shape(g, preds, l) && |s.loopOf| == |g| && |s.outer| == |l.header| && b < |g|
    ensures |r.loopOf| == |g| && |r.outer| == |l.header|
  {
    IndexOfHeaderIs(l, b, 0);
    var k := IndexOfHeader(l, b, 0);
    if k == NULL then s else VisitHeader(g, preds, l, s, k)
  }

  function Populated(g: Graph, preds: Graph, l: Headers, po: seq<Block>, i: nat): (r: Tree)
    requires Shape(g, preds, l) && i <= |po| && forall j :: 0 <= j < |po| ==> po[j] < |g|
    ensures |r.loopOf| == |g| && |r.outer| == |l.header|
  {
    if i == 0 then Collected(g, l) else Visit(g, preds, l, Populated(g, preds, l, po, i - 1), po[i - 1])
  }

  /** `r` is `s` with everything that nobody claimed under the root. */
  predicate IsRooted(s: Tree, r: Tree) {
    && |r.loopOf| == |s.loopOf| && |r.outer| == |s.outer|
    && (forall x :: 0 <= x < |s.loopOf| ==> r.loopOf[x] == Rooted(s.loopOf[x]))
    && (forall j :: 0 < j < |s.outer| ==> r.outer[j] == Rooted(s.outer[j]))
    && (|r.outer| > 0 ==> r.outer[0] == NULL)
  }

  lemma HasRoot(g: Graph, preds: Graph, l: Headers, po: seq<Block>)
    requires Shape(g, preds, l) && forall j :: 0 <= j < |po| ==> po[j] < |g|
    ensures |Populated(g, preds, l, po, |po|).outer| > 0
  {}

  lemma PostorderInside(g: Graph)
    requires Valid(g)
    ensures forall i :: 0 <= i < |Post(g, START, {})| ==> Post(g, START, {})[i] < |g|
  {
    IsPostorder(g);
  }

  /** What collecting back edges gives in a graph whose blocks can all be reached: every loop has an edge from
      the latch to the header, and the header of a reducible loop dominates the latch. */
  ghost predicate Sourced(g: Graph, l: Headers) {
    var n := |l.header|;
    && Valid(g) && n > 0 && |l.latch| == |l.reducible| == n
    && (forall b :: 0 <= b < |g| ==> Reachable(g, b))
    && (forall k :: 0 < k < n ==> 0 < l.header[k] < |g| && l.latch[k] < |g| && Edge(g, l.latch[k], l.header[k]))
    && (forall k :: 0 < k < n && l.reducible[k] ==> Dominates(g, l.header[k], l.latch[k]))
    && (forall j, k :: 0 < j < k < n ==> l.header[j] != l.header[k])
  }

  ghost predicate NoSelfLoop(l: Headers)
    requires |l.latch| == |l.reducible| == |l.header|
  {
    forall k :: 0 < k < |l.header| && l.reducible[k] ==> l.header[k] != l.latch[k]
  }

  lemma SourcedIsProper(g: Graph, l: Headers)
    requires Sourced(g, l) && NoSelfLoop(l)
    ensures Proper(g, l)
  {
    hide Dominates, Reachable;
    forall k | 0 < k < |l.header| && l.reducible[k] ensures IsLoop(g, l.header[k], l.latch[k]) {
      assert Reachable(g, l.header[k]);
    }
  }

  /** One header of the postorder, when no loop is a single block. */
  lemma HeaderKeepsInv(g: Graph, preds: Graph, l: Headers, po: seq<Block>, i: nat, s: Tree, k: nat)
    requires Shape(g, preds, l) && Inv(g, l, po, i, s) && i < |po| && 0 < k < |l.header| && l.header[k] == po[i]
    ensures |s.loopOf| == |g| && |s.outer| == |l.header| && Inv(g, l, po, i + 1, VisitHeader(g, preds, l, s, k))
  {
    if l.reducible[k] {
      var h, t := l.header[k], l.latch[k];
      assert IsLoop(g, h, t);
      SearchIsLoop(g, preds, l, k);
      SearchKeepsInv(g, l, po, i, s, k, Pre(preds, t, {h}));
    } else {
      IrreducibleKeepsInv(g, l, po, i, s, k);
    }
  }

  lemma VisitKeepsInv(g: Graph, preds: Graph, l: Headers, po: seq<Block>, i: nat, s: Tree)
    requires Shape(g, preds, l) && Inv(g, l, po, i, s) && i < |po| && po[i] < |g|
    ensures |s.loopOf| == |g| && |s.outer| == |l.header| && Inv(g, l, po, i + 1, Visit(g, preds, l, s, po[i]))
  {
    InvShape(g, l, po, i, s);
    IndexOfHeaderIs(l, po[i], 0);
    var k := IndexOfHeader(l, po[i], 0);
    hide Shape, VisitHeader;
    if k != NULL {
      hide Inv;
      HeaderKeepsInv(g, preds, l, po, i, s, k);
    } else {
      PlainKeepsInv(g, l, po, i, s);
    }
  }

  lemma InvShape(g: Graph, l: Headers, po: seq<Block>, i: nat, s: Tree)
    requires Inv(g, l, po, i, s)
    ensures |s.loopOf| == |g| && |s.outer| == |l.header|
  {}

  lemma {:induction false} PopulatedInv(g: Graph, preds: Graph, l: Headers, po: seq<Block>, i: nat)
    requires Shape(g, preds, l) && Proper(g, l) && Postorder(g, po) && i <= |po|
    requires forall j :: 0 <= j < |po| ==> po[j] < |g|
    ensures Inv(g, l, po, i, Populated(g, preds, l, po, i))
    decreases i
  {
    hide Inv, Shape, Proper, Visit, Postorder;
    if i == 0 {
      CollectedInv(g, l, po);
    } else {
      PopulatedInv(g, preds, l, po, i - 1);
      VisitKeepsInv(g, preds, l, po, i - 1, Populated(g, preds, l, po, i - 1));
    }
  }

  // ---- A loop of one block ---------------------------------------------------------------------------

  /** The start block has been claimed by a loop. */
  predicate StartClaimed(s: Tree) {
    |s.loopOf| > 0 && s.loopOf[START] > 0
  }

  predicate StartFree(s: Tree) {
    |s.loopOf| > 0 && s.loopOf[START] == NULL
  }

  lemma {:induction false} TouchStart(s: Tree, xs: seq<Block>, k: nat)
    requires (forall i :: 0 <= i < |xs| ==> xs[i] < |s.loopOf|) && k > 0 && (StartFree(s) || StartClaimed(s))
    ensures var r := TouchAll(s, xs, k);
      && (StartFree(r) || StartClaimed(r)) && (StartClaimed(s) ==> StartClaimed(r)) && (START in xs ==> StartClaimed(r))
    decreases |xs|
  {
    if xs != [] {
      TouchStart(Touch(s, xs[0], k), xs[1..], k);
    }
  }

  /** The search that starts at a marked header comes back to the start block. */
  lemma SelfLoopFindsStart(g: Graph, preds: Graph, h: Block)
    requires Reversed(g, preds) && h < |g| && Reachable(g, h)
    ensures START in SearchOrder(preds, h, {h})
  {
    var p :| PathFromTo(g, p, START, h);
    ReversePath(g, preds, p);
    assert Avoids(Reverse(p), {});
    AvoidingInPre(preds, h, {}, Reverse(p));
    assert {} + {h} == {h} && {h} + {h} == {h};
  }

  lemma VisitStart(g: Graph, preds: Graph, l: Headers, s: Tree, b: Block)
    requires Shape(g, preds, l) && Sourced(g, l) && |s.loopOf| == |g| && |s.outer| == |l.header| && b < |g|
    requires StartFree(s) || StartClaimed(s)
    ensures var r := Visit(g, preds, l, s, b);
      && (StartFree(r) || StartClaimed(r)) && (StartClaimed(s) ==> StartClaimed(r))
      && forall k :: 0 < k < |l.header| && l.header[k] == b && l.reducible[k] && b == l.latch[k] ==> StartClaimed(r)
  {
    IndexOfHeaderIs(l, b, 0);
    var k := IndexOfHeader(l, b, 0);
    hide TouchAll, SearchOrder, Dominates;
    if k != NULL && l.reducible[k] {
      VisitBlocks(preds, l.latch[k], {b});
      TouchStart(s, SearchOrder(preds, l.latch[k], {b}), k);
      if b == l.latch[k] {
        assert Reachable(g, b);
        SelfLoopFindsStart(g, preds, b);
      }
      forall j | 0 < j < |l.header| && l.header[j] == b ensures j == k {
        assert j < k || j == k || k < j;
      }
    }
  }

  lemma CollectedStart(g: Graph, l: Headers)
    requires Sourced(g, l)
    ensures StartFree(Collected(g, l))
  {
    IndexOfHeaderIs(l, START, 0);
  }

  /** A reducible loop of one block claims the start block. */
  lemma {:induction false} SelfLoopClaimsStart(g: Graph, preds: Graph, l: Headers, po: seq<Block>, i: nat, k: nat)
    requires Shape(g, preds, l) && Sourced(g, l) && i <= |po| && forall j :: 0 <= j < |po| ==> po[j] < |g|
    requires 0 < k < |l.header| && l.reducible[k] && l.header[k] == l.latch[k]
    ensures var s := Populated(g, preds, l, po, i);
      (StartFree(s) || StartClaimed(s)) && (l.header[k] in po[..i] ==> StartClaimed(s))
    decreases i
  {
    hide Shape, Sourced, Visit, Collected, StartFree, StartClaimed;
    if i == 0 {
      CollectedStart(g, l);
    } else {
      SelfLoopClaimsStart(g, preds, l, po, i - 1, k);
      VisitStart(g, preds, l, Populated(g, preds, l, po, i - 1), po[i - 1]);
      assert po[..i] == po[..i - 1] + [po[i - 1]];
    }
  }

  /** No loop contains the start block. */
  lemma StartInNoLoop(g: Graph, l: Headers, r: Tree)
    requires Sourced(g, l) && |r.loopOf| == |g| && r.loopOf[START] > 0
    ensures !RightTree(g, l, r)
  {
    HasNotStart(g, l, r.loopOf[START]);
    assert RightTree(g, l, r) ==> InnermostWith(g, l, START, NULL, r.loopOf[START]);
  }

  lemma HasNotStart(g: Graph, l: Headers, v: nat)
    requires Sourced(g, l)
    ensures !Has(g, l, v, START)
  {
    if 0 < v < |l.header| && l.reducible[v] {
      assert 0 < l.header[v] && Dominates(g, l.header[v], l.latch[v]);
      forall p | PathFromTo(g, p, START, l.latch[v]) ensures l.header[v] in p {}
    }
  }

  /** The tree that the pass builds is right if and only if no reducible loop is a single block. */
  lemma RightIffNoSelfLoop(g: Graph, preds: Graph, l: Headers, s: Tree, r: Tree)
    requires Shape(g, preds, l) && Sourced(g, l) && IsRooted(s, r)
    requires forall j :: 0 <= j < |Post(g, START, {})| ==> Post(g, START, {})[j] < |g|
    requires s == Populated(g, preds, l, Post(g, START, {}), |Post(g, START, {})|)
    ensures RightTree(g, l, r) <==> NoSelfLoop(l)
    ensures NoSelfLoop(l) ==> Built(g, l, r)
  {
    var po := Post(g, START, {});
    if NoSelfLoop(l) {
      SourcedIsProper(g, l);
      PostorderOf(g, l);
      hide Shape, Sourced, Populated, Inv, Proper;
      PopulatedInv(g, preds, l, po, |po|);
      InvBuilds(g, l, po, s, r);
    } else {
      var k :| 0 < k < |l.header| && l.reducible[k] && l.header[k] == l.latch[k];
      HeaderListed(g, l, k);
      assert po[..|po|] == po;
      hide Shape, Sourced, Populated, RightTree;
      SelfLoopClaimsStart(g, preds, l, po, |po|, k);
      StartInNoLoop(g, l, r);
    }
  }

  /** Such a loop: the start block leads to a block that leads to itself. */
  lemma SelfLoopExample()
    ensures var g, preds, l := [[1], [1]], [[], [0, 1]], Headers([0, 1], [0, 1], [true, true]);
      Shape(g, preds, l) && Sourced(g, l) && !NoSelfLoop(l)
  {
    var g: Graph, preds: Graph, l := [[1], [1]], [[], [0, 1]], Headers([0, 1], [0, 1], [true, true]);
    assert PathFromTo(g, [0], START, 0) && PathFromTo(g, [0, 1], START, 1);
    assert l.reducible[1] && l.header[1] == l.latch[1];
  }

  lemma HeaderListed(g: Graph, l: Headers, k: nat)
    requires Sourced(g, l) && 0 < k < |l.header|
    ensures l.header[k] in Post(g, START, {})
  {
    IsPostorder(g);
    assert Reachable(g, l.header[k]);
  }

  lemma IsPostorder(g: Graph)
    requires Valid(g)
    ensures var po := Post(g, START, {});
      NoRepeats(po) && (forall i :: 0 <= i < |po| ==> po[i] < |g|) && forall x :: x in po <==> Reachable(g, x)
  {
    PostorderComplete(g);
    var po := Post(g, START, {});
    forall i | 0 <= i < |po| ensures po[i] < |g| {
      assert po[i] in po;
      var p :| PathFromTo(g, p, START, po[i]);
    }
  }

  lemma PostorderOf(g: Graph, l: Headers)
    requires Proper(g, l)
    ensures Postorder(g, Post(g, START, {}))
  {
    IsPostorder(g);
  }

  lemma SearchIsLoop(g: Graph, r: Graph, l: Headers, k: nat)
    requires Reversed(g, r) && Proper(g, l) && 0 < k < |l.header| && l.reducible[k]
    ensures SearchOf(g, l, k, Pre(r, l.latch[k], {l.header[k]}))
    ensures SearchOrder(r, l.latch[k], {l.header[k]}) == Pre(r, l.latch[k], {l.header[k]})
  {
    var h, t := l.header[k], l.latch[k];
    assert IsLoop(g, h, t);
    PreExplores(r, t, {h});
    VisitBlocks(r, t, {h});
    forall x: nat ensures x in Pre(r, t, {h}) <==> x < |g| && x != h && Has(g, l, k, x) {
      SearchFindsLoop(g, r, h, t, x);
      if x in Pre(r, t, {h}) {
        assert x < |r|;
      }
    }
  }
}
