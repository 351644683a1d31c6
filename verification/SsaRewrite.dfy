/** Moving phis to a new block in front of a header (pass/loop_analysis.cpp:188-234) keeps a program in
    strict SSA form. */
module SsaRewrite {
  import opened Cfg
  import opened Coverage
  import opened Ssa
  import opened Execution
  import opened FlowGraph
  import opened Redirection
  import opened LoopRewrite
  import opened Preservation
  import DT = DominatorTree

  // ---- What the rewritten program looks like ---------------------------------------------------------

  /** Both programs, with the phis `m` of the header and of the new block. */
  ghost predicate Pair(c: Program, d: Program, ps: set<Block>, h: Block, t: Block, bound: Value, m: Moved) {
    var n := |c.g|;
    && Redirected(c.g, d.g, ps, h) && |c.body| == n && |d.body| == n + 1 && h < n && t < n && t !in ps && ps != {}
    && (forall u: Block :: Edge(c.g, u, h) <==> u in ps || u == t)
    && (forall b :: 0 <= b < n && b != h ==> d.body[b] == c.body[b])
    && d.body[h] == BasicBlock(m.kept, c.body[h].insts) && d.body[n] == BasicBlock(m.added, [])
    && AllMoved(c.body[h].phis, |c.body[h].phis|, m, t, n, bound)
    && HeaderPhis(c.body[h].phis, ps, t) && Below(c.body, bound)
  }

  lemma RewrittenPair(c: Program, d: Program, ps: set<Block>, h: Block, t: Block, bound: Value) returns (m: Moved)
    requires Rewritten(c, d, ps, h, t, bound)
    ensures Pair(c, d, ps, h, t, bound, m)
    ensures d.moved == c.moved + NewIds(bound, |m.added|) && d.noUse == c.noUse && d.effects == c.effects
  {
    var phis := c.body[h].phis;
    m := Move(phis, |phis|, t, |c.g|, bound);
    assert t in ps + {t};
    MoveFacts(phis, |phis|, t, |c.g|, bound);
  }

  lemma SameInsts(c: Program, d: Program, ps: set<Block>, h: Block, t: Block, bound: Value, m: Moved, b: Block,
                  k: nat, v: Value)
    requires Pair(c, d, ps, h, t, bound, m)
    ensures InstDef(c.body, b, k, v) <==> InstDef(d.body, b, k, v)
    ensures InstUse(c.body, b, k, v) <==> InstUse(d.body, b, k, v)
  {
    hide AllMoved, HeaderPhis, Below, Redirected;
  }

  lemma InstsOld(c: Program, bound: Value, b: Block, k: nat, v: Value)
    requires Below(c.body, bound)
    ensures InstDef(c.body, b, k, v) || InstUse(c.body, b, k, v) ==> v < bound
  {
    if InstDef(c.body, b, k, v) || InstUse(c.body, b, k, v) {
      assert InstsBelow(c.body[b].insts, bound);
    }
  }

  lemma PhisOld(c: Program, bound: Value, b: Block, s: Block, v: Value)
    requires Below(c.body, bound)
    ensures PhiDef(c.body, b, v) ==> v < bound
    ensures PhiUse(c.body, b, s, v) ==> v < bound
  {
    if PhiDef(c.body, b, v) {
      var q :| 0 <= q < |c.body[b].phis| && c.body[b].phis[q].id == v;
      assert PhiBelow(c.body[b].phis[q], bound);
    }
    if PhiUse(c.body, b, s, v) {
      var q, k :| 0 <= q < |c.body[s].phis| && 0 <= k < |c.body[s].phis[q].inputs|
        && c.body[s].phis[q].inputs[k] == PhiInput(v, b);
      assert PhiBelow(c.body[s].phis[q], bound);
    }
  }

  lemma KeptId(phis: seq<Phi>, m: Moved, t: Block, n: Block, bound: Value, q: nat)
    requires AllMoved(phis, |phis|, m, t, n, bound) && q < |phis|
    ensures q < |m.kept| && m.kept[q].id == phis[q].id
  {
    assert MovedPhi(phis[q], m, q, t, n, bound);
    hide Entries;
  }

  lemma KeptIds(phis: seq<Phi>, m: Moved, t: Block, n: Block, bound: Value)
    requires AllMoved(phis, |phis|, m, t, n, bound)
    ensures |m.kept| == |phis| && forall q :: 0 <= q < |phis| ==> m.kept[q].id == phis[q].id
    ensures forall j :: 0 <= j < |m.added| ==> m.added[j].id == bound + j
  {
    forall q | 0 <= q < |phis| ensures m.kept[q].id == phis[q].id {
      KeptId(phis, m, t, n, bound, q);
    }
  }

  /** Old phis keep their ids; the phis of the new block have new ones. */
  lemma PhiDefs(c: Program, d: Program, ps: set<Block>, h: Block, t: Block, bound: Value, m: Moved, b: Block, v: Value)
    requires Pair(c, d, ps, h, t, bound, m)
    ensures PhiDef(d.body, b, v) <==> if b == |c.g| then bound <= v < bound + |m.added| else PhiDef(c.body, b, v)
  {
    KeptIds(c.body[h].phis, m, t, |c.g|, bound);
    hide AllMoved, HeaderPhis, Below, Redirected;
    if b == |c.g| {
      if bound <= v < bound + |m.added| {
        assert d.body[b].phis[v - bound].id == v;
      }
    } else if b == h && PhiDef(c.body, h, v) {
      var q :| 0 <= q < |c.body[h].phis| && c.body[h].phis[q].id == v;
      assert d.body[h].phis[q].id == v;
    }
  }

  lemma DistinctIds(c: Program, d: Program, ps: set<Block>, h: Block, t: Block, bound: Value, m: Moved, b: Block)
    requires Pair(c, d, ps, h, t, bound, m) && UniqueIds(c.body) && b < |d.body|
    ensures forall q, q' :: 0 <= q < q' < |d.body[b].phis| ==> d.body[b].phis[q].id != d.body[b].phis[q'].id
  {
    KeptIds(c.body[h].phis, m, t, |c.g|, bound);
    hide AllMoved, HeaderPhis, Below, Redirected;
    forall q, q' | 0 <= q < q' < |d.body[b].phis| ensures d.body[b].phis[q].id != d.body[b].phis[q'].id {
      if b < |c.g| {
        assert c.body[b].phis[q].id != c.body[b].phis[q'].id;
      }
    }
  }

  /** Ids stay unique. */
  lemma IdsUnique(c: Program, d: Program, ps: set<Block>, h: Block, t: Block, bound: Value, m: Moved)
    requires Pair(c, d, ps, h, t, bound, m) && UniqueIds(c.body)
    ensures UniqueIds(d.body)
  {
    assert Below(c.body, bound);
    hide Pair, Below, InstDef, PhiDef;
    forall b: Block, k: nat, b': Block, k': nat, v: Value | InstDef(d.body, b, k, v) && InstDef(d.body, b', k', v)
      ensures b == b' && k == k'
    {
      SameInsts(c, d, ps, h, t, bound, m, b, k, v);
      SameInsts(c, d, ps, h, t, bound, m, b', k', v);
    }
    forall b: Block, k: nat, b': Block, v: Value | InstDef(d.body, b, k, v) ensures !PhiDef(d.body, b', v) {
      SameInsts(c, d, ps, h, t, bound, m, b, k, v);
      InstsOld(c, bound, b, k, v);
      PhiDefs(c, d, ps, h, t, bound, m, b', v);
    }
    forall b: Block, b': Block, v: Value | PhiDef(d.body, b, v) && PhiDef(d.body, b', v) ensures b == b' {
      PhiDefs(c, d, ps, h, t, bound, m, b, v);
      PhiDefs(c, d, ps, h, t, bound, m, b', v);
      PhisOld(c, bound, b, 0, v);
      PhisOld(c, bound, b', 0, v);
    }
    forall b | 0 <= b < |d.body|
      ensures forall q, q' :: 0 <= q < q' < |d.body[b].phis| ==> d.body[b].phis[q].id != d.body[b].phis[q'].id
    {
      DistinctIds(c, d, ps, h, t, bound, m, b);
    }
  }

  // ---- Uses ------------------------------------------------------------------------------------------

  lemma InputUsed(body: Code, s: Block, q: nat, x: PhiInput)
    requires s < |body| && q < |body[s].phis| && x in body[s].phis[q].inputs
    ensures PhiUse(body, x.source, s, x.value)
  {
    var k :| 0 <= k < |body[s].phis[q].inputs| && body[s].phis[q].inputs[k] == x;
    assert body[s].phis[q].inputs[k] == PhiInput(x.value, x.source);
  }

  lemma UsedInput(body: Code, b: Block, s: Block, v: Value) returns (q: nat)
    requires PhiUse(body, b, s, v)
    ensures s < |body| && q < |body[s].phis| && PhiInput(v, b) in body[s].phis[q].inputs
  {
    var i, k :| 0 <= i < |body[s].phis| && 0 <= k < |body[s].phis[i].inputs|
        && body[s].phis[i].inputs[k] == PhiInput(v, b);
    q := i;
  }

  /** The back-edge input is an input; every other input is an entry. */
  lemma InputOrEntry(phis: seq<Phi>, ps: set<Block>, t: Block, q: nat, x: PhiInput)
    requires HeaderPhis(phis, ps, t) && q < |phis|
    ensures BackInput(phis[q], t) in phis[q].inputs
    ensures x in phis[q].inputs && x.source == t ==> x == BackInput(phis[q], t)
    ensures x in Entries(phis[q], t) <==> x in phis[q].inputs && x.source != t
  {
    var ins := phis[q].inputs;
    assert t in ps + {t} && HasSource(ins, t);
    var k :| 0 <= k < |ins| && ins[k].source == t;
    SourceUnique(ins, t, k);
    assert ins[k] == BackInput(phis[q], t);
    if x in ins && x.source == t {
      var j :| 0 <= j < |ins| && ins[j] == x;
      assert j == k;
    }
  }

  /** A single entry comes from the only predecessor outside. */
  lemma SingleEntry(phis: seq<Phi>, ps: set<Block>, t: Block, q: nat)
    requires HeaderPhis(phis, ps, t) && q < |phis| && t !in ps && ps != {} && |Entries(phis[q], t)| == 1
    ensures var x := Entries(phis[q], t)[0]; ps == {x.source} && x in phis[q].inputs
  {
    var x := Entries(phis[q], t)[0];
    forall u | u in ps ensures u == x.source {
      assert u in ps + {t} && HasSource(phis[q].inputs, u);
      var k :| 0 <= k < |phis[q].inputs| && phis[q].inputs[k].source == u;
      InputOrEntry(phis, ps, t, q, phis[q].inputs[k]);
      assert phis[q].inputs[k] in Entries(phis[q], t);
    }
    var u :| u in ps;
    InputOrEntry(phis, ps, t, q, x);
  }

  /** The phi uses of the rewritten program, at the header. */
  lemma HeaderUse(c: Program, d: Program, ps: set<Block>, h: Block, t: Block, bound: Value, m: Moved, b: Block,
                  v: Value)
    requires Pair(c, d, ps, h, t, bound, m) && PhiUse(d.body, b, h, v)
    ensures || (b == t && PhiUse(c.body, t, h, v))
            || (b == |c.g| && bound <= v < bound + |m.added|)
            || (b == |c.g| && exists u :: ps == {u} && PhiUse(c.body, u, h, v))
  {
    PairPhis(c, d, ps, h, t, bound, m);
    var phis := c.body[h].phis;
    hide Pair, Entries, PhiUse, HeaderPhis, AllMoved, BackInput;
    var q := UsedInput(d.body, b, h, v);
    KeptInputIs(phis, m, t, |c.g|, bound, q, PhiInput(v, b));
    InputOrEntry(phis, ps, t, q, BackInput(phis[q], t));
    BackSource(phis[q], t);
    InputUsed(c.body, h, q, BackInput(phis[q], t));
    if |Entries(phis[q], t)| == 1 {
      SingleEntry(phis, ps, t, q);
      InputUsed(c.body, h, q, Entries(phis[q], t)[0]);
    }
  }

  lemma KeptInputIs(phis: seq<Phi>, m: Moved, t: Block, n: Block, bound: Value, q: nat, x: PhiInput)
    requires AllMoved(phis, |phis|, m, t, n, bound) && q < |m.kept| && x in m.kept[q].inputs
    ensures || x == BackInput(phis[q], t) || (x.source == n && bound <= x.value < bound + |m.added|)
            || (|Entries(phis[q], t)| == 1 && x == PhiInput(Entries(phis[q], t)[0].value, n))
  {
    assert MovedPhi(phis[q], m, q, t, n, bound);
    hide Entries, Merges, Feeds;
  }

  /** The phi uses of the rewritten program, at the new block. */
  lemma NewBlockUse(c: Program, d: Program, ps: set<Block>, h: Block, t: Block, bound: Value, m: Moved, b: Block,
                    v: Value)
    requires Pair(c, d, ps, h, t, bound, m) && PhiUse(d.body, b, |c.g|, v)
    ensures PhiUse(c.body, b, h, v)
  {
    var phis := c.body[h].phis;
    var j := UsedInput(d.body, b, |c.g|, v);
    assert Merges(phis, |phis|, m.added[j], t);
    var q :| 0 <= q < |phis| && m.added[j].inputs == Entries(phis[q], t);
    InputOrEntry(phis, ps, t, q, PhiInput(v, b));
    InputUsed(c.body, h, q, PhiInput(v, b));
  }

  /** Every phi use of the old program is still there: in place, or in the new block. */
  lemma UseKept(c: Program, d: Program, ps: set<Block>, h: Block, t: Block, bound: Value, m: Moved, b: Block, v: Value)
    requires Pair(c, d, ps, h, t, bound, m) && PhiUse(c.body, b, h, v)
    ensures if b == t then PhiUse(d.body, t, h, v) else PhiUse(d.body, |c.g|, h, v) || PhiUse(d.body, b, |c.g|, v)
  {
    PairPhis(c, d, ps, h, t, bound, m);
    hide Pair, AllMoved, HeaderPhis, PhiUse;
    UseMoved(c.body, d.body, ps, h, t, |c.g|, bound, m, b, v);
  }

  lemma PairPhis(c: Program, d: Program, ps: set<Block>, h: Block, t: Block, bound: Value, m: Moved)
    requires Pair(c, d, ps, h, t, bound, m)
    ensures h < |c.body| == |c.g| && |d.body| == |c.g| + 1
    ensures d.body[h].phis == m.kept && d.body[|c.g|].phis == m.added
      && |m.kept| == |c.body[h].phis| && t !in ps && ps != {}
    ensures AllMoved(c.body[h].phis, |c.body[h].phis|, m, t, |c.g|, bound) && HeaderPhis(c.body[h].phis, ps, t)
  {}

  lemma UseMoved(body: Code, body': Code, ps: set<Block>, h: Block, t: Block, n: Block, bound: Value, m: Moved,
                 b: Block, v: Value)
    requires h < |body| == n && |body'| == n + 1 && body'[h].phis == m.kept && body'[n].phis == m.added
    requires AllMoved(body[h].phis, |body[h].phis|, m, t, n, bound) && HeaderPhis(body[h].phis, ps, t)
    requires PhiUse(body, b, h, v)
    ensures if b == t then PhiUse(body', t, h, v) else PhiUse(body', n, h, v) || PhiUse(body', b, n, v)
  {
    var phis := body[h].phis;
    hide Entries, AllMoved, HeaderPhis, PhiUse, BackInput;
    var q := UsedInput(body, b, h, v);
    InputOrEntry(phis, ps, t, q, PhiInput(v, b));
    BackSource(phis[q], t);
    var j := KeptInputs(phis, m, t, n, bound, q);
    if b == t {
      InputUsed(body', h, q, BackInput(phis[q], t));
    } else {
      EntryMoved(body', h, n, q, j, Entries(phis[q], t), PhiInput(v, b));
    }
  }

  /** An entry is an input of the header phi over the edge from the new block, or of a new phi. */
  lemma EntryMoved(body: Code, h: Block, n: Block, q: nat, j: nat, es: seq<PhiInput>, x: PhiInput)
    requires h < |body| && n < |body| && q < |body[h].phis| && x in es
    requires if |es| == 1 then PhiInput(es[0].value, n) in body[h].phis[q].inputs
             else j < |body[n].phis| && body[n].phis[j].inputs == es
    ensures PhiUse(body, n, h, x.value) || PhiUse(body, x.source, n, x.value)
  {
    hide PhiUse;
    if |es| == 1 {
      OnlyEntry(es, x);
      InputUsed(body, h, q, PhiInput(x.value, n));
    } else {
      InputUsed(body, n, j, x);
    }
  }

  lemma OnlyEntry(es: seq<PhiInput>, x: PhiInput)
    requires x in es
    ensures |es| == 1 ==> es[0] == x
  {}

  lemma BackSource(phi: Phi, t: Block)
    ensures BackInput(phi, t).source == t
  {}

  lemma KeptInputs(phis: seq<Phi>, m: Moved, t: Block, n: Block, bound: Value, q: nat) returns (j: nat)
    requires AllMoved(phis, |phis|, m, t, n, bound) && q < |phis|
    ensures q < |m.kept| && BackInput(phis[q], t) in m.kept[q].inputs
    ensures if |Entries(phis[q], t)| == 1 then PhiInput(Entries(phis[q], t)[0].value, n) in m.kept[q].inputs
            else j < |m.added| && m.added[j].inputs == Entries(phis[q], t)
  {
    var es := Entries(phis[q], t);
    assert MovedPhi(phis[q], m, q, t, n, bound);
    hide Entries, Merges, Feeds;
    j := 0;
    assert m.kept[q].inputs[0] == BackInput(phis[q], t);
    if |es| == 1 {
      assert m.kept[q].inputs[1] == PhiInput(es[0].value, n);
    } else {
      var i :| 0 <= i < |m.added| && m.added[i] == Phi(bound + i, es)
        && m.kept[q] == Phi(phis[q].id, [BackInput(phis[q], t), PhiInput(bound + i, n)]);
      j := i;
    }
  }

  /** A phi use over an edge of the rewritten program. */
  ghost predicate OldUse(c: Program, ps: set<Block>, h: Block, b: Block, s: Block, v: Value, s': Block) {
    Edge(c.g, b, s') && PhiUse(c.body, b, s', v) && (s' == s || (s' == h && s == |c.g| && b in ps))
  }

  lemma UseOverEdge(c: Program, d: Program, ps: set<Block>, h: Block, t: Block, bound: Value, m: Moved,
                    b: Block, s: Block, v: Value)
    requires Pair(c, d, ps, h, t, bound, m) && Edge(d.g, b, s) && PhiUse(d.body, b, s, v)
    ensures || OldUse(c, ps, h, b, s, v, s) || OldUse(c, ps, h, b, s, v, h)
            || (s == h && b == |c.g| && bound <= v < bound + |m.added|)
            || (s == h && b == |c.g| && exists u :: ps == {u} && Edge(c.g, u, h) && PhiUse(c.body, u, h, v))
  {
    var n := |c.g|;
    assert s < |d.body| == n + 1;
    NewEdges(c.g, d.g, ps, h, b, s);
    NewEdges(c.g, d.g, ps, h, b, h);
    if s == h {
      HeaderUse(c, d, ps, h, t, bound, m, b, v);
      assert Edge(c.g, t, h);
    } else if s == n {
      NewBlockUse(c, d, ps, h, t, bound, m, b, v);
      assert b in ps && Edge(c.g, b, h);
    } else {
      assert d.body[s] == c.body[s];
      SourceExists(c, d, ps, h, b, s);
    }
    hide PhiUse, Redirected, HeaderPhis, Below, AllMoved;
  }

  lemma SourceExists(c: Program, d: Program, ps: set<Block>, h: Block, b: Block, s: Block)
    requires Redirected(c.g, d.g, ps, h) && Edge(d.g, b, s) && s != h && s < |c.g|
    ensures Edge(c.g, b, s)
  {
    NewEdges(c.g, d.g, ps, h, b, s);
    NewEdges(c.g, d.g, ps, h, b, h);
  }

  /** Which old values are used does not change, and the phis of the new block are used. */
  lemma UsedIff(c: Program, d: Program, ps: set<Block>, h: Block, t: Block, bound: Value, m: Moved, v: Value)
    requires Pair(c, d, ps, h, t, bound, m)
    ensures v < bound ==> (Used(c.g, c.body, v) <==> Used(d.g, d.body, v))
    ensures bound <= v < bound + |m.added| ==> Used(d.g, d.body, v)
    ensures Used(d.g, d.body, v) ==> v < bound + |m.added|
  {
    hide Pair;
    if Used(c.g, c.body, v) {
      UsedStill(c, d, ps, h, t, bound, m, v);
    }
    if Used(d.g, d.body, v) {
      UsedBefore(c, d, ps, h, t, bound, m, v);
    }
    if bound <= v < bound + |m.added| {
      NewUsed(c, d, ps, h, t, bound, m, v);
    }
  }

  lemma UsedStill(c: Program, d: Program, ps: set<Block>, h: Block, t: Block, bound: Value, m: Moved, v: Value)
    requires Pair(c, d, ps, h, t, bound, m) && Used(c.g, c.body, v)
    ensures Used(d.g, d.body, v)
  {
    if b: Block, k: nat :| InstUse(c.body, b, k, v) {
      SameInsts(c, d, ps, h, t, bound, m, b, k, v);
    } else {
      var b: Block, s: Block :| Edge(c.g, b, s) && PhiUse(c.body, b, s, v);
      NewEdges(c.g, d.g, ps, h, b, s);
      NewEdges(c.g, d.g, ps, h, b, h);
      if s == h {
        UseKept(c, d, ps, h, t, bound, m, b, v);
        assert b == t || b in ps;
      } else {
        assert d.body[s] == c.body[s];
        assert PhiUse(d.body, b, s, v);
      }
    }
  }

  lemma UsedBefore(c: Program, d: Program, ps: set<Block>, h: Block, t: Block, bound: Value, m: Moved, v: Value)
    requires Pair(c, d, ps, h, t, bound, m) && Used(d.g, d.body, v)
    ensures v < bound ==> Used(c.g, c.body, v)
    ensures v < bound + |m.added|
  {
    assert Below(c.body, bound);
    if b: Block, k: nat :| InstUse(d.body, b, k, v) {
      SameInsts(c, d, ps, h, t, bound, m, b, k, v);
      InstsOld(c, bound, b, k, v);
    } else {
      var b: Block, s: Block :| Edge(d.g, b, s) && PhiUse(d.body, b, s, v);
      UseOverEdge(c, d, ps, h, t, bound, m, b, s, v);
      PhisOld(c, bound, b, s, v);
      PhisOld(c, bound, b, h, v);
      if u :| ps == {u} && Edge(c.g, u, h) && PhiUse(c.body, u, h, v) {
        PhisOld(c, bound, u, h, v);
      }
    }
  }

  lemma NewUsed(c: Program, d: Program, ps: set<Block>, h: Block, t: Block, bound: Value, m: Moved, v: Value)
    requires Pair(c, d, ps, h, t, bound, m) && bound <= v < bound + |m.added|
    ensures Used(d.g, d.body, v)
  {
    var j := v - bound;
    assert m.added[j].id == v && Feeds(m, v, |c.g|);
    var q :| 0 <= q < |m.kept| && PhiInput(v, |c.g|) in m.kept[q].inputs;
    InputUsed(d.body, h, q, PhiInput(v, |c.g|));
    NewEdges(c.g, d.g, ps, h, t, h);
    assert Edge(d.g, |c.g|, h);
  }

  // ---- Strict SSA ------------------------------------------------------------------------------------

  /** An old definition stays the only one. */
  lemma StillDefined(c: Program, d: Program, ps: set<Block>, h: Block, t: Block, bound: Value, m: Moved, v: Value,
                     x: Block, k: nat, isPhi: bool)
    requires Pair(c, d, ps, h, t, bound, m) && v < bound && DefinedAt(c.body, v, x, k, isPhi)
    ensures DefinedAt(d.body, v, x, k, isPhi) && x < |c.g|
  {
    assert |c.body| == |c.g|;
    hide Pair, InstDef, PhiDef;
    DefinedInside(c.body, v, x, k, isPhi);
    SameInsts(c, d, ps, h, t, bound, m, x, k, v);
    PhiDefs(c, d, ps, h, t, bound, m, x, v);
    forall b: Block | PhiDef(d.body, b, v) ensures isPhi && b == x {
      PhiDefs(c, d, ps, h, t, bound, m, b, v);
    }
    forall b: Block, j: nat | InstDef(d.body, b, j, v) ensures !isPhi && b == x && j == k {
      SameInsts(c, d, ps, h, t, bound, m, b, j, v);
    }
  }

  lemma DefinedInside(body: Code, v: Value, x: Block, k: nat, isPhi: bool)
    requires DefinedAt(body, v, x, k, isPhi)
    ensures x < |body|
  {}

  /** What dominates the only entry dominates the new block. */
  lemma EntryDominates(g: Graph, r: Graph, u: Block, h: Block, x: Block)
    requires Redirected(g, r, {u}, h) && u < |g| && x < |g| && Dominates(g, x, u)
    ensures Dominates(r, x, |g|)
  {
    DominanceUnchanged(g, r, {u}, h, x, u);
    forall p | PathFromTo(r, p, START, |g|) ensures x in p {
      assert |p| > 1;
      assert EdgeAt(r, p, |p| - 2);
      NewEdges(g, r, {u}, h, p[|p| - 2], |g|);
      NewEdges(g, r, {u}, h, p[|p| - 2], h);
      PathSlice(r, p, 0, |p| - 1);
      assert x in p[0..|p| - 1];
    }
  }

  lemma DominatesStill(c: Program, d: Program, ps: set<Block>, h: Block, t: Block, bound: Value, m: Moved, v: Value,
                       x: Block, k: nat, isPhi: bool)
    requires Pair(c, d, ps, h, t, bound, m) && v < bound && x < |c.g| && UsesDominated(c.g, c.body, v, x, k, isPhi)
    ensures UsesDominated(d.g, d.body, v, x, k, isPhi)
  {
    assert |c.body| == |c.g| && Redirected(c.g, d.g, ps, h);
    hide Pair, Dominates, PhiUse, InstUse, Redirected, Edge;
    forall b: Block, j: nat | InstUse(d.body, b, j, v) ensures Dominates(d.g, x, b) && (b == x && !isPhi ==> k < j) {
      SameInsts(c, d, ps, h, t, bound, m, b, j, v);
      UseInside(c.body, b, j, v);
      DominanceUnchanged(c.g, d.g, ps, h, x, b);
    }
    forall b: Block, s: Block | Edge(d.g, b, s) && PhiUse(d.body, b, s, v) ensures Dominates(d.g, x, b) {
      UseOverEdge(c, d, ps, h, t, bound, m, b, s, v);
      EdgeUseDominated(c, d, ps, h, v, x, k, isPhi, b, s);
    }
  }

  lemma UseInside(body: Code, b: Block, j: nat, v: Value)
    requires InstUse(body, b, j, v)
    ensures b < |body|
  {}

  lemma EdgeUseDominated(c: Program, d: Program, ps: set<Block>, h: Block, v: Value, x: Block, k: nat, isPhi: bool,
                         b: Block, s: Block)
    requires Redirected(c.g, d.g, ps, h) && x < |c.g| && UsesDominated(c.g, c.body, v, x, k, isPhi)
    requires || OldUse(c, ps, h, b, s, v, s) || OldUse(c, ps, h, b, s, v, h)
             || (s == h && b == |c.g| && exists u :: ps == {u} && Edge(c.g, u, h) && PhiUse(c.body, u, h, v))
    ensures Dominates(d.g, x, b)
  {
    hide Dominates, PhiUse, Redirected;
    if OldUse(c, ps, h, b, s, v, s) || OldUse(c, ps, h, b, s, v, h) {
      DominanceUnchanged(c.g, d.g, ps, h, x, b);
    } else {
      var u :| ps == {u} && Edge(c.g, u, h) && PhiUse(c.body, u, h, v);
      EntryDominates(c.g, d.g, u, h, x);
    }
  }

  /** A phi of the new block is defined once, and only the header uses it, over the edge from there. */
  lemma NewPhiSsa(c: Program, d: Program, ps: set<Block>, h: Block, t: Block, bound: Value, m: Moved, v: Value)
    requires Pair(c, d, ps, h, t, bound, m) && bound <= v < bound + |m.added|
    ensures DefinedAt(d.body, v, |c.g|, 0, true) && UsesDominated(d.g, d.body, v, |c.g|, 0, true)
  {
    assert Below(c.body, bound);
    hide Pair, Dominates, PhiUse, InstUse, InstDef, PhiDef, Below;
    PhiDefs(c, d, ps, h, t, bound, m, |c.g|, v);
    forall b: Block | PhiDef(d.body, b, v) ensures b == |c.g| {
      PhiDefs(c, d, ps, h, t, bound, m, b, v);
      PhisOld(c, bound, b, 0, v);
    }
    forall b: Block, j: nat ensures !InstDef(d.body, b, j, v) && !InstUse(d.body, b, j, v) {
      SameInsts(c, d, ps, h, t, bound, m, b, j, v);
      InstsOld(c, bound, b, j, v);
    }
    forall b: Block, s: Block | Edge(d.g, b, s) && PhiUse(d.body, b, s, v) ensures Dominates(d.g, |c.g|, b) {
      UseOverEdge(c, d, ps, h, t, bound, m, b, s, v);
      PhisOld(c, bound, b, s, v);
      PhisOld(c, bound, b, h, v);
      if u :| ps == {u} && Edge(c.g, u, h) && PhiUse(c.body, u, h, v) {
        PhisOld(c, bound, u, h, v);
      }
      DT.SelfDominates(d.g, |c.g|);
    }
  }

  /** The rewriting keeps strict SSA form. */
  lemma StrictSsaKept(c: Program, d: Program, ps: set<Block>, h: Block, t: Block, bound: Value, m: Moved)
    requires Pair(c, d, ps, h, t, bound, m) && StrictSsa(c.g, c.body)
    ensures StrictSsa(d.g, d.body)
  {
    assert |d.body| == |d.g|;
    hide Pair, Used, DefinedAt, UsesDominated;
    forall v: Value | Used(d.g, d.body, v)
      ensures exists x: Block, k: nat, isPhi :: DefinedAt(d.body, v, x, k, isPhi) &&
                UsesDominated(d.g, d.body, v, x, k, isPhi)
    {
      UsedIff(c, d, ps, h, t, bound, m, v);
      if v < bound {
        var x: Block, k: nat, isPhi :| DefinedAt(c.body, v, x, k, isPhi) && UsesDominated(c.g, c.body, v, x, k, isPhi);
        StillDefined(c, d, ps, h, t, bound, m, v, x, k, isPhi);
        DominatesStill(c, d, ps, h, t, bound, m, v, x, k, isPhi);
      } else {
        NewPhiSsa(c, d, ps, h, t, bound, m, v);
      }
    }
  }

  // ---- Whole programs --------------------------------------------------------------------------------

  /** A program as the later passes expect it: strict SSA, unique ids, unused instructions without a
      result, carried-out phis exactly those that are used, and no phis in the start block. */
  ghost predicate SsaProgram(c: Program, bound: Value) {
    && |c.body| == |c.g| > 0 && StrictSsa(c.g, c.body) && UniqueIds(c.body) && c.body[START].phis == []
    && (forall v: Value :: v in c.noUse ==> v < bound && !Used(c.g, c.body, v))
    && (forall b: Block, v: Value :: PhiDef(c.body, b, v) ==> (v in c.moved <==> Used(c.g, c.body, v)))
  }

  lemma MovedIffUsed(c: Program, d: Program, ps: set<Block>, h: Block, t: Block, bound: Value, m: Moved, b: Block,
                     v: Value)
    requires Pair(c, d, ps, h, t, bound, m) && PhiDef(d.body, b, v) && d.moved == c.moved + NewIds(bound, |m.added|)
    requires forall b: Block, v: Value :: PhiDef(c.body, b, v) ==> (v in c.moved <==> Used(c.g, c.body, v))
    ensures v in d.moved <==> Used(d.g, d.body, v)
  {
    assert Below(c.body, bound);
    hide Pair, PhiDef, Used, Below;
    PhiDefs(c, d, ps, h, t, bound, m, b, v);
    UsedIff(c, d, ps, h, t, bound, m, v);
    PhisOld(c, bound, b, 0, v);
  }

  lemma StartUntouched(c: Program, d: Program, ps: set<Block>, h: Block, t: Block, bound: Value, m: Moved)
    requires Pair(c, d, ps, h, t, bound, m)
    ensures |d.body| == |d.g| > 0 && |c.body| > 0 && d.body[START] == c.body[START]
  {}

  /** One rewriting keeps all of this. */
  lemma SsaProgramKept(c: Program, d: Program, ps: set<Block>, h: Block, t: Block, bound: Value, base: Value)
    requires Rewritten(c, d, ps, h, t, bound) && SsaProgram(c, base) && base <= bound
    ensures SsaProgram(d, base)
  {
    hide Rewritten, StrictSsa, UniqueIds, Used, PhiDef, Pair;
    var m := RewrittenPair(c, d, ps, h, t, bound);
    IdsUnique(c, d, ps, h, t, bound, m);
    StrictSsaKept(c, d, ps, h, t, bound, m);
    StartUntouched(c, d, ps, h, t, bound, m);
    forall v: Value | v in d.noUse ensures !Used(d.g, d.body, v) {
      UsedIff(c, d, ps, h, t, bound, m, v);
    }
    forall b: Block, v: Value | PhiDef(d.body, b, v) ensures v in d.moved <==> Used(d.g, d.body, v) {
      MovedIffUsed(c, d, ps, h, t, bound, m, b, v);
    }
  }

  /** So do any number of rewritings in a row. */
  lemma {:induction false} ChainKeepsSsa(c: Program, cs: seq<Change>, base: Value)
    requires Chain(c, cs, base) && SsaProgram(c, base)
    ensures SsaProgram(Latest(c, cs), base)
    decreases |cs|
  {
    hide SsaProgram, Rewritten, Chain;
    if cs != [] {
      LastChange(c, cs, base);
      var front, x := cs[..|cs| - 1], cs[|cs| - 1];
      ChainKeepsSsa(c, front, base);
      SsaProgramKept(Latest(c, front), x.after, x.ps, x.h, x.t, x.bound, base);
    }
  }
}
