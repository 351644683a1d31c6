/** The intrusive instruction lists of a basic block (ir/bb.cpp:180-193, 284-339, ir/inst.cpp:339-357): every
    instruction points to its neighbours, and the block to both ends.  Phis have a list of their own. */
module InstructionList {
  import opened Cfg
  import opened Ssa
  import opened Editing

  /** The pointers of a list; -1 is null. */
  datatype Links = Links(first: int, last: int, prev: map<Value, int>, next: map<Value, int>)

  ghost predicate Distinct(s: seq<Value>) {
    forall i, j :: 0 <= i < j < |s| ==> s[i] != s[j]
  }

  function At(s: seq<Value>, i: int): int {
    if 0 <= i < |s| then s[i] else NULL
  }

  /** The pointers are those of the list `s`. */
  ghost predicate Represents(l: Links, s: seq<Value>) {
    && Distinct(s) && l.first == At(s, 0) && l.last == At(s, |s| - 1)
    && forall i :: 0 <= i < |s| ==> Linked(l, s, i)
  }

  ghost predicate Linked(l: Links, s: seq<Value>, i: nat)
    requires i < |s|
  {
    s[i] in l.prev && s[i] in l.next && l.prev[s[i]] == At(s, i - 1) && l.next[s[i]] == At(s, i + 1)
  }

  function RemovedAt(s: seq<Value>, k: nat): seq<Value>
    requires k < |s|
  {
    s[..k] + s[k + 1..]
  }

  /** What unlinking does to the pointers: the neighbours, or the ends of the list, skip the instruction. */
  function Unlinked(l: Links, v: Value): Links
    requires v in l.prev && v in l.next
  {
    var p, n := l.prev[v], l.next[v];
    Links(if p < 0 then n else l.first, if n < 0 then p else l.last,
          if n < 0 then l.prev else l.prev[n := p], if p < 0 then l.next else l.next[p := n])
  }

  lemma UnlinkedDistinct(s: seq<Value>, k: nat)
    requires Distinct(s) && k < |s|
    ensures Distinct(RemovedAt(s, k))
    ensures forall i :: 0 <= i < |s| - 1 ==> RemovedAt(s, k)[i] == if i < k then s[i] else s[i + 1]
  {
    var r := RemovedAt(s, k);
    forall i | 0 <= i < |r| ensures r[i] == if i < k then s[i] else s[i + 1] {}
  }

  /** Unlinking takes exactly the one instruction out of the list and keeps the order of the others. */
  lemma UnlinkedRepresents(l: Links, s: seq<Value>, k: nat)
    requires Represents(l, s) && k < |s|
    ensures Linked(l, s, k) && Represents(Unlinked(l, s[k]), RemovedAt(s, k))
  {
    assert Linked(l, s, k);
    var r, u := RemovedAt(s, k), Unlinked(l, s[k]);
    UnlinkedDistinct(s, k);
    forall i | 0 <= i < |r| ensures Linked(u, r, i) {
      var j := if i < k then i else i + 1;
      assert Linked(l, s, j) && r[i] == s[j];
      if 0 < k {
        assert s[k - 1] == s[j] ==> j == k - 1;
      }
      if k + 1 < |s| {
        assert s[k + 1] == s[j] ==> j == k + 1;
      }
    }
  }

  function Ids(insts: seq<Inst>): (r: seq<Value>)
    ensures |r| == |insts| && forall k :: 0 <= k < |r| ==> r[k] == insts[k].id
  {
    seq(|insts|, k requires 0 <= k < |insts| => insts[k].id)
  }

  lemma {:induction false} DropAbsent(insts: seq<Inst>, v: Value)
    requires forall k :: 0 <= k < |insts| ==> insts[k].id != v
    ensures DropInsts(insts, {v}) == insts
    decreases |insts|
  {
    if insts != [] {
      DropAbsent(insts[..|insts| - 1], v);
    }
  }

  /** On the list of a block this is what dropping the instruction from the block does. */
  lemma {:induction false} RemovedIsDropped(insts: seq<Inst>, k: nat)
    requires k < |insts| && Distinct(Ids(insts))
    ensures Ids(DropInsts(insts, {insts[k].id})) == RemovedAt(Ids(insts), k)
    decreases |insts|
  {
    var front, x := insts[..|insts| - 1], insts[|insts| - 1];
    var v := insts[k].id;
    forall i, j | 0 <= i < j < |front| ensures Ids(front)[i] != Ids(front)[j] {
      assert Ids(insts)[i] != Ids(insts)[j];
    }
    if k == |insts| - 1 {
      forall i | 0 <= i < |front| ensures front[i].id != v {
        assert Ids(insts)[i] != Ids(insts)[k];
      }
      DropAbsent(front, v);
      assert DropInsts(insts, {v}) == front;
    } else {
      RemovedIsDropped(front, k);
      assert Ids(insts)[k] != Ids(insts)[|insts| - 1];
      assert DropInsts(insts, {v}) == DropInsts(front, {v}) + [x];
      assert Ids(insts) == Ids(front) + [x.id];
    }
  }

  /** One list of a block. */
  class InstList {
    var first: int
    var last: int
    var prev: map<Value, int>
    var next: map<Value, int>
    ghost var contents: seq<Value>

    ghost predicate Valid()
      reads this
    {
      Represents(Pointers(), contents)
    }

    ghost function Pointers(): Links
      reads this
    {
      Links(first, last, prev, next)
    }

    constructor ()
      ensures Valid() && contents == []
    {
      first, last, prev, next, contents := NULL, NULL, map[], map[], [];
    }

    /** `PushBackInst`. */
    method PushBackInst(v: Value)
      requires Valid() && v !in contents
      modifies this
      ensures Valid() && contents == old(contents) + [v]
    {
      PushedRepresents(Pointers(), contents, v);
      prev, next := prev[v := last], next[v := NULL];
      if last < 0 {
        first := v;
      } else {
        next := next[last := v];
      }
      last := v;
      contents := contents + [v];
    }

    /** `UnlinkInst`: in the middle, at the front, at the back, or the only one. */
    method UnlinkInst(v: Value, ghost k: nat)
      requires Valid() && k < |contents| && contents[k] == v
      modifies this
      ensures Valid() && contents == RemovedAt(old(contents), k)
    {
      UnlinkedRepresents(Pointers(), contents, k);
      assert Linked(Pointers(), contents, k);
      var p, n := prev[v], next[v];
      if p >= 0 && n >= 0 {
        prev := prev[n := p];
        next := next[p := n];
      } else if p < 0 && n >= 0 {
        first := n;
        prev := prev[n := NULL];
      } else if p >= 0 && n < 0 {
        last := p;
        next := next[p := NULL];
      } else {
        first, last := NULL, NULL;
      }
      contents := RemovedAt(contents, k);
    }

    /** `InstBase::Precedes`: walking forward from `u` meets `v` exactly if `u` does not stand behind `v`. */
    method Precedes(u: Value, v: Value, ghost i: nat, ghost j: nat) returns (r: bool)
      requires Valid() && i < |contents| && contents[i] == u && j < |contents| && contents[j] == v
      ensures r <==> i <= j
    {
      if u == v {
        return true;
      }
      assert Linked(Pointers(), contents, i);
      var x := next[u];
      ghost var k: nat := i + 1;
      while x >= 0
        invariant i < k && x == At(contents, k) && (i <= j ==> k <= j)
        decreases |contents| - k
      {
        if x == v {
          return true;
        }
        assert Linked(Pointers(), contents, k);
        x := next[x];
        k := k + 1;
      }
      return false;
    }
  }

  function Pushed(l: Links, v: Value): Links {
    var next := l.next[v := NULL];
    Links(if l.last < 0 then v else l.first, v, l.prev[v := l.last],
          if l.last < 0 then next else next[l.last := v])
  }

  lemma PushedRepresents(l: Links, s: seq<Value>, v: Value)
    requires Represents(l, s) && v !in s
    ensures Represents(Pushed(l, v), s + [v])
  {
    var r, u := s + [v], Pushed(l, v);
    forall i | 0 <= i < |r| ensures Linked(u, r, i) {
      if i < |s| {
        assert Linked(l, s, i) && s[i] in s;
        assert i < |s| - 1 ==> s[i] != s[|s| - 1];
      }
    }
  }
}
