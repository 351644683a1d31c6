/** Half-open intervals of live numbers (utils/range/range.cpp). */
module Ranges {

  datatype Range = Range(start: nat, end: nat) {
    predicate Contains(pt: nat) {
      start <= pt < end
    }
  }

  predicate IfIntersect(l: Range, r: Range) {
    !(l.end <= r.start) && !(r.end <= l.start)
  }

  /** The smallest interval that covers both. */
  function Union(l: Range, r: Range): (u: Range)
    ensures forall pt :: l.Contains(pt) || r.Contains(pt) ==> u.Contains(pt)
    ensures l.start <= l.end && r.start <= r.end ==> u.start <= u.end
    ensures forall v: Range :: v.start <= l.start && v.start <= r.start && l.end <= v.end && r.end <= v.end
              ==> v.start <= u.start && u.end <= v.end
  {
    Range(if l.start < r.start then l.start else r.start, if l.end > r.end then l.end else r.end)
  }

  /** Two ranges that share a point intersect, and non-empty ranges that intersect share one. */
  lemma IntersectIffCommonPoint(l: Range, r: Range)
    requires l.start < l.end && r.start < r.end
    ensures IfIntersect(l, r) <==> exists pt :: l.Contains(pt) && r.Contains(pt)
  {
    if IfIntersect(l, r) {
      var pt := if l.start < r.start then r.start else l.start;
      assert l.Contains(pt) && r.Contains(pt);
    }
  }
}
