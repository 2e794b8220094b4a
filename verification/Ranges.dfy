/** Half-open ranges of message sequence numbers, read as sets of numbers. */
module Ranges {

  datatype Range = Range(first: nat, end: nat) {
    predicate IsEmpty() { first >= end }

    function Count(): nat { if IsEmpty() then 0 else end - first }

    predicate Contains(n: nat) { first <= n < end }

    predicate Covers(other: Range) {
      other.IsEmpty() || (!IsEmpty() && other.first >= first && other.end <= end)
    }

    predicate Overlaps(other: Range) {
      !IsEmpty() && !other.IsEmpty() && first < other.end && other.first < end
    }

    predicate AdjacentTo(other: Range) {
      !IsEmpty() && !other.IsEmpty() && (end == other.first || other.end == first)
    }
  }

  /** The default-constructed range. */
  const EMPTY := Range(0, 0)

  /** The sequence numbers a range stands for. */
  ghost function Span(r: Range): set<nat> {
    set n: nat | r.first <= n < r.end && r.Contains(n)
  }

  predicate Touches(a: Range, b: Range) { a.Overlaps(b) || a.AdjacentTo(b) }

  /** The smallest range that holds both. */
  function Hull(a: Range, b: Range): Range {
    if a.IsEmpty() then b
    else if b.IsEmpty() then a
    else Range(if a.first < b.first then a.first else b.first,
               if a.end > b.end then a.end else b.end)
  }

  /** The union of two ranges that touch; the source asserts that they do. */
  function Merge(a: Range, b: Range): (m: Range)
    requires a.IsEmpty() || b.IsEmpty() || Touches(a, b)
    ensures m.Count() >= a.Count() && m.Count() >= b.Count()
  {
    Hull(a, b)
  }

  lemma MergeExact(a: Range, b: Range)
    requires a.IsEmpty() || b.IsEmpty() || Touches(a, b)
    ensures Span(Merge(a, b)) == Span(a) + Span(b)
  {}

  datatype Remainder = Remainder(before: Range, after: Range) {
    predicate IsEmpty() { before.IsEmpty() && after.IsEmpty() }

    function Count(): nat { before.Count() + after.Count() }

    /** How many non-empty ranges are left. */
    function Parts(): nat { (if before.IsEmpty() then 0 else 1) + (if after.IsEmpty() then 0 else 1) }
  }

  /** What removing `filled` from `hole` leaves: up to two ranges, below and above the part removed. */
  function Subtract(hole: Range, filled: Range): (left: Remainder)
    ensures left.Count() <= hole.Count()
  {
    if hole.IsEmpty() || filled.IsEmpty() || !hole.Overlaps(filled) then Remainder(hole, EMPTY)
    else
      Remainder(
        if filled.first > hole.first then Range(hole.first, filled.first) else EMPTY,
        if filled.end < hole.end then Range(filled.end, hole.end) else EMPTY)
  }

  lemma SubtractExact(hole: Range, filled: Range)
    ensures var left := Subtract(hole, filled);
            && Span(left.before) + Span(left.after) == Span(hole) - Span(filled)
            && Span(left.before) !! Span(left.after)
  {}

  lemma {:induction false} SpanSize(r: Range)
    ensures |Span(r)| == r.Count()
    decreases r.end
  {
    if r.IsEmpty() {
      assert Span(r) == {};
    } else {
      var shorter := Range(r.first, r.end - 1);
      SpanSize(shorter);
      assert Span(r) == Span(shorter) + {r.end - 1};
    }
  }

  /** The range predicates say about bounds what they claim about sets. */
  lemma PredicatesMeanSets(a: Range, b: Range)
    ensures a.Covers(b) <==> Span(b) <= Span(a)
    ensures a.Overlaps(b) <==> Span(a) * Span(b) != {}
    ensures a.IsEmpty() <==> Span(a) == {}
  {
    if !a.IsEmpty() { assert a.first in Span(a); }
    if !b.IsEmpty() {
      assert b.first in Span(b) && b.end - 1 in Span(b);
      if a.Overlaps(b) {
        var n := if a.first < b.first then b.first else a.first;
        assert n in Span(a) * Span(b);
      }
    }
  }

  /** Merging is asserted rather than attempted because it is right exactly when the ranges touch:
      no range at all denotes the union of two non-empty ranges that do not. */
  lemma MergeableExactlyWhenTouching(a: Range, b: Range)
    requires !a.IsEmpty() && !b.IsEmpty()
    ensures Touches(a, b) <==> exists m: Range :: Span(m) == Span(a) + Span(b)
  {
    if Touches(a, b) {
      MergeExact(a, b);
    } else {
      var lower, upper := if a.first < b.first then a else b, if a.first < b.first then b else a;
      ghost var union := Span(a) + Span(b);
      assert lower.end - 1 in union && upper.first in union && lower.end !in union;
      forall m: Range ensures Span(m) != union {
        assert lower.end - 1 in Span(m) && upper.first in Span(m) ==> lower.end in Span(m);
      }
    }
  }
}
