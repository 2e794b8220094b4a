/** The set of sequence numbers a channel is still missing, kept as a bounded array of ranges.

    The specification is a plain set of numbers. `Canonical` is the form the array never leaves, and
    `Runs` (how many maximal runs of consecutive numbers a set has) is the capacity measure, defined
    on sets and therefore independent of how the ranges are stored. */
module GapSets {
  import opened Errors
  import opened Ranges

  const MAX_OUTSTANDING_GAPS: nat := 16

  /** Whether `r` may follow `s` in canonical form: it is not empty and leaves a gap. */
  predicate Follows(s: seq<Range>, r: Range) {
    !r.IsEmpty() && (s != [] ==> s[|s| - 1].end < r.first)
  }

  /** Sorted, non-empty, non-overlapping and with no two ranges adjacent. */
  ghost predicate Canonical(s: seq<Range>) {
    s != [] ==> Canonical(s[..|s| - 1]) && Follows(s[..|s| - 1], s[|s| - 1])
  }

  /** The same, said of all pairs at once. */
  lemma {:induction false} CanonicalMeansSorted(s: seq<Range>)
    ensures Canonical(s) <==>
              && (forall i :: 0 <= i < |s| ==> !s[i].IsEmpty())
              && (forall i, j :: 0 <= i < j < |s| ==> s[i].end < s[j].first)
  {
    if s != [] {
      CanonicalMeansSorted(s[..|s| - 1]);
      if Canonical(s) {
        EndsBelowLast(s);
      }
    }
  }

  lemma {:induction false} EndsBelowLast(s: seq<Range>)
    requires Canonical(s) && s != []
    ensures forall r :: r in s ==> !r.IsEmpty() && r.end <= s[|s| - 1].end
    ensures forall r :: r in s ==> r == s[|s| - 1] || r.end < s[|s| - 1].first
  {
    var body := s[..|s| - 1];
    if body != [] {
      EndsBelowLast(body);
      assert forall r :: r in s ==> r in body || r == s[|s| - 1];
    }
  }

  /** The numbers a list of ranges denotes. */
  ghost function Den(s: seq<Range>): set<nat> {
    if s == [] then {} else Den(s[..|s| - 1]) + Span(s[|s| - 1])
  }

  ghost predicate BeginsRun(missing: set<nat>, n: nat) {
    n in missing && (n == 0 || n - 1 !in missing)
  }

  /** The numbers of a set that begin a maximal run of consecutive members. */
  ghost function Starts(missing: set<nat>): set<nat> {
    set n | n in missing && BeginsRun(missing, n)
  }

  ghost function Runs(missing: set<nat>): nat { |Starts(missing)| }

  lemma CanonicalAppend(s: seq<Range>, r: Range)
    requires Canonical(s) && Follows(s, r)
    ensures Canonical(s + [r])
    ensures Den(s + [r]) == Den(s) + Span(r)
  {
    assert (s + [r])[..|s|] == s;
  }

  lemma DenAppend(s: seq<Range>, r: Range)
    ensures Den(s + [r]) == Den(s) + Span(r)
  {
    assert (s + [r])[..|s|] == s;
  }

  lemma {:induction false} DenConcat(s: seq<Range>, t: seq<Range>)
    ensures Den(s + t) == Den(s) + Den(t)
  {
    if t == [] {
      assert s + t == s;
    } else {
      var body, last := t[..|t| - 1], t[|t| - 1];
      assert s + t == (s + body) + [last];
      DenAppend(s + body, last);
      DenConcat(s, body);
    }
  }

  lemma DenFirst(s: seq<Range>)
    requires s != []
    ensures Den(s) == Span(s[0]) + Den(s[1..])
  {
    assert s == [s[0]] + s[1..];
    DenConcat([s[0]], s[1..]);
    assert [s[0]][..0] == [];
  }

  lemma {:induction false} DenMember(s: seq<Range>, n: nat)
    ensures n in Den(s) <==> exists i :: 0 <= i < |s| && s[i].Contains(n)
  {
    if s != [] {
      var body := s[..|s| - 1];
      DenMember(body, n);
      if n in Den(body) {
        var i :| 0 <= i < |body| && body[i].Contains(n);
        assert s[i].Contains(n);
      }
      if i :| 0 <= i < |s| && s[i].Contains(n) && i < |s| - 1 {
        assert body[i].Contains(n);
      }
    }
  }

  lemma {:induction false} DenBounds(s: seq<Range>)
    requires Canonical(s) && s != []
    ensures forall n :: n in Den(s) ==> s[0].first <= n < s[|s| - 1].end
  {
    var body := s[..|s| - 1];
    if body != [] {
      DenBounds(body);
      FirstBelowLast(s);
    }
  }

  lemma FirstRun(s: seq<Range>)
    requires Canonical(s) && s != []
    ensures Span(s[0]) <= Den(s) && s[0].first in Den(s) && s[0].end !in Den(s)
  {
    CanonicalMeansSorted(s);
    DenFirst(s);
    assert s[0].first in Span(s[0]);
    if s[0].end in Den(s) {
      DenMember(s, s[0].end);
    }
  }

  lemma {:induction false} FirstBelowLast(s: seq<Range>)
    requires Canonical(s) && s != []
    ensures s[0].first <= s[|s| - 1].first
  {
    if |s| > 1 {
      FirstBelowLast(s[..|s| - 1]);
    }
  }

  /** A canonical list holds exactly one range per maximal run, so its length is forced by the set. */
  lemma {:induction false} CanonicalLength(s: seq<Range>)
    requires Canonical(s)
    ensures Runs(Den(s)) == |s|
  {
    if s == [] {
      assert Starts(Den(s)) == {};
    } else {
      var body, last := s[..|s| - 1], s[|s| - 1];
      CanonicalLength(body);
      if body != [] { DenBounds(body); }
      assert forall n :: n in Den(body) ==> n + 1 < last.first;
      RunAbove(Den(body), last);
    }
  }

  /** A range strictly above a set, with a gap between, adds one run. */
  lemma RunAbove(lower: set<nat>, last: Range)
    requires !last.IsEmpty() && forall n :: n in lower ==> n + 1 < last.first
    ensures Starts(lower + Span(last)) == Starts(lower) + {last.first}
    ensures last.first !in Starts(lower)
  {
    assert last.first in Span(last);
    forall n | n in Span(last) && n != last.first ensures n - 1 in Span(last) {}
  }

  lemma DenWithoutLast(s: seq<Range>)
    requires Canonical(s) && s != []
    ensures Canonical(s[..|s| - 1])
    ensures Den(s[..|s| - 1]) == Den(s) - Span(s[|s| - 1])
  {
    var body := s[..|s| - 1];
    if body != [] { DenBounds(body); }
    assert Den(body) !! Span(s[|s| - 1]);
  }

  lemma SameLast(s: seq<Range>, t: seq<Range>)
    requires Canonical(s) && Canonical(t) && Den(s) == Den(t) && s != [] && t != []
    ensures s[|s| - 1] == t[|t| - 1]
  {
    var a, b := s[|s| - 1], t[|t| - 1];
    assert a.end - 1 in Span(a) && b.end - 1 in Span(b);
    DenBounds(s);
    DenBounds(t);
    LastRunStart(s);
    LastRunStart(t);
  }

  /** Two canonical lists of the same set are the same list. */
  lemma {:induction false} CanonicalUnique(s: seq<Range>, t: seq<Range>)
    requires Canonical(s) && Canonical(t) && Den(s) == Den(t)
    ensures s == t
  {
    CanonicalLength(s);
    CanonicalLength(t);
    if s != [] {
      SameLast(s, t);
      DenWithoutLast(s);
      DenWithoutLast(t);
      CanonicalUnique(s[..|s| - 1], t[..|t| - 1]);
      assert s == s[..|s| - 1] + [s[|s| - 1]];
      assert t == t[..|t| - 1] + [t[|t| - 1]];
    }
  }

  /** Every finite set of numbers has a canonical list, and that list has one range per run. Together
      with uniqueness this makes `Runs` the number of ranges any faithful description needs. */
  lemma {:induction false} CanonicalExists(missing: set<nat>) returns (s: seq<Range>)
    ensures Canonical(s) && Den(s) == missing && |s| == Runs(missing)
    decreases |missing|
  {
    if missing == {} {
      s := [];
    } else {
      var top := Greatest(missing);
      var rest := CanonicalExists(missing - {top});
      if rest != [] {
        assert rest[|rest| - 1].end - 1 in Span(rest[|rest| - 1]);
        assert rest[|rest| - 1].end - 1 in missing - {top};
      }
      s := AddTop(rest, top);
      assert missing == (missing - {top}) + {top};
    }
    CanonicalLength(s);
  }

  /** A number above all others either extends the last range or starts a new one. */
  lemma AddTop(s: seq<Range>, top: nat) returns (t: seq<Range>)
    requires Canonical(s) && (s != [] ==> s[|s| - 1].end <= top)
    ensures Canonical(t) && Den(t) == Den(s) + {top}
  {
    if s == [] || s[|s| - 1].end < top {
      t := StartRun(s, top);
    } else {
      t := ExtendRun(s[..|s| - 1], s[|s| - 1]);
    }
  }

  lemma ExtendRun(body: seq<Range>, last: Range) returns (t: seq<Range>)
    requires Canonical(body) && Follows(body, last)
    ensures Canonical(t) && Den(t) == Den(body) + Span(last) + {last.end}
  {
    ExtendLast(body, last);
    t := body + [Range(last.first, last.end + 1)];
  }

  lemma StartRun(s: seq<Range>, top: nat) returns (t: seq<Range>)
    requires Canonical(s) && Follows(s, Range(top, top + 1))
    ensures Canonical(t) && Den(t) == Den(s) + {top}
  {
    CanonicalAppend(s, Range(top, top + 1));
    assert Span(Range(top, top + 1)) == {top};
    t := s + [Range(top, top + 1)];
  }

  lemma ExtendLast(body: seq<Range>, last: Range)
    requires Canonical(body) && Follows(body, last)
    ensures Canonical(body + [Range(last.first, last.end + 1)])
    ensures Den(body + [Range(last.first, last.end + 1)]) == Den(body) + Span(last) + {last.end}
  {
    var longer := Range(last.first, last.end + 1);
    CanonicalAppend(body, longer);
    assert Span(longer) == Span(last) + {last.end};
    UnionAssociates(Den(body), Span(last), {last.end});
  }

  lemma {:induction false} Greatest(missing: set<nat>) returns (top: nat)
    requires missing != {}
    ensures top in missing && forall n :: n in missing ==> n <= top
    decreases |missing|
  {
    top :| top in missing;
    if missing != {top} {
      assert missing - {top} != {};
      var rest := Greatest(missing - {top});
      assert forall n :: n in missing ==> n == top || n in missing - {top};
      if rest > top { top := rest; }
    }
  }

  lemma LastRunStart(s: seq<Range>)
    requires Canonical(s) && s != []
    ensures s[|s| - 1].first in Starts(Den(s))
    ensures forall n :: n in Starts(Den(s)) ==> n <= s[|s| - 1].first
  {
    var body, last := s[..|s| - 1], s[|s| - 1];
    if body != [] { DenBounds(body); }
    assert last.first in Span(last);
    forall n | n in Starts(Den(s)) ensures n <= last.first {
      DenBounds(s);
      assert n > last.first ==> n - 1 in Span(last);
      assert BeginsRun(Den(s), n);
    }
  }

  /** The sum of the range sizes, as the source computes it. */
  function Total(s: seq<Range>): nat {
    if s == [] then 0 else Total(s[..|s| - 1]) + s[|s| - 1].Count()
  }

  lemma {:induction false} TotalIsCardinality(s: seq<Range>)
    requires Canonical(s)
    ensures Total(s) == |Den(s)|
  {
    if s != [] {
      var body, last := s[..|s| - 1], s[|s| - 1];
      TotalIsCardinality(body);
      if body != [] { DenBounds(body); }
      SpanSize(last);
      assert Den(body) !! Span(last);
    }
  }

  /** `s` followed by `part`, unless `part` is empty. */
  function AddPart(s: seq<Range>, part: Range): seq<Range> {
    if part.IsEmpty() then s else s + [part]
  }

  /** Every range of `s` with `filled` taken out of it; a range cut in the middle becomes two. */
  function Pieces(s: seq<Range>, filled: Range): seq<Range> {
    if s == [] then []
    else
      var left := Subtract(s[|s| - 1], filled);
      AddPart(AddPart(Pieces(s[..|s| - 1], filled), left.before), left.after)
  }

  lemma AddPartExact(s: seq<Range>, part: Range)
    requires Canonical(s) && (part.IsEmpty() || Follows(s, part))
    ensures Canonical(AddPart(s, part))
    ensures Den(AddPart(s, part)) == Den(s) + Span(part)
  {
    if part.IsEmpty() {
      PredicatesMeanSets(part, part);
    } else {
      CanonicalAppend(s, part);
    }
  }

  lemma UnionAssociates(a: set<nat>, b: set<nat>, c: set<nat>)
    ensures a + b + c == a + (b + c)
  {}

  lemma IntersectionDistributes(a: set<nat>, b: set<nat>, c: set<nat>)
    ensures (a + b) * c == a * c + b * c
  {}

  lemma DifferenceDistributes(a: set<nat>, b: set<nat>, c: set<nat>)
    ensures (a + b) - c == (a - c) + (b - c)
  {}

  /** Cutting `filled` out of the range that follows `lower`. */
  lemma CutExact(lower: seq<Range>, last: Range, filled: Range, left: Remainder, middle: seq<Range>)
    requires Canonical(lower) && Follows(lower, last) && !filled.IsEmpty()
    requires left == Subtract(last, filled) && middle == AddPart(lower, left.before)
    ensures Canonical(AddPart(middle, left.after))
    ensures Den(AddPart(middle, left.after)) == Den(lower) + (Span(last) - Span(filled))
    ensures AddPart(middle, left.after) == lower || AddPart(middle, left.after)[|AddPart(middle, left.after)| - 1].end <= last.end
  {
    SubtractExact(last, filled);
    AddPartExact(lower, left.before);
    assert left.after.IsEmpty() || Follows(middle, left.after);
    AddPartExact(middle, left.after);
    UnionAssociates(Den(lower), Span(left.before), Span(left.after));
  }

  lemma {:induction false} PiecesExact(s: seq<Range>, filled: Range)
    requires Canonical(s) && !filled.IsEmpty()
    ensures Canonical(Pieces(s, filled))
    ensures Den(Pieces(s, filled)) == Den(s) - Span(filled)
    ensures Pieces(s, filled) != [] ==> s != [] && Pieces(s, filled)[|Pieces(s, filled)| - 1].end <= s[|s| - 1].end
  {
    if s != [] {
      var body, last := s[..|s| - 1], s[|s| - 1];
      PiecesExact(body, filled);
      var left := Subtract(last, filled);
      CutExact(Pieces(body, filled), last, filled, left, AddPart(Pieces(body, filled), left.before));
      DifferenceDistributes(Den(body), Span(last), Span(filled));
    }
  }

  lemma TotalAddPart(s: seq<Range>, part: Range)
    ensures Total(AddPart(s, part)) == Total(s) + part.Count()
  {
    assert (s + [part])[..|s|] == s;
  }

  lemma {:induction false} PiecesPrefix(s: seq<Range>, n: nat, filled: Range)
    requires n <= |s|
    ensures |Pieces(s[..n], filled)| <= |Pieces(s, filled)|
  {
    if n == |s| {
      assert s[..n] == s;
    } else {
      assert s[..|s| - 1][..n] == s[..n];
      PiecesPrefix(s[..|s| - 1], n, filled);
    }
  }

  /** One more range looked at. */
  lemma PiecesStep(s: seq<Range>, i: nat, filled: Range)
    requires i < |s|
    ensures var left := Subtract(s[i], filled);
            && Pieces(s[..i + 1], filled) == AddPart(AddPart(Pieces(s[..i], filled), left.before), left.after)
            && |Pieces(s[..i + 1], filled)| == |Pieces(s[..i], filled)| + left.Parts()
            && Total(s[..i + 1]) == Total(s[..i]) + s[i].Count()
            && Total(Pieces(s[..i + 1], filled)) == Total(Pieces(s[..i], filled)) + left.Count()
  {
    assert s[..i + 1][..i] == s[..i];
    var left := Subtract(s[i], filled);
    TotalAddPart(Pieces(s[..i], filled), left.before);
    TotalAddPart(AddPart(Pieces(s[..i], filled), left.before), left.after);
  }

  lemma NextPiecesFit(s: seq<Range>, i: nat, filled: Range, left: Remainder, room: nat)
    requires i < |s| && left == Subtract(s[i], filled) && |Pieces(s, filled)| <= room
    ensures var grown := AddPart(AddPart(Pieces(s[..i], filled), left.before), left.after);
            Pieces(s[..i + 1], filled) == grown && |grown| <= room
  {
    assert s[..i + 1][..i] == s[..i];
    PiecesPrefix(s, i + 1, filled);
  }

  /** The drop in the total is the number of missing numbers that arrived. */
  lemma FilledCount(s: seq<Range>, filled: Range)
    requires Canonical(s) && !filled.IsEmpty()
    ensures Total(s) - Total(Pieces(s, filled)) == |Den(s) * Span(filled)|
  {
    PiecesExact(s, filled);
    TotalIsCardinality(s);
    TotalIsCardinality(Pieces(s, filled));
    assert Den(s) == (Den(s) - Span(filled)) + Den(s) * Span(filled);
  }

  /** The parts of the ranges of `s` that `arrived` covers. */
  function Clip(s: seq<Range>, arrived: Range): seq<Range> {
    if s == [] then []
    else
      var body, hole := Clip(s[..|s| - 1], arrived), s[|s| - 1];
      if hole.Overlaps(arrived) then body + [ClipRange(hole, arrived)] else body
  }

  function ClipRange(hole: Range, arrived: Range): Range {
    Range(if hole.first > arrived.first then hole.first else arrived.first,
          if hole.end < arrived.end then hole.end else arrived.end)
  }

  lemma {:induction false} ClipExact(s: seq<Range>, arrived: Range) returns (clip: seq<Range>)
    requires Canonical(s)
    ensures clip == Clip(s, arrived)
    ensures Canonical(clip) && |clip| <= |s|
    ensures Den(clip) == Den(s) * Span(arrived)
    ensures clip != [] ==> s != [] && clip[|clip| - 1].end <= s[|s| - 1].end
  {
    clip := [];
    if s != [] {
      var body, hole := s[..|s| - 1], s[|s| - 1];
      clip := ClipExact(body, arrived);
      IntersectionDistributes(Den(body), Span(hole), Span(arrived));
      ClipRangeExact(hole, arrived);
      if hole.Overlaps(arrived) {
        var part := ClipRange(hole, arrived);
        CanonicalAppend(clip, part);
        clip := clip + [part];
      }
    }
  }

  lemma ClipRangeExact(hole: Range, arrived: Range)
    ensures hole.Overlaps(arrived) ==> Span(ClipRange(hole, arrived)) == Span(hole) * Span(arrived) && !ClipRange(hole, arrived).IsEmpty()
    ensures !hole.Overlaps(arrived) ==> Span(hole) * Span(arrived) == {}
  {
    PredicatesMeanSets(hole, arrived);
  }

  /** The members of a set at or above `floor`. */
  ghost function AtLeast(missing: set<nat>, floor: nat): set<nat> {
    set n | n in missing && n >= floor
  }

  /** The ranges of `s` cut off below `floor`. */
  function Trim(s: seq<Range>, floor: nat): seq<Range> {
    if s == [] then []
    else
      var body, last := Trim(s[..|s| - 1], floor), s[|s| - 1];
      if last.end <= floor then body
      else if last.first < floor then body + [Range(floor, last.end)]
      else body + [last]
  }

  lemma {:induction false} TrimExact(s: seq<Range>, floor: nat)
    requires Canonical(s)
    ensures Canonical(Trim(s, floor)) && |Trim(s, floor)| <= |s|
    ensures Den(Trim(s, floor)) == AtLeast(Den(s), floor)
    ensures Trim(s, floor) != [] ==> s != [] && Trim(s, floor)[|Trim(s, floor)| - 1].end <= s[|s| - 1].end
    ensures s != [] && s[|s| - 1].end <= floor ==> Trim(s, floor) == []
  {
    if s != [] {
      var body, last := s[..|s| - 1], s[|s| - 1];
      TrimExact(body, floor);
      AtLeastDistributes(Den(body), Span(last), floor);
      if last.end > floor {
        var part := if last.first < floor then Range(floor, last.end) else last;
        assert Span(part) == AtLeast(Span(last), floor);
        CanonicalAppend(Trim(body, floor), part);
      } else {
        assert AtLeast(Span(last), floor) == {};
      }
    }
  }

  lemma TrimStep(s: seq<Range>, i: nat, floor: nat)
    requires i < |s|
    ensures var part := if s[i].first < floor then Range(floor, s[i].end) else s[i];
            && Trim(s[..i + 1], floor) == (if s[i].end <= floor then Trim(s[..i], floor) else Trim(s[..i], floor) + [part])
            && Total(s[..i + 1]) == Total(s[..i]) + s[i].Count()
            && Total(Trim(s[..i], floor) + [part]) == Total(Trim(s[..i], floor)) + part.Count()
  {
    assert s[..i + 1][..i] == s[..i];
    var part := if s[i].first < floor then Range(floor, s[i].end) else s[i];
    assert (Trim(s[..i], floor) + [part])[..|Trim(s[..i], floor)|] == Trim(s[..i], floor);
  }

  lemma AtLeastDistributes(a: set<nat>, b: set<nat>, floor: nat)
    ensures AtLeast(a + b, floor) == AtLeast(a, floor) + AtLeast(b, floor)
  {}

  predicate Apart(a: Range, b: Range) { a.end < b.first || b.end < a.first }

  /** A new hole after it has absorbed every range of `s` it touches, and the ranges it left alone. */
  datatype Absorbed = Absorbed(kept: seq<Range>, merged: Range)

  function Absorb(s: seq<Range>, hole: Range): Absorbed {
    if s == [] then Absorbed([], hole)
    else
      var before, last := Absorb(s[..|s| - 1], hole), s[|s| - 1];
      if Touches(last, before.merged) then Absorbed(before.kept, Merge(before.merged, last))
      else Absorbed(before.kept + [last], before.merged)
  }

  /** What absorbing means: the kept ranges stay clear of the merged one and nothing is gained or lost. */
  ghost predicate AbsorbedFrom(s: seq<Range>, hole: Range, a: Absorbed) {
    && Canonical(a.kept)
    && !a.merged.IsEmpty()
    && (forall r :: r in a.kept ==> Apart(r, a.merged))
    && (a.kept != [] ==> s != [] && a.kept[|a.kept| - 1].end <= s[|s| - 1].end)
    && Den(a.kept) + Span(a.merged) == Den(s) + Span(hole)
  }

  lemma {:induction false} AbsorbExact(s: seq<Range>, hole: Range)
    requires Canonical(s) && !hole.IsEmpty()
    ensures AbsorbedFrom(s, hole, Absorb(s, hole))
  {
    if s != [] {
      var body, last := s[..|s| - 1], s[|s| - 1];
      AbsorbExact(body, hole);
      var a := Absorb(body, hole);
      if Touches(last, a.merged) {
        AbsorbTouching(body, hole, a, last);
      } else {
        AbsorbApart(body, hole, a, last);
      }
      assert s == body + [last];
    }
  }

  lemma {:induction false} AbsorbKeepsAll(s: seq<Range>, hole: Range)
    ensures |Absorb(s, hole).kept| <= |s|
    ensures |Absorb(s, hole).kept| == |s| ==> Absorb(s, hole) == Absorbed(s, hole)
  {
    if s != [] {
      AbsorbKeepsAll(s[..|s| - 1], hole);
      assert s == s[..|s| - 1] + [s[|s| - 1]];
    }
  }

  lemma AbsorbTouching(body: seq<Range>, hole: Range, a: Absorbed, last: Range)
    requires AbsorbedFrom(body, hole, a) && Follows(a.kept, last) && Touches(last, a.merged)
    ensures AbsorbedFrom(body + [last], hole, Absorbed(a.kept, Merge(a.merged, last)))
  {
    DenAppend(body, last);
    UnionShuffles(Den(a.kept), Span(a.merged), Span(last), Den(body), Span(hole));
    MergeStaysApart(a, last);
    MergeExact(a.merged, last);
  }

  lemma AbsorbApart(body: seq<Range>, hole: Range, a: Absorbed, last: Range)
    requires AbsorbedFrom(body, hole, a) && Follows(a.kept, last) && !Touches(last, a.merged)
    ensures AbsorbedFrom(body + [last], hole, Absorbed(a.kept + [last], a.merged))
  {
    DenAppend(body, last);
    UnionShuffles(Den(a.kept), Span(a.merged), Span(last), Den(body), Span(hole));
    CanonicalAppend(a.kept, last);
  }

  lemma MergeStaysApart(a: Absorbed, last: Range)
    requires Canonical(a.kept) && Follows(a.kept, last) && Touches(last, a.merged)
    requires forall r :: r in a.kept ==> Apart(r, a.merged)
    ensures forall r :: r in a.kept ==> Apart(r, Merge(a.merged, last))
  {
    if a.kept != [] {
      EndsBelowLast(a.kept);
    }
  }

  lemma UnionShuffles(a: set<nat>, b: set<nat>, c: set<nat>, d: set<nat>, e: set<nat>)
    requires a + b == d + e
    ensures a + (b + c) == d + c + e && a + c + b == d + c + e
  {
    assert a + (b + c) == (a + b) + c && a + c + b == (a + b) + c && d + c + e == (d + e) + c;
  }

  /** `value` put among `s` in order. */
  function Inserted(s: seq<Range>, value: Range): seq<Range> {
    if s == [] || s[|s| - 1].first < value.first then s + [value]
    else Inserted(s[..|s| - 1], value) + [s[|s| - 1]]
  }

  lemma {:induction false} InsertedExact(s: seq<Range>, value: Range)
    requires Canonical(s) && !value.IsEmpty()
    requires forall r :: r in s ==> Apart(r, value)
    ensures Canonical(Inserted(s, value)) && |Inserted(s, value)| == |s| + 1
    ensures Den(Inserted(s, value)) == Den(s) + Span(value)
    ensures Inserted(s, value)[|s|].end == if s != [] && s[|s| - 1].end > value.end then s[|s| - 1].end else value.end
  {
    if s != [] && s[|s| - 1].first >= value.first {
      var body, last := s[..|s| - 1], s[|s| - 1];
      assert last in s;
      InsertedExact(body, value);
      CanonicalAppend(Inserted(body, value), last);
      assert Den(body) + Span(value) + Span(last) == Den(body) + Span(last) + Span(value);
    } else {
      if s != [] { assert s[|s| - 1] in s; }
      CanonicalAppend(s, value);
    }
  }

  /** Inserting at the first place whose range does not start below the new one. */
  lemma {:induction false} InsertedAt(s: seq<Range>, value: Range, at: nat)
    requires Canonical(s) && at <= |s|
    requires forall i :: 0 <= i < at ==> s[i].first < value.first
    requires at < |s| ==> s[at].first >= value.first
    ensures Inserted(s, value) == s[..at] + [value] + s[at..]
  {
    if at == |s| {
      assert s[..at] == s;
    } else {
      var body, last := s[..|s| - 1], s[|s| - 1];
      StartsGrow(s, at);
      InsertedAt(body, value, at);
      assert s[..at] == body[..at] && s[at..] == body[at..] + [last];
    }
  }

  lemma {:induction false} StartsGrow(s: seq<Range>, at: nat)
    requires Canonical(s) && at < |s|
    ensures s[at].first <= s[|s| - 1].first
  {
    if at < |s| - 1 {
      StartsGrow(s[..|s| - 1], at);
    }
  }

  class GapSet {
    const ranges: array<Range>
    var count: nat

    ghost predicate Valid()
      reads this, ranges
    {
      && ranges.Length == MAX_OUTSTANDING_GAPS
      && count <= ranges.Length
      && Canonical(ranges[..count])
    }

    /** The abstract value: the numbers still missing. */
    ghost function Missing(): set<nat>
      reads this, ranges
      requires count <= ranges.Length
    {
      Den(ranges[..count])
    }

    constructor ()
      ensures Valid() && fresh(ranges)
      ensures Missing() == {}
    {
      ranges := new Range[MAX_OUTSTANDING_GAPS](_ => EMPTY);
      count := 0;
    }

    method Oldest() returns (oldest: Range)
      requires Valid() && Missing() != {}
      ensures Span(oldest) <= Missing() && oldest.first in Missing()
      ensures forall n :: n in Missing() ==> oldest.first <= n
      ensures oldest.end !in Missing()
    {
      ghost var s := ranges[..count];
      DenBounds(s);
      FirstRun(s);
      return ranges[0];
    }

    method TotalMissing() returns (total: nat)
      requires Valid()
      ensures total == |Missing()|
    {
      total := 0;
      for i := 0 to count
        invariant total == Total(ranges[..i])
      {
        assert ranges[..i + 1][..i] == ranges[..i];
        total := total + ranges[i].Count();
      }
      TotalIsCardinality(ranges[..count]);
    }

    /** The parts of `arrived` this set is still missing, as a canonical list. */
    method Intersect(arrived: Range) returns (out: seq<Range>)
      requires Valid()
      ensures Canonical(out) && |out| <= MAX_OUTSTANDING_GAPS
      ensures Den(out) == Missing() * Span(arrived)
    {
      out := [];
      ghost var clip := ClipExact(ranges[..count], arrived);
      if arrived.IsEmpty() {
        PredicatesMeanSets(arrived, arrived);
        return;
      }
      for i := 0 to count
        invariant out == Clip(ranges[..i], arrived)
      {
        var hole := ranges[i];
        assert ranges[..i + 1][..i] == ranges[..i];
        if hole.Overlaps(arrived) {
          out := out + [ClipRange(hole, arrived)];
        }
      }
    }

    /** Records a hole. Refused, with nothing changed, exactly when the answer needs more runs than
        there is room for. */
    method Open(hole: Range) returns (ok: bool)
      requires Valid()
      modifies this, ranges
      ensures Valid()
      ensures ok <==> Runs(old(Missing()) + Span(hole)) <= MAX_OUTSTANDING_GAPS
      ensures Missing() == if ok then old(Missing()) + Span(hole) else old(Missing())
    {
      ghost var before := ranges[..count];
      CanonicalLength(before);
      PredicatesMeanSets(hole, hole);
      if hole.IsEmpty() {
        assert Missing() + Span(hole) == Missing();
        return true;
      }
      AbsorbExact(before, hole);
      AbsorbKeepsAll(before, hole);

      var kept, merged := AbsorbInPlace(hole);

      InsertedExact(ranges[..kept], merged);
      CanonicalLength(Inserted(ranges[..kept], merged));
      count := kept;
      if kept >= MAX_OUTSTANDING_GAPS {
        return false;
      }
      InsertSorted(merged);
      return true;
    }

    /** Writes one surviving range behind the ones already kept. */
    method Keep(kept: nat, value: Range) returns (grown: nat)
      requires kept < ranges.Length
      modifies ranges
      ensures grown == kept + 1
      ensures ranges[..grown] == old(ranges[..kept]) + [value]
      ensures forall j :: grown <= j < ranges.Length ==> ranges[j] == old(ranges[j])
    {
      ranges[kept] := value;
      return kept + 1;
    }

    /** Moves the ranges a new hole does not touch to the front and merges the others into it. */
    method AbsorbInPlace(hole: Range) returns (kept: nat, merged: Range)
      requires Valid()
      modifies ranges
      ensures kept <= count
      ensures Absorbed(ranges[..kept], merged) == Absorb(old(ranges[..count]), hole)
    {
      ghost var before := ranges[..count];
      kept, merged := 0, hole;
      for i := 0 to count
        invariant kept <= i
        invariant Absorb(before[..i], hole) == Absorbed(ranges[..kept], merged)
        invariant forall j :: i <= j < count ==> ranges[j] == before[j]
      {
        var existing := ranges[i];
        assert before[..i + 1][..i] == before[..i];
        if existing.Overlaps(merged) || existing.AdjacentTo(merged) {
          merged := Merge(merged, existing);
        } else {
          kept := Keep(kept, existing);
        }
      }
      assert before[..count] == before;
    }

    method InsertSorted(value: Range)
      requires ranges.Length == MAX_OUTSTANDING_GAPS && count < MAX_OUTSTANDING_GAPS && Canonical(ranges[..count])
      modifies this, ranges
      ensures count == old(count) + 1
      ensures ranges[..count] == Inserted(old(ranges[..count]), value)
    {
      ghost var before := ranges[..count];
      var at := 0;
      while at < count && ranges[at].first < value.first
        invariant at <= count
        invariant forall i :: 0 <= i < at ==> before[i].first < value.first
      {
        at := at + 1;
      }
      InsertedAt(before, value, at);
      ShiftUp(at);
      ranges[at] := value;
      count := count + 1;
      assert forall i :: 0 <= i < count ==> ranges[i] == Inserted(before, value)[i];
    }

    /** Moves everything from `at` on one place up. */
    method ShiftUp(at: nat)
      requires at <= count < ranges.Length
      modifies ranges
      ensures forall j :: 0 <= j < at ==> ranges[j] == old(ranges[j])
      ensures forall j :: at < j <= count ==> ranges[j] == old(ranges[j - 1])
    {
      var i := count;
      while i > at
        modifies ranges
        invariant at <= i <= count
        invariant forall j :: 0 <= j < i ==> ranges[j] == old(ranges[j])
        invariant forall j :: i < j <= count ==> ranges[j] == old(ranges[j - 1])
      {
        ranges[i] := ranges[i - 1];
        i := i - 1;
      }
    }

    /** Records an arrival. The answer counts the missing numbers it removed; a fill that would split
        the set into too many runs is refused with nothing changed. */
    method Fill(arrived: Range) returns (removed: Result<nat>)
      requires Valid()
      modifies this, ranges
      ensures Valid()
      ensures removed.Ok? <==> Runs(old(Missing()) - Span(arrived)) <= MAX_OUTSTANDING_GAPS
      ensures removed.Ok? ==> removed.value == |old(Missing()) * Span(arrived)|
      ensures removed.Err? ==> removed.error == CapacityExceeded
      ensures Missing() == if removed.Ok? then old(Missing()) - Span(arrived) else old(Missing())
    {
      ghost var before := ranges[..count];
      CanonicalLength(before);
      if arrived.IsEmpty() || count == 0 {
        PredicatesMeanSets(arrived, arrived);
        assert Missing() - Span(arrived) == Missing() && Missing() * Span(arrived) == {};
        return Ok(0);
      }
      PiecesExact(before, arrived);
      CanonicalLength(Pieces(before, arrived));
      FilledCount(before, arrived);

      var total, needed := CountPieces(arrived);
      if needed > MAX_OUTSTANDING_GAPS {
        return Err(CapacityExceeded);
      }
      RewritePieces(arrived);
      return Ok(total);
    }

    /** First pass of a fill: how many numbers it removes and how many ranges it leaves. */
    method CountPieces(arrived: Range) returns (removed: nat, needed: nat)
      requires Valid()
      ensures needed == |Pieces(ranges[..count], arrived)|
      ensures removed == Total(ranges[..count]) - Total(Pieces(ranges[..count], arrived))
    {
      ghost var s := ranges[..count];
      removed, needed := 0, 0;
      for i := 0 to count
        invariant needed == |Pieces(s[..i], arrived)|
        invariant removed == Total(s[..i]) - Total(Pieces(s[..i], arrived))
      {
        var left := Subtract(ranges[i], arrived);
        PiecesStep(s, i, arrived);
        removed := removed + (ranges[i].Count() - left.Count());
        needed := needed + left.Parts();
      }
      assert s[..count] == s;
    }

    /** Second pass: the ranges themselves, built beside the old ones and then copied over them. */
    method RewritePieces(arrived: Range)
      requires Valid() && |Pieces(ranges[..count], arrived)| <= MAX_OUTSTANDING_GAPS
      modifies this, ranges
      ensures count <= ranges.Length
      ensures ranges[..count] == old(Pieces(ranges[..count], arrived))
    {
      var next := new Range[MAX_OUTSTANDING_GAPS](_ => EMPTY);
      var kept := BuildPieces(next, arrived);
      CopyFrom(next, kept);
    }

    method BuildPieces(next: array<Range>, arrived: Range) returns (kept: nat)
      requires count <= ranges.Length && next != ranges && |Pieces(ranges[..count], arrived)| <= next.Length
      modifies next
      ensures kept <= next.Length && next[..kept] == Pieces(ranges[..count], arrived)
    {
      ghost var s := ranges[..count];
      kept := 0;
      for i := 0 to count
        invariant kept <= next.Length && next[..kept] == Pieces(s[..i], arrived)
      {
        var left := Subtract(ranges[i], arrived);
        NextPiecesFit(s, i, arrived, left, next.Length);
        kept := PutParts(next, kept, left);
      }
      assert s[..count] == s;
    }

    method CopyFrom(next: array<Range>, kept: nat)
      requires next != ranges && kept <= next.Length == ranges.Length
      modifies this, ranges
      ensures count == kept && ranges[..count] == old(next[..kept])
    {
      for i := 0 to kept
        modifies ranges
        invariant ranges[..i] == next[..i]
      {
        ranges[i] := next[i];
      }
      count := kept;
    }

    static method PutParts(next: array<Range>, kept: nat, left: Remainder) returns (grown: nat)
      requires kept <= next.Length && |AddPart(AddPart(next[..kept], left.before), left.after)| <= next.Length
      modifies next
      ensures kept <= grown <= next.Length
      ensures next[..grown] == AddPart(AddPart(old(next[..kept]), left.before), left.after)
    {
      grown := Put(next, kept, left.before);
      grown := Put(next, grown, left.after);
    }

    static method Put(next: array<Range>, kept: nat, part: Range) returns (grown: nat)
      requires kept <= next.Length && |AddPart(next[..kept], part)| <= next.Length
      modifies next
      ensures kept <= grown <= next.Length
      ensures next[..grown] == AddPart(old(next[..kept]), part)
    {
      if part.IsEmpty() { return kept; }
      next[kept] := part;
      return kept + 1;
    }

    /** Forgets everything below `floor` and says how many numbers that abandoned. */
    method DiscardBelow(floor: nat) returns (abandoned: nat)
      requires Valid()
      modifies this, ranges
      ensures Valid()
      ensures Missing() == AtLeast(old(Missing()), floor)
      ensures abandoned == |old(Missing())| - |Missing()|
    {
      ghost var before := ranges[..count];
      TrimExact(before, floor);
      TotalIsCardinality(before);
      TotalIsCardinality(Trim(before, floor));
      var kept;
      abandoned, kept := TrimInPlace(floor);
      count := kept;
    }

    method TrimInPlace(floor: nat) returns (abandoned: nat, kept: nat)
      requires Valid()
      modifies ranges
      ensures kept <= count
      ensures ranges[..kept] == Trim(old(ranges[..count]), floor)
      ensures abandoned == Total(old(ranges[..count])) - Total(ranges[..kept])
    {
      ghost var before := ranges[..count];
      abandoned, kept := 0, 0;
      for i := 0 to count
        invariant kept <= i
        invariant ranges[..kept] == Trim(before[..i], floor)
        invariant abandoned == Total(before[..i]) - Total(Trim(before[..i], floor))
        invariant forall j :: i <= j < count ==> ranges[j] == before[j]
      {
        var hole := ranges[i];
        TrimStep(before, i, floor);
        if hole.end <= floor {
          abandoned := abandoned + hole.Count();
          continue;
        }
        if hole.first < floor {
          abandoned := abandoned + (floor - hole.first);
          hole := Range(floor, hole.end);
        }
        kept := Keep(kept, hole);
      }
      assert before[..count] == before;
    }

    method Clear()
      modifies this`count
      ensures count == 0
      ensures Missing() == {}
    {
      count := 0;
    }
  }
}
