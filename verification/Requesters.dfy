/** The list of ranges still to be requested from the venue, with when and how often each was requested.

    `Cover` reads the entry list as the set of numbers still being asked for. Every operation is
    specified by what it does to that set, and `Sound` is the shape every reachable list has. */
module Requesters {
  import opened Errors
  import opened Ranges
  import opened GapSets
  import opened RetransmitPolicies

  datatype Entry = Entry(range: Range, discovered: int, nextAttempt: int, attempts: nat)

  datatype Decision =
    | Idle
    | Send(range: Range, attempt: nat)
    | Abandon(range: Range, reason: Error)

  ghost function Cover(es: seq<Entry>): set<nat> {
    if es == [] then {} else Cover(es[..|es| - 1]) + Span(es[|es| - 1].range)
  }

  predicate FitsRequest(p: Policy, r: Range) { !r.IsEmpty() && r.Count() <= p.maxMessages }

  predicate FitsEntry(p: Policy, e: Entry) { FitsRequest(p, e.range) && e.attempts <= p.maxAttempts }

  /** Every entry is non-empty, narrow enough for one wire request and within the attempt limit, and no
      number is covered twice. */
  ghost predicate Shaped(p: Policy, es: seq<Entry>) {
    es != [] ==>
      var body, last := es[..|es| - 1], es[|es| - 1];
      Shaped(p, body) && FitsEntry(p, last) && Cover(body) !! Span(last.range)
  }

  /** The shape every reachable list has. */
  ghost predicate Sound(p: Policy, es: seq<Entry>) {
    |es| <= MAX_OUTSTANDING_GAPS && Shaped(p, es)
  }

  lemma {:induction false} ShapedAt(p: Policy, es: seq<Entry>, i: nat)
    requires Shaped(p, es) && i < |es|
    ensures FitsEntry(p, es[i])
  {
    if i < |es| - 1 {
      ShapedAt(p, es[..|es| - 1], i);
    }
  }

  lemma {:induction false} EntriesDisjoint(p: Policy, es: seq<Entry>, i: nat, j: nat)
    requires Shaped(p, es) && i < j < |es|
    ensures !es[i].range.Overlaps(es[j].range)
  {
    if j < |es| - 1 {
      EntriesDisjoint(p, es[..|es| - 1], i, j);
    } else {
      CoverMember(es[..|es| - 1], i);
      PredicatesMeanSets(es[i].range, es[j].range);
    }
  }

  /** An entry may grow by numbers nothing covers yet. */
  lemma {:induction false} ShapedUpdate(p: Policy, es: seq<Entry>, i: nat, e: Entry)
    requires Shaped(p, es) && i < |es| && FitsEntry(p, e)
    requires Span(es[i].range) <= Span(e.range) && Span(e.range) - Span(es[i].range) !! Cover(es)
    ensures Shaped(p, es[i := e])
  {
    var body, last := es[..|es| - 1], es[|es| - 1];
    if i == |es| - 1 {
      assert es[i := e][..|es| - 1] == body;
    } else {
      CoverMember(body, i);
      CoverUpdate(body, i, e);
      ShapedUpdate(p, body, i, e);
      assert es[i := e][..|es| - 1] == body[i := e];
    }
  }

  lemma CoverAppend(es: seq<Entry>, e: Entry)
    ensures Cover(es + [e]) == Cover(es) + Span(e.range)
  {
    assert (es + [e])[..|es|] == es;
  }

  lemma {:induction false} CoverMember(es: seq<Entry>, i: nat)
    requires i < |es|
    ensures Span(es[i].range) <= Cover(es)
  {
    if i < |es| - 1 {
      CoverMember(es[..|es| - 1], i);
    }
  }

  lemma {:induction false} CoverWitness(es: seq<Entry>, n: nat) returns (i: nat)
    requires n in Cover(es)
    ensures i < |es| && n in Span(es[i].range)
  {
    if n in Span(es[|es| - 1].range) {
      i := |es| - 1;
    } else {
      i := CoverWitness(es[..|es| - 1], n);
    }
  }

  lemma {:induction false} CoverUpdate(es: seq<Entry>, i: nat, e: Entry)
    requires i < |es| && Span(es[i].range) <= Span(e.range)
    ensures Cover(es[i := e]) == Cover(es) + Span(e.range)
  {
    var body := es[..|es| - 1];
    if i == |es| - 1 {
      assert es[i := e][..|es| - 1] == body;
    } else {
      CoverUpdate(body, i, e);
      assert es[i := e][..|es| - 1] == body[i := e];
    }
  }

  // ---- registering a hole -----------------------------------------------------

  predicate Joinable(p: Policy, e: Entry, chunk: Range) {
    Touches(e.range, chunk) && Merge(e.range, chunk).Count() <= p.maxMessages
  }

  /** The first entry that can absorb a chunk, if there is one. */
  function FirstJoinable(p: Policy, es: seq<Entry>, chunk: Range): (at: nat)
    ensures at <= |es|
    ensures at < |es| ==> Joinable(p, es[at], chunk)
  {
    if es == [] || Joinable(p, es[0], chunk) then 0 else 1 + FirstJoinable(p, es[1..], chunk)
  }

  function Earlier(a: int, b: int): int { if a > b then b else a }

  /** Both the merged entry and a new one start from no attempts; a merge keeps the earlier discovery. */
  function Joined(p: Policy, e: Entry, chunk: Range, now: int): Entry
    requires Joinable(p, e, chunk)
  {
    Entry(Merge(e.range, chunk), Earlier(e.discovered, now), now + p.settleDelay, 0)
  }

  function Admitted(p: Policy, es: seq<Entry>, chunk: Range, now: int): Option<seq<Entry>> {
    var at := FirstJoinable(p, es, chunk);
    if at < |es| then Some(es[at := Joined(p, es[at], chunk, now)])
    else if |es| >= MAX_OUTSTANDING_GAPS then None
    else Some(es + [Entry(chunk, now, now + p.settleDelay, 0)])
  }

  function NextChunk(p: Policy, hole: Range): Range
    requires !hole.IsEmpty()
  {
    Range(hole.first, if hole.Count() < p.maxMessages then hole.end else hole.first + p.maxMessages)
  }

  datatype Registered = Registered(entries: seq<Entry>, complete: bool)

  /** A hole is cut into request-sized chunks, admitted from the bottom until one is refused. */
  function AfterGap(p: Policy, es: seq<Entry>, hole: Range, now: int): Registered
    requires Valid(p)
    decreases hole.Count()
  {
    if hole.IsEmpty() then Registered(es, true)
    else
      var chunk := NextChunk(p, hole);
      match Admitted(p, es, chunk, now)
      case None => Registered(es, false)
      case Some(grown) => AfterGap(p, grown, Range(chunk.end, hole.end), now)
  }

  ghost predicate Below(covered: set<nat>, bound: nat) { forall n :: n in covered ==> n < bound }

  lemma AdmittedCovers(p: Policy, es: seq<Entry>, chunk: Range, now: int)
    requires Admitted(p, es, chunk, now).Some?
    ensures Cover(Admitted(p, es, chunk, now).value) == Cover(es) + Span(chunk)
  {
    var at := FirstJoinable(p, es, chunk);
    if at < |es| {
      MergeExact(es[at].range, chunk);
      CoverMember(es, at);
      CoverUpdate(es, at, Joined(p, es[at], chunk, now));
    } else {
      CoverAppend(es, Entry(chunk, now, now + p.settleDelay, 0));
    }
  }

  lemma AdmittedSound(p: Policy, es: seq<Entry>, chunk: Range, now: int)
    requires Valid(p) && Sound(p, es) && FitsRequest(p, chunk) && Cover(es) !! Span(chunk)
    requires Admitted(p, es, chunk, now).Some?
    ensures Sound(p, Admitted(p, es, chunk, now).value)
  {
    var at := FirstJoinable(p, es, chunk);
    if at < |es| {
      JoinKeepsSound(p, es, at, chunk, now);
    } else {
      var e := Entry(chunk, now, now + p.settleDelay, 0);
      assert (es + [e])[..|es|] == es;
    }
  }

  lemma JoinKeepsSound(p: Policy, es: seq<Entry>, at: nat, chunk: Range, now: int)
    requires Valid(p) && Sound(p, es) && FitsRequest(p, chunk) && at < |es| && Joinable(p, es[at], chunk)
    requires Cover(es) !! Span(chunk)
    ensures Sound(p, es[at := Joined(p, es[at], chunk, now)])
  {
    MergeExact(es[at].range, chunk);
    CoverMember(es, at);
    ShapedUpdate(p, es, at, Joined(p, es[at], chunk, now));
  }

  lemma ChunkFacts(p: Policy, hole: Range)
    requires Valid(p) && !hole.IsEmpty()
    ensures FitsRequest(p, NextChunk(p, hole)) && NextChunk(p, hole).end <= hole.end
    ensures Span(hole) == Span(NextChunk(p, hole)) + Span(Range(NextChunk(p, hole).end, hole.end))
  {}

  /** Any hole, whatever is already asked for, is covered exactly; a refusal covers part of it and takes
      nothing away. */
  lemma {:induction false} GapIsCovered(p: Policy, es: seq<Entry>, hole: Range, now: int)
    requires Valid(p)
    ensures AfterGap(p, es, hole, now).complete ==> Cover(AfterGap(p, es, hole, now).entries) == Cover(es) + Span(hole)
    ensures Cover(es) <= Cover(AfterGap(p, es, hole, now).entries) <= Cover(es) + Span(hole)
    decreases hole.Count()
  {
    if hole.IsEmpty() {
      PredicatesMeanSets(hole, hole);
    } else {
      ChunkFacts(p, hole);
      var chunk := NextChunk(p, hole);
      var rest := Range(chunk.end, hole.end);
      var admitted := Admitted(p, es, chunk, now);
      if admitted.Some? {
        AdmittedCovers(p, es, chunk, now);
        GapIsCovered(p, admitted.value, rest, now);
        UnionAssociates(Cover(es), Span(chunk), Span(rest));
      }
    }
  }

  /** A hole of which nothing is asked for yet keeps the entries disjoint, non-empty and one request wide. */
  lemma {:induction false} GapKeepsSound(p: Policy, es: seq<Entry>, hole: Range, now: int)
    requires Valid(p) && Sound(p, es) && Cover(es) !! Span(hole)
    ensures Sound(p, AfterGap(p, es, hole, now).entries)
    decreases hole.Count()
  {
    if !hole.IsEmpty() {
      ChunkFacts(p, hole);
      var chunk := NextChunk(p, hole);
      var rest := Range(chunk.end, hole.end);
      var admitted := Admitted(p, es, chunk, now);
      if admitted.Some? {
        AdmittedCovers(p, es, chunk, now);
        AdmittedSound(p, es, chunk, now);
        assert Span(chunk) !! Span(rest);
        GapKeepsSound(p, admitted.value, rest, now);
      }
    }
  }

  /** There is room for a hole of as many messages as there are free entries, however it is chunked. */
  lemma {:induction false} SmallGapFits(p: Policy, es: seq<Entry>, hole: Range, now: int)
    requires Valid(p) && |es| + hole.Count() <= MAX_OUTSTANDING_GAPS
    ensures AfterGap(p, es, hole, now).complete
    decreases hole.Count()
  {
    if !hole.IsEmpty() {
      var chunk := NextChunk(p, hole);
      SmallGapFits(p, Admitted(p, es, chunk, now).value, Range(chunk.end, hole.end), now);
    }
  }

  // ---- removing what arrived --------------------------------------------------

  function AddEntry(es: seq<Entry>, e: Entry, part: Range): seq<Entry> {
    if part.IsEmpty() then es else es + [e.(range := part)]
  }

  /** Every entry with `filled` taken out; both halves of a split keep the attempt state. */
  function Cut(es: seq<Entry>, filled: Range): seq<Entry> {
    if es == [] then []
    else
      var e := es[|es| - 1];
      var left := Subtract(e.range, filled);
      AddEntry(AddEntry(Cut(es[..|es| - 1], filled), e, left.before), e, left.after)
  }

  datatype Filled = Filled(entries: seq<Entry>, accepted: bool)

  function AfterFill(es: seq<Entry>, arrived: Range): Filled {
    if arrived.IsEmpty() || es == [] then Filled(es, true)
    else if |Cut(es, arrived)| > MAX_OUTSTANDING_GAPS then Filled(es, false)
    else Filled(Cut(es, arrived), true)
  }

  lemma AddEntryExact(p: Policy, es: seq<Entry>, e: Entry, part: Range)
    requires Shaped(p, es) && e.attempts <= p.maxAttempts && part.Count() <= p.maxMessages
    requires Cover(es) !! Span(part)
    ensures Shaped(p, AddEntry(es, e, part))
    ensures Cover(AddEntry(es, e, part)) == Cover(es) + Span(part)
  {
    if part.IsEmpty() {
      PredicatesMeanSets(part, part);
    } else {
      var after := es + [e.(range := part)];
      CoverAppend(es, e.(range := part));
      assert after[..|es|] == es;
    }
  }

  lemma {:induction false} CutExact(p: Policy, es: seq<Entry>, filled: Range)
    requires Valid(p) && Shaped(p, es)
    ensures Shaped(p, Cut(es, filled))
    ensures Cover(Cut(es, filled)) == Cover(es) - Span(filled)
  {
    if es != [] {
      var body, last := es[..|es| - 1], es[|es| - 1];
      CutExact(p, body, filled);
      CutLast(p, Cut(body, filled), last, filled);
      DifferenceDistributes(Cover(body), Span(last.range), Span(filled));
    }
  }

  lemma CutLast(p: Policy, lower: seq<Entry>, last: Entry, filled: Range)
    requires Shaped(p, lower) && FitsEntry(p, last)
    requires Cover(lower) !! Span(last.range)
    ensures var left := Subtract(last.range, filled);
            var out := AddEntry(AddEntry(lower, last, left.before), last, left.after);
            Shaped(p, out) && Cover(out) == Cover(lower) + (Span(last.range) - Span(filled))
  {
    var left := Subtract(last.range, filled);
    SubtractExact(last.range, filled);
    assert Span(left.before) <= Span(last.range) && Span(left.after) <= Span(last.range);
    AddEntryExact(p, lower, last, left.before);
    var middle := AddEntry(lower, last, left.before);
    AddEntryExact(p, middle, last, left.after);
    UnionAssociates(Cover(lower), Span(left.before), Span(left.after));
  }

  /** What arrives stops being asked for, exactly; a refusal changes nothing. */
  lemma FillIsExact(p: Policy, es: seq<Entry>, arrived: Range)
    requires Valid(p) && Sound(p, es)
    ensures Sound(p, AfterFill(es, arrived).entries)
    ensures Cover(AfterFill(es, arrived).entries) == if AfterFill(es, arrived).accepted then Cover(es) - Span(arrived) else Cover(es)
  {
    CutExact(p, es, arrived);
    PredicatesMeanSets(arrived, arrived);
  }

  /** Entries cover something, so nothing covered means no entries. */
  lemma NothingCovered(p: Policy, es: seq<Entry>)
    requires Shaped(p, es)
    ensures Cover(es) == {} <==> es == []
  {
    if es != [] {
      CoverMember(es, 0);
      ShapedAt(p, es, 0);
      PredicatesMeanSets(es[0].range, es[0].range);
    }
  }

  /** Clearing every entry always has room. */
  lemma FillClears(p: Policy, es: seq<Entry>, arrived: Range)
    requires Valid(p) && Sound(p, es) && Cover(es) <= Span(arrived)
    ensures AfterFill(es, arrived) == Filled([], true)
  {
    CutExact(p, es, arrived);
    NothingCovered(p, Cut(es, arrived));
    NothingCovered(p, es);
    PredicatesMeanSets(arrived, arrived);
  }

  /** No entry reaches past a range on both sides. */
  ghost predicate NoneAround(es: seq<Entry>, range: Range) {
    es != [] ==>
      var e := es[|es| - 1].range;
      NoneAround(es[..|es| - 1], range) && !(e.first < range.first && range.end < e.end)
  }

  lemma {:induction false} NoneAroundAll(es: seq<Entry>, range: Range)
    requires forall i :: 0 <= i < |es| ==> !(es[i].range.first < range.first && range.end < es[i].range.end)
    ensures NoneAround(es, range)
  {
    if es != [] {
      NoneAroundAll(es[..|es| - 1], range);
    }
  }

  /** An entry reaching past a range on both sides covers the number just below it. */
  lemma NoneAroundUncovered(es: seq<Entry>, range: Range)
    requires range.first > 0 && !range.IsEmpty() && range.first - 1 !in Cover(es)
    ensures NoneAround(es, range)
  {
    forall i | 0 <= i < |es| ensures !(es[i].range.first < range.first && range.end < es[i].range.end) {
      CoverMember(es, i);
      ReachesBelow(es[i].range, range);
    }
    NoneAroundAll(es, range);
  }

  lemma ReachesBelow(e: Range, range: Range)
    requires range.first > 0 && !range.IsEmpty()
    ensures e.first < range.first && range.end < e.end ==> range.first - 1 in Span(e)
  {}

  /** Nor does any entry reach past a range that begins no later than an entry and holds its first number. */
  lemma NoneAroundEntry(p: Policy, es: seq<Entry>, at: nat, range: Range)
    requires Shaped(p, es) && at < |es| && range.Contains(es[at].range.first)
    ensures NoneAround(es, range)
  {
    forall i | 0 <= i < |es| ensures !(es[i].range.first < range.first && range.end < es[i].range.end) {
      ShapedAt(p, es, at);
      if i < at {
        EntriesDisjoint(p, es, i, at);
      } else if at < i {
        EntriesDisjoint(p, es, at, i);
      }
    }
    NoneAroundAll(es, range);
  }

  /** Only an entry that reaches past the range on both sides is cut in two. */
  lemma {:induction false} CutNoLonger(es: seq<Entry>, filled: Range)
    requires NoneAround(es, filled)
    ensures |Cut(es, filled)| <= |es|
  {
    if es != [] {
      CutNoLonger(es[..|es| - 1], filled);
    }
  }

  /** How many entries are not part of a range. */
  function Others(es: seq<Entry>, asked: Range): nat {
    if es == [] then 0 else Others(es[..|es| - 1], asked) + if asked.Covers(es[|es| - 1].range) then 0 else 1
  }

  /** Cutting makes no more of them, unless an entry reaches past what arrived on both sides. */
  lemma {:induction false} CutKeepsOthers(es: seq<Entry>, filled: Range, asked: Range)
    requires NoneAround(es, filled)
    ensures Others(Cut(es, filled), asked) <= Others(es, asked)
  {
    if es != [] {
      var front, e := es[..|es| - 1], es[|es| - 1];
      CutKeepsOthers(front, filled, asked);
      OneSideLeft(e.range, filled, asked);
      var left := Subtract(e.range, filled);
      OthersAdd(Cut(front, filled), e, left.before, asked);
      OthersAdd(AddEntry(Cut(front, filled), e, left.before), e, left.after, asked);
    }
  }

  /** What a range counts for. */
  function Apart(part: Range, asked: Range): nat { if part.IsEmpty() || asked.Covers(part) then 0 else 1 }

  lemma OneSideLeft(e: Range, filled: Range, asked: Range)
    requires !(e.first < filled.first && filled.end < e.end)
    ensures var left := Subtract(e, filled);
            Apart(left.before, asked) + Apart(left.after, asked) <= if asked.Covers(e) then 0 else 1
  {}

  lemma OthersAdd(es: seq<Entry>, e: Entry, part: Range, asked: Range)
    ensures Others(AddEntry(es, e, part), asked) == Others(es, asked) + Apart(part, asked)
  {
    if !part.IsEmpty() {
      var more := es + [e.(range := part)];
      assert more[..|es|] == es;
    }
  }

  lemma {:induction false} OthersBound(es: seq<Entry>, asked: Range)
    ensures Others(es, asked) <= |es|
    ensures (exists i :: 0 <= i < |es| && asked.Covers(es[i].range)) ==> Others(es, asked) < |es|
    ensures (forall i :: 0 <= i < |es| ==> !asked.Covers(es[i].range)) ==> Others(es, asked) == |es|
  {
    if es != [] {
      var front := es[..|es| - 1];
      OthersBound(front, asked);
      if i :| 0 <= i < |es| && asked.Covers(es[i].range) {
        assert i < |es| - 1 ==> asked.Covers(front[i].range);
      }
    }
  }

  /** As many ranges cover at most as many runs. */
  lemma {:induction false} RunsOfCover(es: seq<Entry>)
    ensures Runs(Cover(es)) <= |es|
  {
    if es == [] {
      assert Starts({}) == {};
    } else {
      var body, last := es[..|es| - 1], es[|es| - 1].range;
      RunsOfCover(body);
      assert Starts(Cover(es)) <= Starts(Cover(body)) + {last.first};
      SubsetSize(Starts(Cover(es)), Starts(Cover(body)) + {last.first});
    }
  }

  lemma SubsetSize(a: set<nat>, b: set<nat>)
    requires a <= b
    ensures |a| <= |b|
  {
    assert b == a + (b - a);
  }

  /** Dropping everything below a number never needs more room. */
  lemma {:induction false} PrefixCutFits(es: seq<Entry>, bound: nat)
    ensures |Cut(es, Range(0, bound))| <= |es|
  {
    if es != [] {
      PrefixCutFits(es[..|es| - 1], bound);
    }
  }

  // ---- deciding ---------------------------------------------------------------

  function GiveUpReason(p: Policy, e: Entry, now: int): Option<Error> {
    if now - e.discovered >= p.retentionWindow then Some(RetransmitWindowExceeded)
    else if e.attempts >= p.maxAttempts && now >= e.nextAttempt then Some(RetransmitTimedOut)
    else None
  }

  datatype Question = Hopeless | Due

  predicate Eligible(p: Policy, e: Entry, now: int, which: Question) {
    match which
    case Hopeless => GiveUpReason(p, e, now).Some?
    case Due => e.attempts < p.maxAttempts && now >= e.nextAttempt
  }

  /** The oldest eligible entry, the first of equals; `|es|` when none is eligible. */
  ghost predicate IsOldest(p: Policy, es: seq<Entry>, now: int, which: Question, at: nat) {
    && at <= |es|
    && (at == |es| ==> forall j :: 0 <= j < |es| ==> !Eligible(p, es[j], now, which))
    && (at < |es| ==>
          && Eligible(p, es[at], now, which)
          && (forall j :: 0 <= j < |es| && Eligible(p, es[j], now, which) ==> es[at].discovered <= es[j].discovered)
          && (forall j :: 0 <= j < at && Eligible(p, es[j], now, which) ==> es[at].discovered < es[j].discovered))
  }

  function Oldest(p: Policy, es: seq<Entry>, now: int, which: Question): (at: nat)
    ensures IsOldest(p, es, now, which, at)
  {
    if es == [] then 0
    else
      var n := |es| - 1;
      var before := Oldest(p, es[..n], now, which);
      if !Eligible(p, es[n], now, which) then (if before == n then n + 1 else before)
      else if before == n || es[n].discovered < es[before].discovered then n
      else before
  }

  lemma OldestUnique(p: Policy, es: seq<Entry>, now: int, which: Question, a: nat, b: nat)
    requires IsOldest(p, es, now, which, a) && IsOldest(p, es, now, which, b)
    ensures a == b
  {}

  /** The numbers whose request is not due. */
  ghost function NotDue(p: Policy, es: seq<Entry>, now: int): set<nat> {
    if es == [] then {}
    else
      var last := es[|es| - 1];
      NotDue(p, es[..|es| - 1], now) + if Eligible(p, last, now, Due) then {} else Span(last.range)
  }

  lemma {:induction false} NotDueWithin(p: Policy, es: seq<Entry>, now: int)
    ensures NotDue(p, es, now) <= Cover(es)
    ensures (forall i :: 0 <= i < |es| ==> !Eligible(p, es[i], now, Due)) ==> NotDue(p, es, now) == Cover(es)
    ensures (forall i :: 0 <= i < |es| ==> Eligible(p, es[i], now, Due)) ==> NotDue(p, es, now) == {}
  {
    if es != [] {
      NotDueWithin(p, es[..|es| - 1], now);
    }
  }

  lemma NotDueAdd(p: Policy, es: seq<Entry>, e: Entry, part: Range, now: int)
    ensures NotDue(p, AddEntry(es, e, part), now) ==
            NotDue(p, es, now) + if part.IsEmpty() || Eligible(p, e, now, Due) then {} else Span(part)
  {
    if !part.IsEmpty() {
      assert (es + [e.(range := part)])[..|es|] == es;
    }
  }

  /** Cutting what arrived out of the entries makes none of them less due. */
  lemma {:induction false} CutKeepsNotDue(p: Policy, es: seq<Entry>, filled: Range, now: int)
    ensures NotDue(p, Cut(es, filled), now) <= NotDue(p, es, now)
  {
    if es != [] {
      var front, e := es[..|es| - 1], es[|es| - 1];
      CutKeepsNotDue(p, front, filled, now);
      var left := Subtract(e.range, filled);
      SubtractExact(e.range, filled);
      NotDueAdd(p, Cut(front, filled), e, left.before, now);
      NotDueAdd(p, AddEntry(Cut(front, filled), e, left.before), e, left.after, now);
      BothWithin(NotDue(p, Cut(front, filled), now), NotDue(p, front, now), Span(left.before), Span(left.after), Span(e.range));
    }
  }

  lemma BothWithin(a: set<nat>, b: set<nat>, x: set<nat>, y: set<nat>, z: set<nat>)
    requires a <= b && x + y <= z
    ensures a <= b && a + x <= b + z && a + y <= b + z && a + x + y <= b + z
  {}

  lemma {:induction false} NotDueUpdate(p: Policy, es: seq<Entry>, at: nat, e: Entry, now: int)
    requires at < |es| && e.range == es[at].range
    ensures NotDue(p, es[at := e], now) <= NotDue(p, es, now) + Span(e.range)
  {
    var n := |es| - 1;
    if at < n {
      NotDueUpdate(p, es[..n], at, e, now);
      assert es[at := e][..n] == es[..n][at := e];
    } else {
      assert es[at := e][..n] == es[..n];
    }
  }

  function Removed(es: seq<Entry>, at: nat): seq<Entry>
    requires at < |es|
  {
    es[..at] + es[at + 1..]
  }

  function Asked(p: Policy, e: Entry, now: int): Entry
    requires Valid(p)
  {
    e.(attempts := e.attempts + 1, nextAttempt := now + Timeout(p, e.attempts + 1))
  }

  datatype Polled = Polled(entries: seq<Entry>, decision: Decision)

  /** Abandonment is looked for before anything is sent. */
  function AfterPoll(p: Policy, es: seq<Entry>, now: int): Polled
    requires Valid(p)
  {
    var hopeless := Oldest(p, es, now, Hopeless);
    if hopeless < |es| then
      Polled(Removed(es, hopeless), Abandon(es[hopeless].range, GiveUpReason(p, es[hopeless], now).value))
    else
      var due := Oldest(p, es, now, Due);
      if due == |es| then Polled(es, Idle)
      else Polled(es[due := Asked(p, es[due], now)], Send(es[due].range, es[due].attempts + 1))
  }

  /** A poll keeps the list sound, and what it asks for or gives up is something being asked for. */
  lemma PollKeepsSound(p: Policy, es: seq<Entry>, now: int)
    requires Valid(p) && Sound(p, es)
    ensures Sound(p, AfterPoll(p, es, now).entries)
    ensures var polled := AfterPoll(p, es, now);
            var d := polled.decision;
            && (d.Idle? ==> Cover(polled.entries) == Cover(es))
            && (d.Send? ==> Cover(polled.entries) == Cover(es) && 1 <= d.attempt <= p.maxAttempts)
            && (d.Abandon? ==> Cover(polled.entries) == Cover(es) - Span(d.range))
            && (!d.Idle? ==> FitsRequest(p, d.range) && Span(d.range) <= Cover(es))
  {
    var hopeless, due := Oldest(p, es, now, Hopeless), Oldest(p, es, now, Due);
    if hopeless < |es| {
      RemovedExact(p, es, hopeless);
      CoverMember(es, hopeless);
      ShapedAt(p, es, hopeless);
    } else if due < |es| {
      AskedSound(p, es, due, now);
      CoverMember(es, due);
      ShapedAt(p, es, due);
    }
  }

  lemma {:induction false} RemovedExact(p: Policy, es: seq<Entry>, at: nat)
    requires Shaped(p, es) && at < |es|
    ensures Shaped(p, Removed(es, at))
    ensures Cover(Removed(es, at)) == Cover(es) - Span(es[at].range)
  {
    var body, last := es[..|es| - 1], es[|es| - 1];
    if at == |es| - 1 {
      assert Removed(es, at) == body;
    } else {
      RemovedExact(p, body, at);
      CoverMember(body, at);
      assert Removed(es, at) == Removed(body, at) + [last];
      AppendLast(p, Removed(body, at), Cover(body) - Span(es[at].range), last);
      LastUntouched(Cover(body), Span(es[at].range), Span(last.range));
    }
  }

  lemma AppendLast(p: Policy, es: seq<Entry>, covered: set<nat>, last: Entry)
    requires Shaped(p, es) && FitsEntry(p, last) && Cover(es) == covered && covered !! Span(last.range)
    ensures Shaped(p, es + [last]) && Cover(es + [last]) == covered + Span(last.range)
  {
    assert (es + [last])[..|es|] == es;
  }

  lemma LastUntouched(body: set<nat>, removed: set<nat>, last: set<nat>)
    requires removed <= body && body !! last
    ensures (body - removed) + last == (body + last) - removed
  {}

  lemma AskedSound(p: Policy, es: seq<Entry>, at: nat, now: int)
    requires Valid(p) && Sound(p, es) && at < |es| && es[at].attempts < p.maxAttempts
    ensures Sound(p, es[at := Asked(p, es[at], now)])
    ensures Cover(es[at := Asked(p, es[at], now)]) == Cover(es)
  {
    var e := Asked(p, es[at], now);
    ShapedAt(p, es, at);
    CoverMember(es, at);
    CoverUpdate(es, at, e);
    ShapedUpdate(p, es, at, e);
  }

  // ---- termination ------------------------------------------------------------

  /** How many decisions the requester can still make without hearing of anything new. */
  function Budget(p: Policy, es: seq<Entry>): int {
    if es == [] then 0
    else Budget(p, es[..|es| - 1]) + (p.maxAttempts - es[|es| - 1].attempts + 1)
  }

  lemma {:induction false} BudgetUpdate(p: Policy, es: seq<Entry>, at: nat, e: Entry)
    requires at < |es|
    ensures Budget(p, es[at := e]) == Budget(p, es) + es[at].attempts - e.attempts
  {
    var body := es[..|es| - 1];
    if at == |es| - 1 {
      assert es[at := e][..|es| - 1] == body;
    } else {
      BudgetUpdate(p, body, at, e);
      assert es[at := e][..|es| - 1] == body[at := e];
    }
  }

  lemma {:induction false} BudgetRemove(p: Policy, es: seq<Entry>, at: nat)
    requires at < |es|
    ensures Budget(p, Removed(es, at)) == Budget(p, es) - (p.maxAttempts - es[at].attempts + 1)
  {
    var body := es[..|es| - 1];
    if at == |es| - 1 {
      assert Removed(es, at) == body;
    } else {
      BudgetRemove(p, body, at);
      assert Removed(es, at) == Removed(body, at) + [es[|es| - 1]];
      assert Removed(es, at)[..|es| - 2] == Removed(body, at);
    }
  }

  lemma {:induction false} BudgetNatural(p: Policy, es: seq<Entry>)
    requires Shaped(p, es)
    ensures Budget(p, es) >= |es|
  {
    if es != [] {
      BudgetNatural(p, es[..|es| - 1]);
    }
  }

  /** Every decision that is not idle spends the budget. */
  lemma PollSpends(p: Policy, es: seq<Entry>, now: int)
    requires Valid(p) && Sound(p, es)
    ensures AfterPoll(p, es, now).decision.Idle? ==> AfterPoll(p, es, now).entries == es
    ensures !AfterPoll(p, es, now).decision.Idle? ==> Budget(p, AfterPoll(p, es, now).entries) < Budget(p, es)
  {
    var hopeless, due := Oldest(p, es, now, Hopeless), Oldest(p, es, now, Due);
    if hopeless < |es| {
      ShapedAt(p, es, hopeless);
      BudgetRemove(p, es, hopeless);
    } else if due < |es| {
      BudgetUpdate(p, es, due, Asked(p, es[due], now));
    }
  }

  /** The entry a poll asks for: due, and the range it was discovered with or what is left of it. */
  lemma SentEntry(p: Policy, es: seq<Entry>, now: int) returns (at: nat)
    requires Valid(p) && AfterPoll(p, es, now).decision.Send?
    ensures at < |es| && Eligible(p, es[at], now, Due) && AfterPoll(p, es, now).decision.range == es[at].range
    ensures AfterPoll(p, es, now).decision.attempt == es[at].attempts + 1
    ensures AfterPoll(p, es, now).entries == es[at := Asked(p, es[at], now)]
    ensures forall e :: e in es ==> GiveUpReason(p, e, now).None?
  {
    at := Oldest(p, es, now, Due);
    assert forall j :: 0 <= j < |es| ==> !Eligible(p, es[j], now, Hopeless);
  }

  /** Polling at each of the given times, counting the decisions that were not idle. */
  function PollAll(p: Policy, es: seq<Entry>, times: seq<int>): (seq<Entry>, nat)
    requires Valid(p)
    decreases |times|
  {
    if times == [] then (es, 0)
    else
      var step := AfterPoll(p, es, times[0]);
      var (rest, busy) := PollAll(p, step.entries, times[1..]);
      (rest, busy + if step.decision.Idle? then 0 else 1)
  }

  /** Nothing of a range may be asked for before a time. */
  ghost predicate HeldBack(es: seq<Entry>, range: Range, until: int) {
    es != [] ==>
      var body, last := es[..|es| - 1], es[|es| - 1];
      HeldBack(body, range, until) && (last.range.Overlaps(range) ==> last.nextAttempt >= until)
  }

  lemma {:induction false} HeldBackAt(es: seq<Entry>, range: Range, until: int, i: nat)
    requires HeldBack(es, range, until) && i < |es|
    ensures es[i].range.Overlaps(range) ==> es[i].nextAttempt >= until
  {
    if i < |es| - 1 {
      HeldBackAt(es[..|es| - 1], range, until, i);
    }
  }

  lemma {:induction false} AllHeldBack(es: seq<Entry>, range: Range, until: int)
    requires forall i :: 0 <= i < |es| ==> es[i].range.Overlaps(range) ==> es[i].nextAttempt >= until
    ensures HeldBack(es, range, until)
  {
    if es != [] {
      AllHeldBack(es[..|es| - 1], range, until);
    }
  }

  /** Asking for a message holds everything that overlaps the request back until that attempt's wait is over. */
  lemma SendHoldsBack(p: Policy, es: seq<Entry>, now: int)
    requires Valid(p) && Sound(p, es) && AfterPoll(p, es, now).decision.Send?
    ensures var polled := AfterPoll(p, es, now);
            HeldBack(polled.entries, polled.decision.range, now + Timeout(p, polled.decision.attempt))
  {
    var polled := AfterPoll(p, es, now);
    var at := SentEntry(p, es, now);
    forall i | 0 <= i < |es| && i != at ensures !es[i].range.Overlaps(es[at].range) {
      if i < at {
        EntriesDisjoint(p, es, i, at);
      } else {
        EntriesDisjoint(p, es, at, i);
      }
    }
    AllHeldBack(polled.entries, polled.decision.range, now + Timeout(p, polled.decision.attempt));
  }

  /** A later poll that asks for any of it comes no earlier, and holds it back further. */
  lemma PollHoldsBack(p: Policy, es: seq<Entry>, now: int, range: Range, until: int)
    requires Valid(p) && HeldBack(es, range, until)
    ensures var polled := AfterPoll(p, es, now);
            && HeldBack(polled.entries, range, until)
            && (polled.decision.Send? && polled.decision.range.Overlaps(range) ==> now >= until)
  {
    var polled := AfterPoll(p, es, now);
    forall i | 0 <= i < |es| ensures es[i].range.Overlaps(range) ==> es[i].nextAttempt >= until {
      HeldBackAt(es, range, until, i);
    }
    AllHeldBack(polled.entries, range, until);
  }

  lemma {:induction false} PollsHoldBack(p: Policy, es: seq<Entry>, times: seq<int>, range: Range, until: int)
    requires Valid(p) && HeldBack(es, range, until)
    ensures HeldBack(PollAll(p, es, times).0, range, until)
    decreases |times|
  {
    if times != [] {
      PollHoldsBack(p, es, times[0], range, until);
      PollsHoldBack(p, AfterPoll(p, es, times[0]).entries, times[1..], range, until);
    }
  }

  /** Over any run of polls without news: a message just asked for is not asked for again before the wait of
      that attempt is over. */
  lemma RetriesAreSpaced(p: Policy, es: seq<Entry>, now: int, times: seq<int>, later: int)
    requires Valid(p) && Sound(p, es) && AfterPoll(p, es, now).decision.Send?
    ensures var sent := AfterPoll(p, es, now);
            var again := AfterPoll(p, PollAll(p, sent.entries, times).0, later).decision;
            again.Send? && again.range.Overlaps(sent.decision.range) ==> later >= now + Timeout(p, sent.decision.attempt)
  {
    var sent := AfterPoll(p, es, now);
    SendHoldsBack(p, es, now);
    PollsHoldBack(p, sent.entries, times, sent.decision.range, now + Timeout(p, sent.decision.attempt));
    PollHoldsBack(p, PollAll(p, sent.entries, times).0, later, sent.decision.range, now + Timeout(p, sent.decision.attempt));
  }

  /** However long a caller polls, without news the requester acts only a bounded number of times. */
  lemma {:induction false} PollingTerminates(p: Policy, es: seq<Entry>, times: seq<int>)
    requires Valid(p) && Sound(p, es)
    ensures PollAll(p, es, times).1 <= Budget(p, es)
    decreases |times|
  {
    if times == [] {
      BudgetNatural(p, es);
    } else {
      PollKeepsSound(p, es, times[0]);
      PollSpends(p, es, times[0]);
      PollingTerminates(p, AfterPoll(p, es, times[0]).entries, times[1..]);
    }
  }

  ghost predicate Expired(p: Policy, es: seq<Entry>, now: int) {
    forall e :: e in es ==> now - e.discovered >= p.retentionWindow
  }

  /** Once everything has outlived the retention window, one poll per entry gives all of it up. */
  lemma {:induction false} ExpiredDrains(p: Policy, es: seq<Entry>, times: seq<int>)
    requires Valid(p) && |times| == |es|
    requires forall i :: 0 <= i < |times| ==> Expired(p, es, times[i])
    ensures PollAll(p, es, times) == ([], |es|)
    decreases |times|
  {
    if times != [] {
      ExpiredStep(p, es, times[0]);
      var rest := AfterPoll(p, es, times[0]).entries;
      forall i | 0 <= i < |times[1..]| ensures Expired(p, rest, times[1..][i]) {
        assert Expired(p, es, times[i + 1]);
      }
      ExpiredDrains(p, rest, times[1..]);
    }
  }

  lemma ExpiredStep(p: Policy, es: seq<Entry>, now: int)
    requires Valid(p) && es != [] && Expired(p, es, now)
    ensures var polled := AfterPoll(p, es, now);
            && polled.decision.Abandon? && polled.decision.reason == RetransmitWindowExceeded
            && |polled.entries| == |es| - 1 && forall e :: e in polled.entries ==> e in es
  {
    assert es[0] in es && Eligible(p, es[0], now, Hopeless);
  }

  // ---- the component ----------------------------------------------------------

  const NO_ENTRY := Entry(EMPTY, 0, 0, 0)

  lemma CutStep(es: seq<Entry>, i: nat, filled: Range)
    requires i < |es|
    ensures var left := Subtract(es[i].range, filled);
            Cut(es[..i + 1], filled) == AddEntry(AddEntry(Cut(es[..i], filled), es[i], left.before), es[i], left.after)
  {
    assert es[..i + 1][..i] == es[..i];
  }

  lemma CutStepLength(es: seq<Entry>, i: nat, filled: Range)
    requires i < |es|
    ensures var left := Subtract(es[i].range, filled);
            |Cut(es[..i + 1], filled)| ==
            |Cut(es[..i], filled)| + left.Parts()
  {
    CutStep(es, i, filled);
  }

  lemma AfterGapStep(p: Policy, es: seq<Entry>, hole: Range, now: int, after: seq<Entry>, admitted: bool)
    requires RetransmitPolicies.Valid(p) && !hole.IsEmpty()
    requires admitted <==> Admitted(p, es, NextChunk(p, hole), now).Some?
    requires after == if admitted then Admitted(p, es, NextChunk(p, hole), now).value else es
    ensures AfterGap(p, es, hole, now) ==
            if admitted then AfterGap(p, after, Range(NextChunk(p, hole).end, hole.end), now) else Registered(after, false)
  {}

  lemma {:induction false} CutPrefix(es: seq<Entry>, n: nat, filled: Range)
    requires n <= |es|
    ensures |Cut(es[..n], filled)| <= |Cut(es, filled)|
  {
    if n == |es| {
      assert es[..n] == es;
    } else {
      assert es[..|es| - 1][..n] == es[..n];
      CutPrefix(es[..|es| - 1], n, filled);
    }
  }

  lemma {:induction false} FirstJoinableUnique(p: Policy, es: seq<Entry>, chunk: Range, at: nat)
    requires at <= |es|
    requires forall i :: 0 <= i < at ==> !Joinable(p, es[i], chunk)
    requires at < |es| ==> Joinable(p, es[at], chunk)
    ensures at == FirstJoinable(p, es, chunk)
    decreases at
  {
    if at > 0 {
      FirstJoinableUnique(p, es[1..], chunk, at - 1);
    }
  }

  class Requester {
    const policy: Policy
    const entries: array<Entry>
    var count: nat

    ghost predicate Valid()
      reads this, entries
    {
      && RetransmitPolicies.Valid(policy)
      && entries.Length == MAX_OUTSTANDING_GAPS
      && count <= entries.Length
    }

    ghost function Model(): seq<Entry>
      reads this, entries
      requires count <= entries.Length
    {
      entries[..count]
    }

    constructor (policy: Policy)
      requires RetransmitPolicies.Valid(policy)
      ensures Valid() && fresh(entries)
      ensures this.policy == policy && Model() == []
    {
      this.policy := policy;
      entries := new Entry[MAX_OUTSTANDING_GAPS](_ => NO_ENTRY);
      count := 0;
    }

    /** A requester rebuilt from the same policy. */
    method Reset()
      requires Valid()
      modifies this`count
      ensures Valid() && Model() == []
    {
      count := 0;
    }

    method OnGap(hole: Range, now: int) returns (complete: bool)
      requires Valid()
      modifies this, entries
      ensures Valid()
      ensures Registered(Model(), complete) == AfterGap(policy, old(Model()), hole, now)
    {
      ghost var answer := AfterGap(policy, Model(), hole, now);
      var rest := hole;
      while !rest.IsEmpty()
        invariant Valid()
        invariant answer == AfterGap(policy, Model(), rest, now)
        decreases rest.Count()
      {
        var take, admitted := AdmitNext(rest, now);
        if !admitted {
          return false;
        }
        rest := Range(rest.first + take, rest.end);
      }
      return true;
    }

    /** Admits the lowest request-sized chunk of what is left of a hole. */
    method AdmitNext(hole: Range, now: int) returns (take: nat, admitted: bool)
      requires Valid() && !hole.IsEmpty()
      modifies this, entries
      ensures Valid() && 1 <= take <= hole.Count()
      ensures AfterGap(policy, old(Model()), hole, now) ==
              if admitted then AfterGap(policy, Model(), Range(hole.first + take, hole.end), now) else Registered(Model(), false)
    {
      ghost var before := Model();
      var chunk := NextChunk(policy, hole);
      take := chunk.Count();
      admitted := Admit(chunk, now);
      AfterGapStep(policy, before, hole, now, Model(), admitted);
    }

    method Admit(chunk: Range, now: int) returns (admitted: bool)
      requires Valid()
      modifies this, entries
      ensures Valid()
      ensures admitted <==> Admitted(policy, old(Model()), chunk, now).Some?
      ensures Model() == if admitted then Admitted(policy, old(Model()), chunk, now).value else old(Model())
    {
      ghost var es := Model();
      for i := 0 to count
        invariant Model() == es
        invariant forall j :: 0 <= j < i ==> !Joinable(policy, es[j], chunk)
      {
        var existing := entries[i];
        if !existing.range.Overlaps(chunk) && !existing.range.AdjacentTo(chunk) {
          continue;
        }
        var joined := Merge(existing.range, chunk);
        if joined.Count() > policy.maxMessages {
          continue;
        }
        FirstJoinableUnique(policy, es, chunk, i);
        var discovered := if existing.discovered > now then now else existing.discovered;
        entries[i] := Entry(joined, discovered, now + policy.settleDelay, 0);
        assert Model() == es[i := Joined(policy, es[i], chunk, now)];
        return true;
      }
      FirstJoinableUnique(policy, es, chunk, count);
      if count >= MAX_OUTSTANDING_GAPS {
        return false;
      }
      entries[count] := Entry(chunk, now, now + policy.settleDelay, 0);
      count := count + 1;
      return true;
    }

    method OnFilled(arrived: Range) returns (accepted: bool)
      requires Valid()
      modifies this, entries
      ensures Valid()
      ensures Filled(Model(), accepted) == AfterFill(old(Model()), arrived)
    {
      if arrived.IsEmpty() || count == 0 {
        return true;
      }
      var needed := CountCut(arrived);
      if needed > MAX_OUTSTANDING_GAPS {
        return false;
      }
      RewriteCut(arrived);
      return true;
    }

    method CountCut(arrived: Range) returns (needed: nat)
      requires Valid()
      ensures needed == |Cut(Model(), arrived)|
    {
      ghost var es := Model();
      needed := 0;
      for i := 0 to count
        invariant needed == |Cut(es[..i], arrived)|
      {
        var left := Subtract(entries[i].range, arrived);
        CutStepLength(es, i, arrived);
        needed := needed + left.Parts();
      }
      assert es[..count] == es;
    }

    method RewriteCut(arrived: Range)
      requires Valid() && |Cut(Model(), arrived)| <= MAX_OUTSTANDING_GAPS
      modifies this, entries
      ensures Valid() && Model() == Cut(old(Model()), arrived)
    {
      var next := new Entry[MAX_OUTSTANDING_GAPS](_ => NO_ENTRY);
      var kept := BuildCut(next, arrived);
      CopyFrom(next, kept);
    }

    method BuildCut(next: array<Entry>, arrived: Range) returns (kept: nat)
      requires Valid() && next != entries && |Cut(Model(), arrived)| <= next.Length
      modifies next
      ensures kept <= next.Length && next[..kept] == Cut(Model(), arrived)
    {
      ghost var es := Model();
      kept := 0;
      for i := 0 to count
        invariant kept <= next.Length
        invariant next[..kept] == Cut(es[..i], arrived)
        invariant Model() == es
      {
        CutStep(es, i, arrived);
        CutPrefix(es, i + 1, arrived);
        kept := PutParts(next, kept, entries[i], Subtract(entries[i].range, arrived));
      }
      assert es[..count] == es;
    }

    method CopyFrom(next: array<Entry>, kept: nat)
      requires next != entries && kept <= next.Length == entries.Length
      modifies this, entries
      ensures count == kept && entries[..count] == old(next[..kept])
    {
      for i := 0 to kept
        modifies entries
        invariant entries[..i] == next[..i]
      {
        entries[i] := next[i];
      }
      count := kept;
    }

    /** Both halves inherit the attempt state. */
    static method PutParts(next: array<Entry>, kept: nat, e: Entry, left: Remainder) returns (grown: nat)
      requires kept <= next.Length && |AddEntry(AddEntry(next[..kept], e, left.before), e, left.after)| <= next.Length
      modifies next
      ensures kept <= grown <= next.Length
      ensures next[..grown] == AddEntry(AddEntry(old(next[..kept]), e, left.before), e, left.after)
    {
      grown := Put(next, kept, e, left.before);
      grown := Put(next, grown, e, left.after);
    }

    static method Put(next: array<Entry>, kept: nat, e: Entry, part: Range) returns (grown: nat)
      requires kept <= next.Length && |AddEntry(next[..kept], e, part)| <= next.Length
      modifies next
      ensures kept <= grown <= next.Length
      ensures next[..grown] == AddEntry(old(next[..kept]), e, part)
    {
      if part.IsEmpty() { return kept; }
      next[kept] := e.(range := part);
      return kept + 1;
    }

    method Poll(now: int) returns (decision: Decision)
      requires Valid()
      modifies this, entries
      ensures Valid()
      ensures Polled(Model(), decision) == AfterPoll(policy, old(Model()), now)
    {
      decision := TakeAbandoned(now);
      if decision == Idle {
        decision := TakeDue(now);
      }
    }

    method FindOldest(now: int, which: Question) returns (chosen: nat)
      requires Valid()
      ensures chosen == Oldest(policy, Model(), now, which)
    {
      ghost var es := Model();
      chosen := count;
      for i := 0 to count
        invariant chosen == count || chosen < i
        invariant IsOldest(policy, es[..i], now, which, if chosen == count then i else chosen)
      {
        if !Eligible(policy, entries[i], now, which) {
          continue;
        }
        if chosen == count || entries[i].discovered < entries[chosen].discovered {
          chosen := i;
        }
      }
      assert es[..count] == es;
      OldestUnique(policy, es, now, which, chosen, Oldest(policy, es, now, which));
    }

    method TakeAbandoned(now: int) returns (decision: Decision)
      requires Valid()
      modifies this, entries
      ensures Valid()
      ensures var worst := Oldest(policy, old(Model()), now, Hopeless);
              if worst == |old(Model())| then decision == Idle && Model() == old(Model())
              else decision == Abandon(old(Model())[worst].range, GiveUpReason(policy, old(Model())[worst], now).value)
                   && Model() == Removed(old(Model()), worst)
    {
      var worst := FindOldest(now, Hopeless);
      if worst == count {
        return Idle;
      }
      var range, reason := entries[worst].range, GiveUpReason(policy, entries[worst], now);
      RemoveAt(worst);
      return Abandon(range, reason.value);
    }

    method TakeDue(now: int) returns (decision: Decision)
      requires Valid()
      modifies entries
      ensures Valid()
      ensures var due := Oldest(policy, old(Model()), now, Due);
              if due == |old(Model())| then decision == Idle && Model() == old(Model())
              else decision == Send(old(Model())[due].range, old(Model())[due].attempts + 1)
                   && Model() == old(Model())[due := Asked(policy, old(Model())[due], now)]
    {
      var chosen := FindOldest(now, Due);
      if chosen == count {
        return Idle;
      }
      var e := entries[chosen];
      var attempts := e.attempts + 1;
      var wait := TimeoutFor(policy, attempts);
      entries[chosen] := Entry(e.range, e.discovered, now + wait, attempts);
      return Send(e.range, attempts);
    }

    method RemoveAt(index: nat)
      requires Valid() && index < count
      modifies this, entries
      ensures Valid() && Model() == Removed(old(Model()), index)
    {
      ghost var es := Model();
      for i := index + 1 to count
        modifies entries
        invariant forall j :: 0 <= j < i - 1 ==> entries[j] == es[if j < index then j else j + 1]
        invariant forall j :: i <= j < count ==> entries[j] == es[j]
      {
        entries[i - 1] := entries[i];
      }
      count := count - 1;
      assert forall j :: 0 <= j < count ==> entries[j] == Removed(es, index)[j];
    }
  }
}
