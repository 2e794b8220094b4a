/** The book at the end of the line: for any loss, duplication and reordering of one session's feed, the
    book the deliveries build is the book of the feed without loss, up to the lowest hole. */
module EndToEnd {
  import opened Errors
  import opened Ranges
  import opened GapSets
  import opened Clients
  import opened ClientLedgers
  import opened ClientRuns
  import opened Rejoining
  import Arbiters
  import Books = OrderBooks
  import Line = Pipelines
  import Policies = RetransmitPolicies
  import Trackers = GapTrackers

  /** The members of a set below a bound, in ascending order. */
  ghost function Ascending(numbers: set<nat>, bound: nat): seq<nat> {
    if bound == 0 then [] else Ascending(numbers, bound - 1) + if bound - 1 in numbers then [bound - 1] else []
  }

  lemma {:induction false} AscendingMembers(numbers: set<nat>, bound: nat)
    ensures Line.Numbers(Ascending(numbers, bound)) == set n | n in numbers && n < bound
  {
    if bound > 0 {
      AscendingMembers(numbers, bound - 1);
      var shorter := Ascending(numbers, bound - 1);
      assert Line.Numbers(Ascending(numbers, bound)) ==
             Line.Numbers(shorter) + if bound - 1 in numbers then {bound - 1} else {};
    }
  }

  lemma {:induction false} OnlyBelowMatters(a: set<nat>, b: set<nat>, bound: nat)
    requires forall n :: n < bound ==> (n in a <==> n in b)
    ensures Ascending(a, bound) == Ascending(b, bound)
  {
    if bound > 0 {
      OnlyBelowMatters(a, b, bound - 1);
    }
  }

  lemma {:induction false} AscendingThenRange(numbers: set<nat>, r: Range, bound: nat)
    requires r.first <= r.end <= bound && forall n :: n in numbers ==> n < r.first
    ensures Ascending(numbers + Span(r), bound) == Ascending(numbers, bound) + Line.InRange(r)
    decreases bound
  {
    if r.IsEmpty() {
      OnlyBelowMatters(numbers + Span(r), numbers, bound);
      assert Ascending(numbers, bound) + [] == Ascending(numbers, bound);
    } else if bound > r.end {
      AscendingThenRange(numbers, r, bound - 1);
      assert bound - 1 !in numbers && bound - 1 !in Span(r);
    } else {
      var shorter := Range(r.first, r.end - 1);
      AscendingThenRange(numbers, shorter, bound - 1);
      OnlyBelowMatters(numbers + Span(r), numbers + Span(shorter), bound - 1);
      assert bound - 1 in Span(r) && bound - 1 !in numbers;
    }
  }

  /** Walking a canonical list of ranges visits its numbers in ascending order, each once: the pipeline's
      loops deliver what the specification below says. */
  lemma {:induction false} WalkingIsAscending(ranges: seq<Range>, bound: nat)
    requires Canonical(ranges) && (ranges != [] ==> ranges[|ranges| - 1].end <= bound)
    ensures Line.Listed(ranges) == Ascending(Den(ranges), bound)
  {
    if ranges == [] {
      AscendingOfNone(bound);
    } else {
      var body, last := ranges[..|ranges| - 1], ranges[|ranges| - 1];
      WalkingIsAscending(body, bound);
      BelowLast(body, last);
      AscendingThenRange(Den(body), last, bound);
    }
  }

  lemma {:induction false} AscendingOfNone(bound: nat)
    ensures Ascending({}, bound) == []
  {
    if bound > 0 {
      AscendingOfNone(bound - 1);
    }
  }

  lemma BelowLast(body: seq<Range>, last: Range)
    requires Canonical(body) && Follows(body, last)
    ensures forall n :: n in Den(body) ==> n < last.first
  {
    if body != [] {
      DenBounds(body);
    }
  }

  lemma {:induction false} InRangeMembers(r: Range)
    ensures Line.Numbers(Line.InRange(r)) == Span(r)
    decreases r.end
  {
    if r.IsEmpty() {
      PredicatesMeanSets(r, EMPTY);
    } else {
      var shorter := Range(r.first, r.end - 1);
      InRangeMembers(shorter);
      assert Span(r) == Span(shorter) + {r.end - 1};
      assert Line.Numbers(Line.InRange(r)) == Line.Numbers(Line.InRange(shorter)) + {r.end - 1};
    }
  }

  /** What one packet's report puts on the line: repairs first, then what is newly carried. */
  ghost function Deliveries(after: State, arrived: Range, report: Report): seq<nat> {
    if !report.held && (!report.accepted.IsEmpty() || report.recovered > 0)
    then Ascending(after.recovered, arrived.end) + Line.InRange(report.accepted)
    else []
  }

  ghost function LineAfter(o: Options, depth: nat, published: Line.Published, c: State, p: Line.State, e: Event): Line.State
    requires Policies.Valid(o.policy)
  {
    if e.Packet? then
      var (after, result) := OnPacket(o, c, e.session, e.first, e.count, e.digest, e.now);
      if result.Ok? then Line.OfferedAll(depth, published, p, Deliveries(after, Range(e.first, e.first + e.count), result.value))
      else p
    else p
  }

  /** The pipeline alongside the client of the same run. */
  ghost function LineRun(o: Options, body: Bodies, depth: nat, published: Line.Published, events: seq<Event>): Line.State
    requires Policies.Valid(o.policy)
  {
    if events == [] then Line.START
    else
      var front := events[..|events| - 1];
      LineAfter(o, depth, published, Run(o, body, front).0, LineRun(o, body, depth, published, front), events[|events| - 1])
  }

  /** One session, no call refused, and the client never recovering. */
  ghost predicate Calm(o: Options, body: Bodies, c: State, e: Event)
    requires Policies.Valid(o.policy)
  {
    && (e.Packet? || e.PollAt? || e.Refusal?)
    && (e.Packet? ==>
          && (c.started ==> e.session == c.session)
          && OnPacket(o, c, e.session, e.first, e.count, e.digest, e.now).1.Ok?)
    && (Step(o, body, c, e).phase == Live || Step(o, body, c, e).phase == Synchronising)
  }

  ghost predicate CalmRun(o: Options, body: Bodies, events: seq<Event>)
    requires Policies.Valid(o.policy)
  {
    events != [] ==>
      && CalmRun(o, body, events[..|events| - 1])
      && Calm(o, body, Run(o, body, events[..|events| - 1]).0, events[|events| - 1])
  }

  lemma {:induction false} CalmIsLawful(o: Options, body: Bodies, events: seq<Event>)
    requires Policies.Valid(o.policy) && CalmRun(o, body, events)
    ensures LawfulRun(o, body, events)
  {
    if events != [] {
      CalmIsLawful(o, body, events[..|events| - 1]);
    }
  }

  // ---- one packet --------------------------------------------------------------------------

  /** What the client reports as repaired is counted exactly and arrived in this packet. */
  ghost predicate ReportsRepairs(after: State, arrived: Range, result: Result<Report>) {
    result.Ok? ==> after.started && result.value.recovered == |after.recovered| && after.recovered <= Span(arrived)
  }

  lemma SequencedReports(o: Options, c: State, arrived: Range, merged: Arbiters.Merged, now: int)
    requires Policies.Valid(o.policy) && c.started && c.recovered <= Span(arrived)
    ensures ReportsRepairs(Sequenced(o, c, arrived, merged, now).0, arrived, Sequenced(o, c, arrived, merged, now).1)
  {
    var (channel, seen) := Trackers.Observed(c.channel, c.session, arrived.first, arrived.Count());
    assert Sequenced(o, c, arrived, merged, now) == Answered(o, c, channel, seen, merged, now);
  }

  lemma PacketReports(o: Options, c: State, session: nat, first: nat, count: nat, digest: nat, now: int)
    requires Policies.Valid(o.policy)
    ensures var (after, result) := OnPacket(o, c, session, first, count, digest, now);
            ReportsRepairs(after, Range(first, first + count), result)
  {
    if Listening(c) {
      var current, arrived := Current(c, session), Range(first, first + count);
      var (position, merged) := Arbiters.Offered(o.detect, current.arbiter, arrived, digest);
      if merged.Ok? {
        var noted := Noted(current, position, session, if SessionChanges(c, session) then {} else current.channel.missing * Span(arrived));
        SequencedReports(o, noted, arrived, merged.value, now);
        assert OnPacket(o, c, session, first, count, digest, now) == Judged(o, noted, arrived, merged.value, now);
      }
    }
  }

  /** What reaches the line is what the ledger says was handed over. */
  lemma DeliveriesAreHanded(after: State, arrived: Range, report: Report)
    requires ReportsRepairs(after, arrived, Ok(report))
    ensures Line.Numbers(Deliveries(after, arrived, report)) == Handed(after, report)
  {
    AscendingMembers(after.recovered, arrived.end);
    InRangeMembers(report.accepted);
    PredicatesMeanSets(report.accepted, EMPTY);
    var a, b := Ascending(after.recovered, arrived.end), Line.InRange(report.accepted);
    assert Line.Numbers(a) == after.recovered;
    assert Line.Numbers(b) == Span(report.accepted);
    assert Line.Numbers(a + b) == Line.Numbers(a) + Line.Numbers(b);
  }

  // ---- the run ---------------------------------------------------------------------------------

  ghost predicate InStep(depth: nat, published: Line.Published, c: State, l: Ledger, p: Line.State) {
    && (c.phase == Live || c.phase == Synchronising)
    && (!c.started ==> l.handed == [])
    && Line.AtRest(depth, published, p, All(l.handed) * published.Keys)
  }

  lemma LedgerGrows(c: State, l: Ledger, session: nat, first: nat, after: State, report: Report)
    requires Joined(c) && (c.started ==> session == c.session) && (!c.started ==> l.handed == [])
    ensures All(AfterPacket(c, l, session, first, after, Ok(report)).handed) == All(l.handed) + Handed(after, report)
  {
    AllJoin(l.handed, Parts(after, report));
    AllOfParts(after, report);
  }

  lemma LineKeeps(depth: nat, published: Line.Published, p: Line.State, before: set<nat>, after: State, arrived: Range, report: Report)
    requires Line.AtRest(depth, published, p, before * published.Keys) && ReportsRepairs(after, arrived, Ok(report))
    ensures Line.AtRest(depth, published, Line.OfferedAll(depth, published, p, Deliveries(after, arrived, report)),
                        (before + Handed(after, report)) * published.Keys)
  {
    DeliveriesAreHanded(after, arrived, report);
    Line.OfferAllKeeps(depth, published, p, before * published.Keys, Deliveries(after, arrived, report));
    Together(before, Handed(after, report), published.Keys);
  }

  lemma Together(a: set<nat>, b: set<nat>, keys: set<nat>)
    ensures a * keys + (b * keys) == (a + b) * keys
  {}

  /** A calm packet is not buffered: it leaves the client as the report says. */
  lemma CalmPacket(o: Options, body: Bodies, c: State, e: Event)
    requires Policies.Valid(o.policy) && e.Packet? && Calm(o, body, c, e)
    ensures Step(o, body, c, e) == OnPacket(o, c, e.session, e.first, e.count, e.digest, e.now).0
  {
    var (after, result) := OnPacket(o, c, e.session, e.first, e.count, e.digest, e.now);
    if result.Ok? && result.value.held && after.phase == Recovering {
      BufferingOnly(o, after, result.value.accepted.first, result.value.accepted.end, body);
      NeverResumes(o, after, result.value.accepted.first, result.value.accepted.end, body);
    }
  }

  lemma ReportKeepsStep(depth: nat, published: Line.Published, c: State, l: Ledger, p: Line.State,
                        session: nat, arrived: Range, after: State, report: Report)
    requires Joined(c) && InStep(depth, published, c, l, p) && (c.started ==> session == c.session)
    requires ReportsRepairs(after, arrived, Ok(report)) && (after.phase == Live || after.phase == Synchronising)
    ensures InStep(depth, published, after, AfterPacket(c, l, session, arrived.first, after, Ok(report)),
                   Line.OfferedAll(depth, published, p, Deliveries(after, arrived, report)))
  {
    LedgerGrows(c, l, session, arrived.first, after, report);
    LineKeeps(depth, published, p, All(l.handed), after, arrived, report);
  }

  lemma LineUnfolds(o: Options, depth: nat, published: Line.Published, c: State, p: Line.State, e: Event, after: State, report: Report)
    requires Policies.Valid(o.policy) && e.Packet?
    requires (after, Ok(report)) == OnPacket(o, c, e.session, e.first, e.count, e.digest, e.now)
    ensures LineAfter(o, depth, published, c, p, e) ==
            Line.OfferedAll(depth, published, p, Deliveries(after, Range(e.first, e.first + e.count), report))
  {}

  lemma LedgerUnfolds(o: Options, body: Bodies, c: State, l: Ledger, e: Event, after: State, report: Report)
    requires Policies.Valid(o.policy) && e.Packet?
    requires (after, Ok(report)) == OnPacket(o, c, e.session, e.first, e.count, e.digest, e.now)
    ensures Book(o, body, c, l, e) == AfterPacket(c, l, e.session, e.first, after, Ok(report))
  {}

  lemma PacketKeepsStep(o: Options, body: Bodies, depth: nat, published: Line.Published, c: State, l: Ledger, p: Line.State, e: Event)
    requires Policies.Valid(o.policy) && Joined(c)
    requires InStep(depth, published, c, l, p) && e.Packet? && Calm(o, body, c, e)
    ensures InStep(depth, published, Step(o, body, c, e), Book(o, body, c, l, e), LineAfter(o, depth, published, c, p, e))
  {
    PacketReports(o, c, e.session, e.first, e.count, e.digest, e.now);
    CalmPacket(o, body, c, e);
    var (after, result) := OnPacket(o, c, e.session, e.first, e.count, e.digest, e.now);
    var report := result.value;
    LineUnfolds(o, depth, published, c, p, e, after, report);
    LedgerUnfolds(o, body, c, l, e, after, report);
    ReportKeepsStep(depth, published, c, l, p, e.session, Range(e.first, e.first + e.count), after, report);
  }

  lemma StartsInStep(depth: nat, published: Line.Published)
    ensures InStep(depth, published, NEW_CLIENT, NO_LEDGER, Line.START)
  {}

  lemma {:induction false} RunKeepsStep(o: Options, body: Bodies, depth: nat, published: Line.Published, events: seq<Event>)
    requires Policies.Valid(o.policy) && CalmRun(o, body, events)
    ensures InStep(depth, published, Run(o, body, events).0, Run(o, body, events).1, LineRun(o, body, depth, published, events))
  {
    if events == [] {
      StartsInStep(depth, published);
    } else {
      var front, e := events[..|events| - 1], events[|events| - 1];
      RunKeepsStep(o, body, depth, published, front);
      CalmIsLawful(o, body, front);
      RunKeeps(o, body, front);
      var (c, l) := Run(o, body, front);
      if e.Packet? {
        PacketKeepsStep(o, body, depth, published, c, l, LineRun(o, body, depth, published, front), e);
      } else {
        QuietKeepsStep(o, body, c, l, e);
      }
    }
  }

  /** A poll or a transient refusal hands nothing over. */
  lemma QuietKeepsStep(o: Options, body: Bodies, c: State, l: Ledger, e: Event)
    requires Sane(o, body, c, l) && Calm(o, body, c, e) && !e.Packet?
    ensures Book(o, body, c, l, e) == l && Step(o, body, c, e).started == c.started
  {}

  lemma {:induction false} RunWithinFeed(o: Options, body: Bodies, events: seq<Event>, bound: nat)
    requires Policies.Valid(o.policy) && CalmRun(o, body, events)
    requires forall e :: e in events ==> Reaches(e, bound)
    ensures Within(Run(o, body, events).0, bound)
  {
    if events != [] {
      var front := events[..|events| - 1];
      RunWithinFeed(o, body, front, bound);
      CalmIsLawful(o, body, front);
      RunKeeps(o, body, front);
      NothingBeyondTheFeed(o, body, Run(o, body, front).0, events[|events| - 1], bound);
    }
  }

  /** Where the feed was joined: the start of the first packet. */
  function JoinedAt(events: seq<Event>): Option<nat> {
    if events == [] then None
    else
      var at, last := JoinedAt(events[..|events| - 1]), events[|events| - 1];
      if at.None? && last.Packet? then Some(last.first) else at
  }

  /** The one era of a calm run begins there. */
  lemma {:induction false} EraBeginsWhereJoined(o: Options, body: Bodies, events: seq<Event>)
    requires Policies.Valid(o.policy) && CalmRun(o, body, events)
    ensures var (c, l) := Run(o, body, events);
            (c.started <==> JoinedAt(events).Some?) && (c.started ==> JoinedAt(events) == Some(l.base))
  {
    if events != [] {
      var front, e := events[..|events| - 1], events[|events| - 1];
      EraBeginsWhereJoined(o, body, front);
      CalmIsLawful(o, body, front);
      RunKeeps(o, body, front);
      var (c, l) := Run(o, body, front);
      if e.Packet? {
        CalmEra(o, body, c, l, e);
      } else {
        QuietKeepsStep(o, body, c, l, e);
      }
    }
  }

  lemma CalmEra(o: Options, body: Bodies, c: State, l: Ledger, e: Event)
    requires Sane(o, body, c, l) && e.Packet? && Calm(o, body, c, e)
    ensures Step(o, body, c, e).started
    ensures Book(o, body, c, l, e).base == if c.started then l.base else e.first
  {
    CalmPacket(o, body, c, e);
    PacketReports(o, c, e.session, e.first, e.count, e.digest, e.now);
    var (after, result) := OnPacket(o, c, e.session, e.first, e.count, e.digest, e.now);
    LedgerUnfolds(o, body, c, l, e, after, result.value);
  }

  /** The venue published every message from 1 up to `bound`, and the packets carry nothing else. */
  ghost predicate FullFeed(published: Line.Published, events: seq<Event>, bound: nat) {
    && (forall n :: 1 <= n < bound ==> n in published)
    && (forall e :: e in events ==> Reaches(e, bound))
  }

  /** The book is that of the feed without loss up to the message the line is waiting for, and that message
      is the lowest hole, or the expectation when there is no hole. A run that joined above message 1 has
      an empty book for ever: the line waits for a message that never comes. */
  lemma BookIsLossFree(o: Options, body: Bodies, depth: nat, published: Line.Published, events: seq<Event>, bound: nat)
    requires Policies.Valid(o.policy) && CalmRun(o, body, events) && FullFeed(published, events, bound)
    ensures var (c, l) := Run(o, body, events);
            var p, at := LineRun(o, body, depth, published, events), JoinedAt(events);
            && (forall n :: 1 <= n < p.next ==> n in published)
            && p.book == Line.LossFree(depth, published, p.next)
            && (at.Some? && at.value <= 1 <= c.channel.expected ==>
                  && (p.next == c.channel.expected || p.next in c.channel.missing)
                  && (forall n :: n in c.channel.missing && n >= 1 ==> p.next <= n))
            && (at.Some? && at.value > 1 ==> p.next == 1 && p.book == Books.EMPTY_BOOK)
  {
    RunKeepsStep(o, body, depth, published, events);
    RunWithinFeed(o, body, events, bound);
    CalmIsLawful(o, body, events);
    RunKeeps(o, body, events);
    EraBeginsWhereJoined(o, body, events);
    var (c, l) := Run(o, body, events);
    if c.started {
      WaitsForLowestHole(depth, published, c, l, LineRun(o, body, depth, published, events));
    }
  }

  lemma WaitsForLowestHole(depth: nat, published: Line.Published, c: State, l: Ledger, p: Line.State)
    requires Balanced(c, l) && Line.AtRest(depth, published, p, All(l.handed) * published.Keys)
    requires forall n :: 1 <= n < c.channel.expected ==> n in published
    ensures 1 <= c.channel.expected && l.base <= 1 ==>
              && (p.next == c.channel.expected || p.next in c.channel.missing)
              && (forall n :: n in c.channel.missing && n >= 1 ==> p.next <= n)
    ensures l.base > 1 ==> p.next == 1
  {
    var delivered := All(l.handed) * published.Keys;
    forall n: nat ensures n in All(l.handed) + c.channel.missing <==> l.base <= n < c.channel.expected {
      assert n in Span(Range(l.base, c.channel.expected)) <==> l.base <= n < c.channel.expected;
    }
    assert l.base > 1 ==> 1 !in delivered;
    if l.base <= 1 <= c.channel.expected {
      assert c.channel.expected !in delivered;
      forall n | n in c.channel.missing && n >= 1 ensures p.next <= n {
        assert n !in delivered;
      }
    }
  }

  /** With no hole left the repaired book is the loss-free book exactly when the client joined the feed at
      its first message. */
  lemma RepairedBookIsWhole(o: Options, body: Bodies, depth: nat, published: Line.Published, events: seq<Event>, bound: nat)
    requires Policies.Valid(o.policy) && CalmRun(o, body, events) && FullFeed(published, events, bound)
    requires var c := Run(o, body, events).0; c.channel.missing == {} && c.channel.expected > 1
    ensures var c := Run(o, body, events).0;
            var p, at := LineRun(o, body, depth, published, events), JoinedAt(events);
            && at.Some? && c.channel.expected <= bound
            && (p.next == c.channel.expected <==> at.value <= 1)
            && (at.value <= 1 ==> p.book == Line.LossFree(depth, published, c.channel.expected))
  {
    BookIsLossFree(o, body, depth, published, events, bound);
    RunWithinFeed(o, body, events, bound);
    CalmIsLawful(o, body, events);
    RunKeeps(o, body, events);
    EraBeginsWhereJoined(o, body, events);
  }

  // ---- joining late ------------------------------------------------------------------------------

  /** A feed of two messages of which the client gets the second. */
  function LateRun(now: int): seq<Event> { [Packet(1, 2, 1, 0, now)] }

  function TwoMessages(bid: Books.PriceLevelUpdate): Line.Published { map[1 := Line.Quote(bid), 2 := Line.Other] }

  lemma LateRunIsCalm(o: Options, body: Bodies, now: int, events: seq<Event>)
    requires Policies.Valid(o.policy) && events == LateRun(now)
    ensures CalmRun(o, body, events) && Run(o, body, events).0.channel.missing == {}
  {
    NewIsEntering(o, body, events[..0]);
    EnteringStep(o, body, NEW_CLIENT, events[0]);
    JoiningTakesAll(o, NEW_CLIENT, NO_LEDGER, 1, 2, 1, 0, now);
  }

  lemma LateRunIsFed(bid: Books.PriceLevelUpdate, now: int, events: seq<Event>)
    requires events == LateRun(now)
    ensures FullFeed(TwoMessages(bid), events, 3) && JoinedAt(events) == Some(2)
  {}

  /** It misses nothing and repeats nothing, and its book stays empty where the feed's is not. */
  lemma JoiningLateStaysEmpty(o: Options, body: Bodies, depth: nat, bid: Books.PriceLevelUpdate, now: int, events: seq<Event>)
    requires Policies.Valid(o.policy) && depth > 0 && bid.size > 0 && events == LateRun(now)
    ensures CalmRun(o, body, events) && FullFeed(TwoMessages(bid), events, 3)
    ensures Run(o, body, events).0.channel.missing == {}
    ensures LineRun(o, body, depth, TwoMessages(bid), events).book == Books.EMPTY_BOOK
    ensures Line.LossFree(depth, TwoMessages(bid), 3) != Books.EMPTY_BOOK
  {
    LateRunIsCalm(o, body, now, events);
    LateRunIsFed(bid, now, events);
    BookIsLossFree(o, body, depth, TwoMessages(bid), events, 3);
    FeedIsNotEmpty(depth, bid);
  }

  lemma FeedIsNotEmpty(depth: nat, bid: Books.PriceLevelUpdate)
    requires depth > 0 && bid.size > 0
    ensures Line.LossFree(depth, TwoMessages(bid), 3) != Books.EMPTY_BOOK
  {
    var published := TwoMessages(bid);
    assert Line.LossFree(depth, published, 1) == Books.EMPTY_BOOK;
    assert Line.LossFree(depth, published, 2) == Books.AppliedToBook(depth, Books.EMPTY_BOOK, bid).0;
    assert Line.LossFree(depth, published, 3) == Line.LossFree(depth, published, 2);
  }
}
