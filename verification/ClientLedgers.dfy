/** What a recovery client owes its consumer, over whole runs.

    A ledger is kept outside the client: where the current era begins, the sets of numbers handed
    downstream in it, in order, and those handed downstream before since the session was last joined. `Inv` ties the client
    to its ledger and is kept by every call. */
module ClientLedgers {
  import opened Errors
  import opened Ranges
  import opened GapSets
  import opened Snapshots
  import opened Clients
  import Arbiters
  import Policies = RetransmitPolicies
  import Replay = ReplayBuffers
  import Requesters
  import Trackers = GapTrackers

  /** An era starts when a session is joined or a snapshot is applied. */
  datatype Ledger = Ledger(base: nat, earlier: seq<set<nat>>, handed: seq<set<nat>>) {
    /** Everything handed downstream since the session was last joined. */
    function Session(): seq<set<nat>> { earlier + handed }
  }

  const NO_LEDGER := Ledger(0, [], [])

  ghost function All(handed: seq<set<nat>>): set<nat> {
    if handed == [] then {} else All(handed[..|handed| - 1]) + handed[|handed| - 1]
  }

  /** No number is in two of the sets. */
  ghost predicate PairwiseDisjoint(handed: seq<set<nat>>) {
    handed != [] ==>
      var body := handed[..|handed| - 1];
      PairwiseDisjoint(body) && All(body) !! handed[|handed| - 1]
  }

  lemma {:induction false} DisjointPair(handed: seq<set<nat>>, i: nat, j: nat)
    requires PairwiseDisjoint(handed) && i < j < |handed|
    ensures handed[i] !! handed[j]
  {
    if j < |handed| - 1 {
      DisjointPair(handed[..|handed| - 1], i, j);
    } else {
      AllMember(handed[..|handed| - 1], i);
    }
  }

  // ---- the invariant --------------------------------------------------------------

  /** Facts about the parts that hold in every phase. */
  ghost predicate Shape(o: Options, c: State) {
    && Policies.Valid(o.policy)
    && Trackers.WellFormed(c.channel)
    && Requesters.Sound(o.policy, c.entries)
    && Requesters.Below(Requesters.Cover(c.entries), c.channel.expected)
  }

  /** The client and its tracker agree on the session, and nothing is held before the first packet. */
  ghost predicate Joined(c: State) {
    && c.channel.started == c.started
    && (c.started ==> c.channel.session == c.session)
    && (c.phase == Synchronising ==> !c.started)
    && (!c.started ==>
          && (c.phase == Synchronising || c.phase == Recovering)
          && c.arbiter.watermark == 0 && c.deliveredBefore == 0
          && c.entries == [] && c.buffer == Replay.NOTHING_HELD)
  }

  /** Since the session was last joined no number was handed over twice, and all of them lie below the
      expectation and below whatever is buffered. */
  ghost predicate Recorded(c: State, l: Ledger) {
    && PairwiseDisjoint(l.Session())
    && (c.started ==> HandedBelow(c, l))
  }

  ghost predicate HandedBelow(c: State, l: Ledger) {
    && Requesters.Below(All(l.Session()), c.channel.expected)
    && Above(c.buffer, All(l.Session()))
  }

  /** While live: every number from the start of the era up to the expectation was handed over once or
      is recorded as missing, and exactly the missing ones are being asked for. */
  ghost predicate LiveInvariant(c: State, l: Ledger) {
    && c.arbiter.watermark == c.channel.expected
    && c.deliveredBefore <= c.channel.expected
    && c.buffer == Replay.NOTHING_HELD
    && Requesters.Cover(c.entries) == c.channel.missing
    && Balanced(c, l)
  }

  ghost predicate Balanced(c: State, l: Ledger) {
    && l.base <= c.channel.expected
    && Requesters.Below(All(l.earlier), l.base)
    && All(l.handed) !! c.channel.missing
    && All(l.handed) + c.channel.missing == Span(Range(l.base, c.channel.expected))
  }

  /** While recovering: what is buffered lies below the expectation and is not missing. */
  ghost predicate RecoveringInvariant(c: State) {
    && c.arbiter.watermark >= c.channel.expected
    && c.deliveredBefore <= c.arbiter.watermark
    && Buffering(c.buffer, c.channel)
  }

  ghost predicate Buffering(b: Replay.Buffer, ch: Trackers.Channel) {
    && Span(b.Buffered()) !! ch.missing
    && (b.messages != [] ==> b.End() <= ch.expected)
  }

  /** While replaying: the buffer is exactly what the snapshot left to hand over, and nothing is missing. */
  ghost predicate ReplayingInvariant(c: State, l: Ledger) {
    && c.channel.missing == {} && c.entries == []
    && c.buffer.messages != []
    && c.arbiter.watermark == c.channel.expected == c.deliveredBefore == c.buffer.End()
    && l.base == c.buffer.first && l.handed == []
  }

  ghost predicate Inv(o: Options, c: State, l: Ledger) {
    && Shape(o, c)
    && (!c.phase.Failed? ==> Joined(c) && Recorded(c, l))
    && (c.phase == Live ==> LiveInvariant(c, l))
    && (c.phase == Recovering ==> RecoveringInvariant(c))
    && (c.phase == Replaying ==> ReplayingInvariant(c, l))
  }

  // ---- the ledger ------------------------------------------------------------------

  /** What a successful packet put downstream: nothing when it was held, otherwise what was new and
      what it repaired. */
  ghost function Handed(after: State, report: Report): set<nat> {
    if report.held then {} else Span(report.accepted) + after.recovered
  }

  /** The same, as two deliveries: what was repaired and what was new. */
  ghost function Parts(after: State, report: Report): seq<set<nat>> {
    if report.held then [] else [after.recovered, Span(report.accepted)]
  }

  /** A session the client or its tracker is not in. */
  ghost predicate NewEra(c: State, session: nat) { !c.started || session != c.session || session != c.channel.session }

  ghost function AfterPacket(c: State, l: Ledger, session: nat, first: nat, after: State, result: Result<Report>): Ledger {
    if result.Err? then l
    else if NewEra(c, session) then Ledger(first, [], Parts(after, result.value))
    else l.(handed := l.handed + Parts(after, result.value))
  }

  lemma AllAppend(handed: seq<set<nat>>, more: set<nat>)
    ensures All(handed + [more]) == All(handed) + more
  {
    assert (handed + [more])[..|handed|] == handed;
  }

  lemma {:induction false} AllMember(handed: seq<set<nat>>, i: nat)
    requires i < |handed|
    ensures handed[i] <= All(handed)
  {
    if i < |handed| - 1 {
      AllMember(handed[..|handed| - 1], i);
    }
  }

  lemma DisjointAppend(handed: seq<set<nat>>, more: set<nat>)
    requires PairwiseDisjoint(handed) && All(handed) !! more
    ensures PairwiseDisjoint(handed + [more])
  {
    assert (handed + [more])[..|handed|] == handed;
  }

  lemma {:induction false} AllJoin(a: seq<set<nat>>, b: seq<set<nat>>)
    ensures All(a + b) == All(a) + All(b)
  {
    if b == [] {
      assert a + b == a;
    } else {
      var front, last := b[..|b| - 1], b[|b| - 1];
      AllJoin(a, front);
      assert a + b == (a + front) + [last];
      AllAppend(a + front, last);
    }
  }

  lemma AllOfParts(after: State, report: Report)
    ensures All(Parts(after, report)) == Handed(after, report)
  {
    if !report.held {
      AllJoin([after.recovered], [Span(report.accepted)]);
      assert [after.recovered] + [Span(report.accepted)] == Parts(after, report);
      assert [after.recovered][..0] == [] && [Span(report.accepted)][..0] == [];
    }
  }

  lemma SessionIsBoth(l: Ledger)
    ensures All(l.Session()) == All(l.earlier) + All(l.handed)
  {
    AllJoin(l.earlier, l.handed);
  }

  /** One more delivery, of numbers not delivered before. */
  lemma OneMore(l: Ledger, a: set<nat>) returns (l': Ledger)
    requires PairwiseDisjoint(l.Session()) && All(l.Session()) !! a
    ensures l' == l.(handed := l.handed + [a])
    ensures PairwiseDisjoint(l'.Session())
    ensures All(l'.handed) == All(l.handed) + a && All(l'.Session()) == All(l.Session()) + a
  {
    l' := l.(handed := l.handed + [a]);
    AllAppend(l.handed, a);
    assert l'.Session() == l.Session() + [a];
    AllAppend(l.Session(), a);
    DisjointAppend(l.Session(), a);
  }

  lemma TwoMore(l: Ledger, a: set<nat>, b: set<nat>) returns (l': Ledger)
    requires PairwiseDisjoint(l.Session()) && a !! b && All(l.Session()) !! a + b
    ensures l' == l.(handed := l.handed + [a, b])
    ensures PairwiseDisjoint(l'.Session())
    ensures All(l'.handed) == All(l.handed) + (a + b) && All(l'.Session()) == All(l.Session()) + (a + b)
  {
    var mid := OneMore(l, a);
    l' := OneMore(mid, b);
    assert (l.handed + [a]) + [b] == l.handed + [a, b];
    UnionAssociates(All(l.handed), a, b);
    UnionAssociates(All(l.Session()), a, b);
  }

  /** The first two deliveries of a session. */
  lemma FirstTwo(base: nat, a: set<nat>, b: set<nat>) returns (l: Ledger)
    requires a !! b
    ensures l == Ledger(base, [], [a, b])
    ensures PairwiseDisjoint(l.Session()) && All(l.handed) == a + b && All(l.Session()) == a + b
  {
    var none := Ledger(base, [], []);
    l := TwoMore(none, a, b);
    assert none.handed + [a, b] == [a, b];
  }

  // ---- one packet --------------------------------------------------------------------

  /** The arithmetic of one packet in a live era: what is handed over is new to the consumer, and what
      was handed over and what is missing still divide the era between them. */
  lemma BalanceStep(base: nat, expected: nat, all: set<nat>, missing: set<nat>, arrived: Range, missing': set<nat>)
    requires base <= expected && all !! missing && all + missing == Span(Range(base, expected))
    requires missing' == (missing + Span(Range(expected, Trackers.Max(expected, arrived.end)))) - Span(arrived)
    ensures var novel, repaired := AtLeast(Span(arrived), expected), missing * Span(arrived);
            && repaired !! novel
            && all !! repaired + novel
            && (all + (repaired + novel)) !! missing'
            && all + (repaired + novel) + missing' == Span(Range(base, Trackers.Max(expected, arrived.end)))
  {
    var expected' := Trackers.Max(expected, arrived.end);
    var novel, repaired := AtLeast(Span(arrived), expected), missing * Span(arrived);
    assert forall n :: n in all + missing ==> n < expected;
    assert forall n :: n in missing ==> n < expected;
    forall n: nat ensures n in all + (repaired + novel) + missing' <==> n in Span(Range(base, expected')) {
      assert n in all + missing <==> n in Span(Range(base, expected));
    }
  }

  /** Hearing of an observation keeps the requester's list sound, and exact when there was room. */
  lemma ToldKeeps(o: Options, entries: seq<Requesters.Entry>, ch: Trackers.Channel, arrived: Range, seen: Trackers.Observation, now: int)
    requires Policies.Valid(o.policy) && Trackers.WellFormed(ch) && arrived.first <= arrived.end && seen == Trackers.Classify(ch, arrived)
    requires Requesters.Sound(o.policy, entries) && Requesters.Below(Requesters.Cover(entries), ch.expected)
    ensures Requesters.Sound(o.policy, Told(o, entries, seen, now).0)
    ensures Requesters.Below(Requesters.Cover(Told(o, entries, seen, now).0), Trackers.Max(ch.expected, arrived.end))
    ensures Told(o, entries, seen, now).1 && Requesters.Cover(entries) == ch.missing ==>
              Requesters.Cover(Told(o, entries, seen, now).0) == Trackers.MissingAfter(ch, arrived)
  {
    if seen.outcome == Trackers.GapOpened {
      GapTold(o.policy, entries, ch, arrived, now);
    } else {
      Trackers.BehindRemoves(ch, arrived);
      if seen.outcome == Trackers.GapFilled && seen.recovered > 0 {
        Requesters.FillIsExact(o.policy, entries, arrived);
      } else {
        NothingRepaired(ch, arrived);
      }
    }
  }

  lemma GapTold(p: Policies.Policy, entries: seq<Requesters.Entry>, ch: Trackers.Channel, arrived: Range, now: int)
    requires Policies.Valid(p) && Trackers.WellFormed(ch) && ch.expected < arrived.first <= arrived.end
    requires Requesters.Sound(p, entries) && Requesters.Below(Requesters.Cover(entries), ch.expected)
    ensures var told := Requesters.AfterGap(p, entries, Range(ch.expected, arrived.first), now);
            && Requesters.Sound(p, told.entries)
            && Requesters.Below(Requesters.Cover(told.entries), arrived.end)
            && (told.complete && Requesters.Cover(entries) == ch.missing ==>
                  Requesters.Cover(told.entries) == Trackers.MissingAfter(ch, arrived))
  {
    var hole := Range(ch.expected, arrived.first);
    Requesters.GapIsCovered(p, entries, hole, now);
    assert Requesters.Cover(entries) !! Span(hole);
    Requesters.GapKeepsSound(p, entries, hole, now);
    Trackers.AheadAdds(ch, arrived);
  }

  lemma NothingRepaired(ch: Trackers.Channel, arrived: Range)
    requires Trackers.WellFormed(ch) && arrived.first <= ch.expected && arrived.first <= arrived.end
    requires Trackers.Classify(ch, arrived).outcome != Trackers.GapFilled
    ensures Trackers.MissingAfter(ch, arrived) == ch.missing
  {
    Trackers.BehindRemoves(ch, arrived);
    if arrived.first == ch.expected {
      Trackers.InOrderChangesNothing(ch, arrived);
    } else {
      assert ch.missing * Span(arrived) == {};
    }
  }

  /** A client that takes packets at all. */
  ghost predicate Listening(c: State) { !c.phase.Failed? && c.phase != Replaying }

  /** A tracker about to start over, a requester and a buffer with nothing in them. */
  ghost predicate CleanSlate(c: State, session: nat) {
    && (c.phase == Synchronising || c.phase == Recovering)
    && c.arbiter.watermark == 0 && c.deliveredBefore == 0
    && c.entries == [] && c.buffer == Replay.NOTHING_HELD
    && Trackers.WellFormed(c.channel) && Trackers.StartsOver(c.channel, session)
  }

  lemma NewEraIsClean(o: Options, c: State, l: Ledger, session: nat)
    requires Inv(o, c, l) && Listening(c) && NewEra(c, session)
    ensures CleanSlate(Current(c, session), session)
    ensures !SessionChanges(c, session) ==> c.channel.missing == {}
  {}

  /** What the arbiter makes of the first packet of an era: all of it is new. */
  lemma FirstPacketIsNew(o: Options, a: Arbiters.Position, arrived: Range, digest: nat)
    requires a.watermark == 0 && arrived.first <= arrived.end && Arbiters.Offered(o.detect, a, arrived, digest).1.Ok?
    ensures var (position, merged) := Arbiters.Offered(o.detect, a, arrived, digest);
            && Span(merged.value.deliver) == Span(arrived)
            && (arrived.IsEmpty() <==> merged.value.deliver.IsEmpty())
            && merged.value.deliver.end <= arrived.end
            && position.watermark <= arrived.end
  {
    Arbiters.FirstCopyWins(o.detect, a, arrived, digest);
    PredicatesMeanSets(arrived, EMPTY);
  }

  /** The first packet of an era, from the point where the arbiter has decided. */
  lemma EraBegins(o: Options, c: State, arrived: Range, merged: Arbiters.Merged, now: int)
    requires Policies.Valid(o.policy) && arrived.first <= arrived.end
    requires c.started && c.recovered == {} && c.arbiter.watermark <= arrived.end
    requires (c.phase == Synchronising || c.phase == Recovering) && c.deliveredBefore == 0
    requires c.entries == [] && c.buffer == Replay.NOTHING_HELD
    requires Trackers.WellFormed(c.channel) && Trackers.StartsOver(c.channel, c.session)
    requires Span(merged.deliver) == Span(arrived) && merged.deliver.end <= arrived.end
    ensures var (after, result) := Sequenced(o, c, arrived, merged, now);
            && result.Ok? && result.value.accepted == merged.deliver && after.recovered == {}
            && result.value.held == (c.phase == Recovering) && after.phase == (if c.phase == Recovering then Recovering else Live)
            && Inv(o, after, Ledger(arrived.first, [], Parts(after, result.value)))
            && after.started && after.buffer == Replay.NOTHING_HELD && after.channel.missing == {} && after.channel.expected == arrived.end
  {
    Trackers.ObservedAnew(c.channel, c.session, arrived.first, arrived.Count());
    var (channel, seen) := Trackers.Observed(c.channel, c.session, arrived.first, arrived.Count());
    var (after, result) := Sequenced(o, c, arrived, merged, now);
    var l := EraLedger(after, result.value, arrived);
    assert after == Delivered(InStep(c, channel), merged, seen.value).0;
    assert Shape(o, after);
    assert after.arbiter.watermark == arrived.end;
    assert after.phase == Live ==> Balanced(after, l);
  }

  lemma EraLedger(after: State, report: Report, arrived: Range) returns (l: Ledger)
    requires after.recovered == {} && Span(report.accepted) == Span(arrived)
    ensures l == Ledger(arrived.first, [], Parts(after, report))
    ensures PairwiseDisjoint(l.Session()) && All(l.earlier) == {}
    ensures All(l.handed) == (if report.held then {} else Span(arrived)) && All(l.Session()) == All(l.handed)
  {
    if report.held {
      l := Ledger(arrived.first, [], []);
      assert l.Session() == [];
    } else {
      l := FirstTwo(arrived.first, {}, Span(arrived));
    }
  }

  /** A client in the middle of an era, just after the arbiter has accepted a packet. */
  ghost predicate MidPacket(o: Options, c: State, arrived: Range, merged: Arbiters.Merged) {
    && Shape(o, c)
    && c.started && c.channel.started && c.channel.session == c.session
    && arrived.first <= arrived.end
    && c.channel.expected <= c.arbiter.watermark
    && c.deliveredBefore <= c.arbiter.watermark
    && c.recovered == c.channel.missing * Span(arrived)
  }

  /** Whatever goes wrong after the arbiter, the client is left recovering with nothing buffered. */
  lemma RefusalRecovers(o: Options, c: State, l: Ledger, arrived: Range, merged: Arbiters.Merged, now: int)
    requires MidPacket(o, c, arrived, merged) && Recorded(c, l)
    requires Sequenced(o, c, arrived, merged, now).1.Err?
    ensures Sequenced(o, c, arrived, merged, now).0.phase == Recovering
    ensures Inv(o, Sequenced(o, c, arrived, merged, now).0, l)
  {
    Trackers.ObservedAgain(c.channel, c.session, arrived.first, arrived.Count(), arrived);
    var (channel, seen) := Trackers.Observed(c.channel, c.session, arrived.first, arrived.Count());
    var (after, result) := Sequenced(o, c, arrived, merged, now);
    PredicatesMeanSets(EMPTY, EMPTY);
    if seen.Ok? {
      ToldKeeps(o, c.entries, c.channel, arrived, seen.value, now);
    }
    assert Shape(o, after);
    assert RecoveringInvariant(after);
    assert HandedBelow(after, l);
  }

  /** The state a successful packet of the current era leaves, part by part. */
  ghost predicate Success(o: Options, c: State, arrived: Range, merged: Arbiters.Merged, after: State, report: Report) {
    && after.phase == c.phase && after.buffer == c.buffer && after.recovered == c.recovered
    && after.started && after.session == c.session
    && after.channel.started && after.channel.session == c.session
    && after.channel.missing == Trackers.MissingAfter(c.channel, arrived)
    && after.channel.expected == Trackers.Max(c.channel.expected, arrived.end)
    && after.arbiter.watermark == Trackers.Max(c.arbiter.watermark, after.channel.expected)
    && after.deliveredBefore == (if c.phase == Live && merged.deliver.end > c.deliveredBefore then merged.deliver.end else c.deliveredBefore)
    && report.accepted == merged.deliver && report.held == (c.phase == Recovering)
    && Shape(o, after)
    && (Requesters.Cover(c.entries) == c.channel.missing ==> Requesters.Cover(after.entries) == after.channel.missing)
  }

  lemma SuccessParts(o: Options, c: State, arrived: Range, merged: Arbiters.Merged, now: int)
    requires MidPacket(o, c, arrived, merged) && (c.phase == Live || c.phase == Recovering)
    requires Sequenced(o, c, arrived, merged, now).1.Ok?
    ensures Success(o, c, arrived, merged, Sequenced(o, c, arrived, merged, now).0, Sequenced(o, c, arrived, merged, now).1.value)
  {
    Trackers.ObservedAgain(c.channel, c.session, arrived.first, arrived.Count(), arrived);
    var (channel, seen) := Trackers.Observed(c.channel, c.session, arrived.first, arrived.Count());
    ToldKeeps(o, c.entries, c.channel, arrived, seen.value, now);
    var entries := Told(o, c.entries, seen.value, now).0;
    assert Sequenced(o, c, arrived, merged, now) == Delivered(InStep(c, channel).(entries := entries), merged, seen.value);
    DeliveredParts(o, c, arrived, merged, channel, seen.value, entries);
  }

  lemma DeliveredParts(o: Options, c: State, arrived: Range, merged: Arbiters.Merged,
                       channel: Trackers.Channel, seen: Trackers.Observation, entries: seq<Requesters.Entry>)
    requires Policies.Valid(o.policy) && (c.phase == Live || c.phase == Recovering) && c.started
    requires Trackers.WellFormed(channel) && channel.started && channel.session == c.session
    requires channel.missing == Trackers.MissingAfter(c.channel, arrived)
    requires channel.expected == Trackers.Max(c.channel.expected, arrived.end)
    requires Requesters.Sound(o.policy, entries) && Requesters.Below(Requesters.Cover(entries), channel.expected)
    requires Requesters.Cover(c.entries) == c.channel.missing ==> Requesters.Cover(entries) == channel.missing
    ensures var (after, result) := Delivered(InStep(c, channel).(entries := entries), merged, seen);
            result.Ok? && Success(o, c, arrived, merged, after, result.value)
  {}

  lemma LiveContinues(o: Options, c: State, l: Ledger, arrived: Range, merged: Arbiters.Merged, now: int)
    requires MidPacket(o, c, arrived, merged) && c.phase == Live
    requires c.arbiter.watermark <= Trackers.Max(c.channel.expected, arrived.end)
    requires c.deliveredBefore <= c.channel.expected && c.buffer == Replay.NOTHING_HELD
    requires Requesters.Cover(c.entries) == c.channel.missing && Balanced(c, l) && Recorded(c, l)
    requires Span(merged.deliver) == AtLeast(Span(arrived), c.channel.expected)
    requires merged.deliver.end <= Trackers.Max(c.channel.expected, arrived.end)
    requires Sequenced(o, c, arrived, merged, now).1.Ok?
    ensures var (after, result) := Sequenced(o, c, arrived, merged, now);
            && Inv(o, after, l.(handed := l.handed + Parts(after, result.value)))
            && HandsOverOnce(l, false, after, result.value)
  {
    SuccessParts(o, c, arrived, merged, now);
    var (after, result) := Sequenced(o, c, arrived, merged, now);
    var l' := LedgerContinues(c, l, arrived, after.recovered, Span(merged.deliver), after.channel);
    assert l' == l.(handed := l.handed + Parts(after, result.value));
    StillBelow(All(l.Session()), c.channel, after.recovered, Span(merged.deliver), arrived, after.channel.expected);
    assert Balanced(after, l');
    assert LiveInvariant(after, l');
    assert HandedBelow(after, l');
  }

  /** The ledger's side of one live packet: what it repairs and what is new join the session's deliveries. */
  lemma LedgerContinues(c: State, l: Ledger, arrived: Range, repaired: set<nat>, novel: set<nat>, after: Trackers.Channel) returns (l': Ledger)
    requires Trackers.WellFormed(c.channel) && c.started && Balanced(c, l) && Recorded(c, l)
    requires repaired == c.channel.missing * Span(arrived) && novel == AtLeast(Span(arrived), c.channel.expected)
    requires after.missing == Trackers.MissingAfter(c.channel, arrived)
    requires after.expected == Trackers.Max(c.channel.expected, arrived.end)
    ensures l' == l.(handed := l.handed + [repaired, novel])
    ensures repaired !! novel && All(l.Session()) !! repaired + novel
    ensures PairwiseDisjoint(l'.Session()) && All(l'.Session()) == All(l.Session()) + (repaired + novel)
    ensures All(l'.handed) !! after.missing && All(l'.handed) + after.missing == Span(Range(l.base, after.expected))
  {
    BalanceStep(l.base, c.channel.expected, All(l.handed), c.channel.missing, arrived, after.missing);
    NothingAgain(l, c.channel, repaired, novel);
    l' := TwoMore(l, repaired, novel);
  }

  lemma NothingAgain(l: Ledger, ch: Trackers.Channel, repaired: set<nat>, novel: set<nat>)
    requires Requesters.Below(All(l.earlier), l.base) && l.base <= ch.expected
    requires All(l.handed) + ch.missing == Span(Range(l.base, ch.expected)) && All(l.handed) !! repaired + novel
    requires repaired <= ch.missing && forall n :: n in novel ==> n >= ch.expected
    ensures All(l.Session()) !! repaired + novel
  {
    SessionIsBoth(l);
    NothingEarlierAgain(l, ch, repaired, novel);
  }

  lemma StillBelow(all: set<nat>, ch: Trackers.Channel, repaired: set<nat>, novel: set<nat>, arrived: Range, expected: nat)
    requires Trackers.WellFormed(ch) && Requesters.Below(all, ch.expected) && expected == Trackers.Max(ch.expected, arrived.end)
    requires repaired <= ch.missing && novel <= Span(arrived)
    ensures Requesters.Below(all + (repaired + novel), expected)
  {}

  /** Nothing handed over earlier in the session lies in the era. */
  lemma NothingEarlierAgain(l: Ledger, ch: Trackers.Channel, repaired: set<nat>, novel: set<nat>)
    requires Requesters.Below(All(l.earlier), l.base) && l.base <= ch.expected
    requires All(l.handed) + ch.missing == Span(Range(l.base, ch.expected))
    requires repaired <= ch.missing && forall n :: n in novel ==> n >= ch.expected
    ensures All(l.earlier) !! repaired + novel
  {
    forall n | n in repaired ensures n >= l.base {
      assert n in All(l.handed) + ch.missing;
    }
  }

  lemma RecoveringContinues(o: Options, c: State, l: Ledger, arrived: Range, merged: Arbiters.Merged, now: int)
    requires MidPacket(o, c, arrived, merged) && c.phase == Recovering && Buffering(c.buffer, c.channel) && Recorded(c, l)
    requires Span(merged.deliver) <= Span(arrived) && merged.deliver.end <= arrived.end
    requires Sequenced(o, c, arrived, merged, now).1.Ok?
    ensures var (after, result) := Sequenced(o, c, arrived, merged, now);
            && Inv(o, after, l)
            && after.phase == Recovering && result.value.held && after.buffer == c.buffer
            && result.value.accepted == merged.deliver
            && Span(merged.deliver) !! after.channel.missing && merged.deliver.end <= after.channel.expected
  {
    SuccessParts(o, c, arrived, merged, now);
    var after := Sequenced(o, c, arrived, merged, now).0;
    BufferStaysClear(c.buffer, c.channel, after.channel, arrived);
    assert RecoveringInvariant(after);
    assert HandedBelow(after, l);
  }

  lemma BufferStaysClear(b: Replay.Buffer, ch: Trackers.Channel, ch': Trackers.Channel, arrived: Range)
    requires Buffering(b, ch)
    requires ch'.missing == Trackers.MissingAfter(ch, arrived) && ch'.expected == Trackers.Max(ch.expected, arrived.end)
    ensures Buffering(b, ch')
  {
    assert forall n :: n in Span(b.Buffered()) ==> n < ch.expected;
  }

  // ---- a packet together with the buffering the caller owes ---------------------------

  type Bodies = nat -> Replay.Bytes

  /** The caller hands over one held range, message by message, until one is refused. */
  function BufferAll(o: Options, c: State, from: nat, end: nat, body: Bodies): State
    requires c.phase == Recovering
    decreases end - from
  {
    if from >= end then c
    else
      var (next, result) := BufferMessage(o, c, from, body(from));
      if result.Err? then next else BufferAll(o, next, from + 1, end, body)
  }

  /** Every buffered message is the one published under its number. */
  ghost predicate Faithful(b: Replay.Buffer, body: Bodies) {
    forall i :: 0 <= i < |b.messages| ==> b.messages[i] == body(b.first + i)
  }

  /** What holds of a buffer while a held range is handed over. */
  ghost predicate Filling(b: Replay.Buffer, body: Bodies, ch: Trackers.Channel, handed: set<nat>) {
    Faithful(b, body) && Buffering(b, ch) && Above(b, handed)
  }

  /** What a state looks like after some messages of a held range. */
  ghost predicate Filled(c: State, after: State, body: Bodies, ch: Trackers.Channel, handed: set<nat>) {
    && (after.phase.Failed? || after.phase == Recovering)
    && after == c.(phase := after.phase, buffer := after.buffer)
    && Filling(after.buffer, body, ch, handed)
  }

  lemma {:induction false} BufferAllKeeps(o: Options, c: State, from: nat, end: nat, body: Bodies, ch: Trackers.Channel, handed: set<nat>)
    requires c.phase == Recovering && Filling(c.buffer, body, ch, handed)
    requires Span(Range(from, end)) !! ch.missing && (from < end ==> end <= ch.expected && Requesters.Below(handed, from))
    ensures Filled(c, BufferAll(o, c, from, end, body), body, ch, handed)
    decreases end - from
  {
    if from < end {
      SpanStep(from, end);
      BufferOneKeeps(o, c, from, body, ch, handed);
      var (next, result) := BufferMessage(o, c, from, body(from));
      if result.Ok? {
        BufferAllKeeps(o, next, from + 1, end, body, ch, handed);
        FilledTwice(c, next, BufferAll(o, next, from + 1, end, body), body, ch, handed);
      }
    }
  }

  lemma FilledTwice(c: State, next: State, after: State, body: Bodies, ch: Trackers.Channel, handed: set<nat>)
    requires Filled(c, next, body, ch, handed) && Filled(next, after, body, ch, handed)
    ensures Filled(c, after, body, ch, handed)
  {}

  /** What is buffered lies above everything handed over. */
  ghost predicate Above(b: Replay.Buffer, handed: set<nat>) { b.messages != [] ==> Requesters.Below(handed, b.first) }

  lemma SpanStep(from: nat, end: nat)
    requires from < end
    ensures from in Span(Range(from, end)) && Span(Range(from + 1, end)) <= Span(Range(from, end))
  {}

  lemma BufferOneKeeps(o: Options, c: State, sequence: nat, body: Bodies, ch: Trackers.Channel, handed: set<nat>)
    requires c.phase == Recovering && Filling(c.buffer, body, ch, handed)
    requires sequence !in ch.missing && sequence < ch.expected && Requesters.Below(handed, sequence)
    ensures var (next, result) := BufferMessage(o, c, sequence, body(sequence));
            Filled(c, next, body, ch, handed) && (result.Ok? ==> next.phase == Recovering)
  {
    AppendKeeps(o.limits, c.buffer, sequence, body, ch, handed);
  }

  lemma AppendKeeps(limits: Replay.Limits, b: Replay.Buffer, sequence: nat, body: Bodies, ch: Trackers.Channel, handed: set<nat>)
    requires Filling(b, body, ch, handed)
    requires sequence !in ch.missing && sequence < ch.expected && Requesters.Below(handed, sequence)
    ensures Filling(Replay.Appended(limits, b, sequence, body(sequence)).0, body, ch, handed)
  {
    var after := Replay.Appended(limits, b, sequence, body(sequence)).0;
    if after != b {
      assert Span(after.Buffered()) == Span(b.Buffered()) + {sequence};
    }
  }

  ghost function AfterBuffering(o: Options, body: Bodies, c: State, result: Result<Report>): State {
    if result.Ok? && result.value.held && c.phase == Recovering
    then BufferAll(o, c, result.value.accepted.first, result.value.accepted.end, body) else c
  }

  /** One packet as a caller offers it: held messages go to the buffer at once. */
  ghost function Offer(o: Options, body: Bodies, c: State, session: nat, first: nat, count: nat, digest: nat, now: int): (State, Result<Report>)
    requires Policies.Valid(o.policy)
  {
    var (after, result) := OnPacket(o, c, session, first, count, digest, now);
    (AfterBuffering(o, body, after, result), result)
  }

  ghost predicate Sane(o: Options, body: Bodies, c: State, l: Ledger) {
    Inv(o, c, l) && Faithful(c.buffer, body)
  }

  /** What one packet hands over is new to the consumer, and not both newly arrived and newly repaired. */
  ghost predicate HandsOverOnce(l: Ledger, era: bool, after: State, report: Report) {
    && (!report.held ==> Span(report.accepted) !! after.recovered)
    && (!era ==> Handed(after, report) !! All(l.Session()))
  }

  lemma OfferKeeps(o: Options, body: Bodies, c: State, l: Ledger, session: nat, first: nat, count: nat, digest: nat, now: int)
    requires Sane(o, body, c, l)
    ensures var (after, result) := Offer(o, body, c, session, first, count, digest, now);
            && Sane(o, body, after, AfterPacket(c, l, session, first, OnPacket(o, c, session, first, count, digest, now).0, result))
            && (result.Ok? ==> HandsOverOnce(l, NewEra(c, session), after, result.value) && after.phase != Synchronising)
  {
    if !Listening(c) {
      return;
    }
    var current, arrived := Current(c, session), Range(first, first + count);
    var (position, merged) := Arbiters.Offered(o.detect, current.arbiter, arrived, digest);
    if merged.Err? {
      assert Current(c, session).phase == current.phase;
    } else if NewEra(c, session) {
      NewEraOffer(o, body, c, l, session, first, count, digest, now);
    } else {
      SameEraOffer(o, body, c, l, session, first, count, digest, now);
    }
  }

  /** Buffering what was held keeps everything; the ledger plays no part until the era is over. */
  lemma HeldIsBuffered(o: Options, body: Bodies, c: State, l: Ledger, accepted: Range)
    requires Sane(o, body, c, l) && c.phase == Recovering
    requires Span(accepted) !! c.channel.missing && accepted.end <= c.channel.expected
    requires c.started && (!accepted.IsEmpty() ==> Requesters.Below(All(l.Session()), accepted.first))
    ensures Sane(o, body, BufferAll(o, c, accepted.first, accepted.end, body), l)
    ensures BufferAll(o, c, accepted.first, accepted.end, body).phase == Recovering
         || BufferAll(o, c, accepted.first, accepted.end, body).phase.Failed?
  {
    assert Range(accepted.first, accepted.end) == accepted;
    BufferAllKeeps(o, c, accepted.first, accepted.end, body, c.channel, All(l.Session()));
    FilledIsSane(o, body, c, BufferAll(o, c, accepted.first, accepted.end, body), l);
  }

  lemma FilledIsSane(o: Options, body: Bodies, c: State, after: State, l: Ledger)
    requires Sane(o, body, c, l) && c.phase == Recovering && c.started
    requires Filled(c, after, body, c.channel, All(l.Session()))
    ensures Sane(o, body, after, l)
  {
    assert Shape(o, after);
    assert after.phase == Recovering ==> Joined(after) && RecoveringInvariant(after) && HandedBelow(after, l);
  }

  lemma NewEraOffer(o: Options, body: Bodies, c: State, l: Ledger, session: nat, first: nat, count: nat, digest: nat, now: int)
    requires Sane(o, body, c, l) && Listening(c) && NewEra(c, session)
    requires Arbiters.Offered(o.detect, Current(c, session).arbiter, Range(first, first + count), digest).1.Ok?
    ensures var (after, result) := Offer(o, body, c, session, first, count, digest, now);
            && Sane(o, body, after, AfterPacket(c, l, session, first, OnPacket(o, c, session, first, count, digest, now).0, result))
            && (result.Ok? ==> HandsOverOnce(l, true, after, result.value) && after.phase != Synchronising)
  {
    var current, arrived := Current(c, session), Range(first, first + count);
    var (position, merged) := Arbiters.Offered(o.detect, current.arbiter, arrived, digest);
    NewEraIsClean(o, c, l, session);
    FirstPacketIsNew(o, current.arbiter, arrived, digest);
    var noted := Noted(current, position, session, if SessionChanges(c, session) then {} else current.channel.missing * Span(arrived));
    assert noted.recovered == {};
    assert OnPacket(o, c, session, first, count, digest, now) == Sequenced(o, noted, arrived, merged.value, now);
    EraBegins(o, noted, arrived, merged.value, now);
    var (mid, result) := Sequenced(o, noted, arrived, merged.value, now);
    var l' := AfterPacket(c, l, session, first, mid, result);
    assert l' == Ledger(first, [], Parts(mid, result.value));
    if mid.phase == Recovering {
      assert l'.Session() == [];
      HeldIsBuffered(o, body, mid, l', result.value.accepted);
    }
  }

  /** A packet of the current era, as the arbiter leaves it. */
  lemma SameEraArbitrated(o: Options, c: State, l: Ledger, arrived: Range, digest: nat)
    requires Inv(o, c, l) && Listening(c) && c.started && arrived.first <= arrived.end
    requires Arbiters.Offered(o.detect, c.arbiter, arrived, digest).1.Ok?
    ensures var (position, merged) := Arbiters.Offered(o.detect, c.arbiter, arrived, digest);
            && MidPacket(o, Noted(c, position, c.session, c.channel.missing * Span(arrived)), arrived, merged.value)
            && position.watermark <= Trackers.Max(c.arbiter.watermark, arrived.end)
            && Span(merged.value.deliver) == AtLeast(Span(arrived), c.arbiter.watermark)
            && merged.value.deliver.end <= arrived.end
            && (merged.value.deliver.IsEmpty() ==> position.watermark == c.arbiter.watermark)
  {
    var (position, merged) := Arbiters.Offered(o.detect, c.arbiter, arrived, digest);
    Arbiters.FirstCopyWins(o.detect, c.arbiter, arrived, digest);
    DeliverBounds(c.arbiter.watermark, arrived, merged.value.deliver);
  }

  lemma SameEraOffer(o: Options, body: Bodies, c: State, l: Ledger, session: nat, first: nat, count: nat, digest: nat, now: int)
    requires Sane(o, body, c, l) && Listening(c) && !NewEra(c, session)
    requires Arbiters.Offered(o.detect, c.arbiter, Range(first, first + count), digest).1.Ok?
    ensures var (after, result) := Offer(o, body, c, session, first, count, digest, now);
            && Sane(o, body, after, AfterPacket(c, l, session, first, OnPacket(o, c, session, first, count, digest, now).0, result))
            && (result.Ok? ==> HandsOverOnce(l, false, after, result.value) && after.phase != Synchronising)
  {
    var arrived := Range(first, first + count);
    var (position, merged) := Arbiters.Offered(o.detect, c.arbiter, arrived, digest);
    SameEraArbitrated(o, c, l, arrived, digest);
    var noted := Noted(c, position, session, c.channel.missing * Span(arrived));
    var (mid, result) := OnPacket(o, c, session, first, count, digest, now);
    if count > 0 && merged.value.deliver.IsEmpty() && noted.recovered == {} {
      assert mid == Noted(c, position, c.session, {});
      assert Parts(mid, result.value) == [{}, {}] by { PredicatesMeanSets(merged.value.deliver, EMPTY); }
      PlainDuplicate(o, c, l, position);
    } else {
      assert (mid, result) == Sequenced(o, noted, arrived, merged.value, now);
      SameEraSequenced(o, body, c, l, noted, arrived, merged.value, now);
    }
  }

  lemma SameEraSequenced(o: Options, body: Bodies, c: State, l: Ledger, noted: State, arrived: Range, merged: Arbiters.Merged, now: int)
    requires Sane(o, body, c, l) && Listening(c) && c.started
    requires noted == Noted(c, noted.arbiter, c.session, c.channel.missing * Span(arrived))
    requires MidPacket(o, noted, arrived, merged)
    requires noted.arbiter.watermark <= Trackers.Max(c.arbiter.watermark, arrived.end)
    requires Span(merged.deliver) == AtLeast(Span(arrived), c.arbiter.watermark) && merged.deliver.end <= arrived.end
    ensures var (mid, result) := Sequenced(o, noted, arrived, merged, now);
            var after := AfterBuffering(o, body, mid, result);
            && Sane(o, body, after, if result.Err? then l else l.(handed := l.handed + Parts(mid, result.value)))
            && (result.Ok? ==> HandsOverOnce(l, false, after, result.value) && after.phase != Synchronising)
  {
    var (mid, result) := Sequenced(o, noted, arrived, merged, now);
    if result.Err? {
      RefusalRecovers(o, noted, l, arrived, merged, now);
    } else if c.phase == Live {
      LiveContinues(o, noted, l, arrived, merged, now);
    } else {
      FirstIsNew(c, merged.deliver, arrived);
      HeldSequenced(o, body, noted, l, arrived, merged, now);
    }
  }

  /** While recovering a packet goes into the buffer and the ledger stays as it is. */
  lemma HeldSequenced(o: Options, body: Bodies, c: State, l: Ledger, arrived: Range, merged: Arbiters.Merged, now: int)
    requires MidPacket(o, c, arrived, merged) && c.phase == Recovering && Buffering(c.buffer, c.channel) && Faithful(c.buffer, body)
    requires Recorded(c, l) && Span(merged.deliver) <= Span(arrived) && merged.deliver.end <= arrived.end
    requires !merged.deliver.IsEmpty() ==> merged.deliver.first >= c.channel.expected
    requires Sequenced(o, c, arrived, merged, now).1.Ok?
    ensures var (mid, result) := Sequenced(o, c, arrived, merged, now);
            var after := AfterBuffering(o, body, mid, result);
            && result.value.held && l.(handed := l.handed + Parts(mid, result.value)) == l
            && Sane(o, body, after, l) && (after.phase == Recovering || after.phase.Failed?)
  {
    RecoveringContinues(o, c, l, arrived, merged, now);
    var (mid, result) := Sequenced(o, c, arrived, merged, now);
    assert l.handed + [] == l.handed;
    HeldIsBuffered(o, body, mid, l, result.value.accepted);
  }

  lemma FirstIsNew(c: State, deliver: Range, arrived: Range)
    requires Span(deliver) == AtLeast(Span(arrived), c.arbiter.watermark)
    ensures !deliver.IsEmpty() ==> deliver.first >= c.arbiter.watermark
  {
    if !deliver.IsEmpty() {
      assert deliver.first in Span(deliver);
    }
  }

  lemma DeliverBounds(watermark: nat, arrived: Range, deliver: Range)
    requires deliver == EMPTY || deliver == Arbiters.Novel(watermark, arrived)
    ensures deliver.end <= arrived.end
  {}

  /** A packet that is neither new nor a repair changes nothing but what the arbiter remembers. */
  lemma PlainDuplicate(o: Options, c: State, l: Ledger, position: Arbiters.Position)
    requires Inv(o, c, l) && Listening(c) && c.started && position.watermark == c.arbiter.watermark
    ensures Inv(o, Noted(c, position, c.session, {}), l.(handed := l.handed + [{}, {}]))
    ensures Inv(o, Noted(c, position, c.session, {}), l)
  {
    var l' := TwoMore(l, {}, {});
    assert All(l'.handed) == All(l.handed) && All(l'.Session()) == All(l.Session());
  }

  // ---- the other calls ------------------------------------------------------------------

  lemma EscalationKeeps(o: Options, body: Bodies, c: State, l: Ledger, why: Error, about: Range)
    requires Sane(o, body, c, l) && !c.phase.Failed?
    ensures Sane(o, body, Escalated(c, why, about), l)
  {
    PredicatesMeanSets(EMPTY, EMPTY);
  }

  lemma RefusedKeeps(o: Options, body: Bodies, c: State, l: Ledger, range: Range, why: Error)
    requires Sane(o, body, c, l)
    ensures Sane(o, body, OnRetransmitRefused(c, range, why).0, l)
  {
    if !c.phase.Failed? {
      EscalationKeeps(o, body, c, l, why, range);
    }
  }

  /** A poll keeps the invariant, and every request it makes is one whole wire request for messages
      that are all still missing. */
  lemma PollKeeps(o: Options, body: Bodies, c: State, l: Ledger, now: int)
    requires Sane(o, body, c, l)
    ensures Sane(o, body, Poll(o, c, now).0, l)
    ensures Poll(o, c, now).1.SendRequest? ==>
              && Requesters.FitsRequest(o.policy, Poll(o, c, now).1.range)
              && Span(Poll(o, c, now).1.range) <= c.channel.missing
    ensures c.phase.Failed? ==> Poll(o, c, now) == (c, Restart(c.phase.why))
  {
    if c.phase == Live || c.phase == Synchronising {
      Requesters.PollKeepsSound(o.policy, c.entries, now);
      var polled := Requesters.AfterPoll(o.policy, c.entries, now);
      var after := c.(entries := polled.entries);
      if polled.decision.Abandon? {
        AbandonKeeps(o, body, c, l, after, polled.decision.reason, polled.decision.range);
      }
    }
  }

  lemma AbandonKeeps(o: Options, body: Bodies, c: State, l: Ledger, after: State, why: Error, range: Range)
    requires Sane(o, body, c, l) && (c.phase == Live || c.phase == Synchronising)
    requires after == c.(entries := after.entries) && Requesters.Sound(o.policy, after.entries)
    requires Requesters.Cover(after.entries) <= Requesters.Cover(c.entries) && c.entries != []
    ensures Sane(o, body, Escalated(after, why, range), l)
  {
    PredicatesMeanSets(EMPTY, EMPTY);
  }

  lemma FinishKeeps(o: Options, body: Bodies, c: State, l: Ledger)
    requires Sane(o, body, c, l)
    ensures Sane(o, body, FinishReplay(c).0, AfterFinish(c, l))
  {
    if c.phase == Replaying {
      var handed := Span(c.buffer.Buffered());
      var l' := AfterFinish(c, l);
      assert l'.Session() == l.Session() + [handed];
      AllAppend(l.Session(), handed);
      DisjointAppend(l.Session(), handed);
      AllAppend(l.handed, handed);
      SessionIsBoth(l);
      assert Requesters.Cover(c.entries) == {};
      assert Balanced(FinishReplay(c).0, l');
    }
  }

  /** Replaying hands over exactly what is buffered. */
  ghost function AfterFinish(c: State, l: Ledger): Ledger {
    if c.phase == Replaying then l.(handed := l.handed + [Span(c.buffer.Buffered())]) else l
  }

  // ---- snapshots ------------------------------------------------------------------------

  /** What a caller checks before handing over a snapshot: one for another session names at least one
      message, and one that would be applied within the session resumes no earlier than the tracker
      already expects. */
  ghost predicate LawfulSnapshot(c: State, session: nat, at: nat) {
    if SessionChanges(c, session) then at >= 1
    else
      var plan := PlanSnapshot(at, c.buffer.Buffered(), c.deliveredBefore);
      !c.phase.Failed? && plan.verdict == Usable ==> c.channel.expected <= plan.resumeFrom
  }

  ghost function AfterSnapshot(c: State, l: Ledger, session: nat, at: nat): Ledger {
    if OnSnapshot(c, session, at).1.Ok? && OnSnapshot(c, session, at).1.value.verdict == Usable
    then Ledger(at, if NewEra(c, session) then [] else l.Session(), []) else l
  }

  /** Nothing outstanding, and the three positions agree. */
  ghost predicate FreshStart(c: State, at: nat) {
    && c.channel.missing == {} && c.entries == []
    && c.arbiter.watermark == c.channel.expected == c.deliveredBefore == at
  }

  /** The requester forgets everything below the resume point, and always has room to. */
  lemma RequesterForgets(p: Policies.Policy, es: seq<Requesters.Entry>, bound: nat)
    requires Policies.Valid(p) && Requesters.Sound(p, es) && Requesters.Below(Requesters.Cover(es), bound)
    ensures Requesters.AfterFill(es, Range(0, bound)).entries == []
  {
    Requesters.FillClears(p, es, Range(0, bound));
  }

  /** No hole survives: those below the snapshot are dropped, and what is buffered was never missing. */
  lemma NoHoleSurvives(ch: Trackers.Channel, at: nat, b: Replay.Buffer, resumeFrom: nat)
    requires Trackers.WellFormed(ch) && Buffering(b, ch) && ch.expected <= resumeFrom
    requires if resumeFrom == at then true else b.messages != [] && b.first <= at < b.End() == resumeFrom
    ensures AtLeast(ch.missing, at) == {}
  {
    assert forall n :: n in AtLeast(ch.missing, at) ==> n < ch.expected;
    if resumeFrom != at {
      assert b.Buffered() == Range(b.first, resumeFrom);
      assert forall n :: n in AtLeast(ch.missing, at) ==> n in Span(Range(b.first, resumeFrom));
    }
  }

  lemma SnapshotChannel(ch: Trackers.Channel, session: nat, at: nat, b: Replay.Buffer, resumeFrom: nat)
    requires Trackers.WellFormed(ch) && Buffering(b, ch)
    requires if ch.started && session != ch.session then resumeFrom == at else ch.expected <= resumeFrom
    requires if resumeFrom == at then true else b.messages != [] && b.first <= at < b.End() == resumeFrom
    ensures var after := Trackers.SnapshotTaken(ch, session, at).0;
            after.started && after.session == session && after.missing == {} && after.expected == resumeFrom
  {
    if !(ch.started && session != ch.session) {
      NoHoleSurvives(ch, at, b, resumeFrom);
    }
  }

  /** Applying a lawful usable snapshot within the session or for a new one: a fresh start at the resume
      point. */
  lemma SnapshotResumes(o: Options, c: State, session: nat, at: nat, plan: Plan)
    requires Shape(o, c) && Buffering(c.buffer, c.channel)
    requires plan == PlanSnapshot(at, c.buffer.Buffered(), c.deliveredBefore) && plan.verdict == Usable
    requires if c.channel.started && session != c.channel.session then c.buffer == Replay.NOTHING_HELD && c.entries == []
             else c.channel.expected <= plan.resumeFrom
    ensures var after := Resumed(c, session, at, plan);
            && FreshStart(after, plan.resumeFrom)
            && after.started && after.session == session && after.channel.started && after.channel.session == session
  {
    SnapshotChannel(c.channel, session, at, c.buffer, plan.resumeFrom);
    if c.entries != [] {
      RequesterForgets(o.policy, c.entries, plan.resumeFrom);
    }
    ResumesAt(c, session, at, plan);
  }

  lemma ResumesAt(c: State, session: nat, at: nat, plan: Plan)
    ensures var after := Resumed(c, session, at, plan);
            && after.arbiter.watermark == plan.resumeFrom == after.deliveredBefore
            && after.channel == Trackers.SnapshotTaken(c.channel, session, at).0
            && after.entries == Requesters.AfterFill(c.entries, Range(0, plan.resumeFrom)).entries
            && after.started && after.session == session
  {}

  lemma FreshShape(o: Options, c: State)
    requires Policies.Valid(o.policy) && c.channel.missing == {} && c.channel.started && c.entries == []
    ensures Shape(o, c) && Requesters.Cover(c.entries) == {}
  {
    assert Starts({}) == {};
  }

  /** The buffer holds exactly the replay range of the plan, with the right messages. */
  ghost predicate KeptForReplay(b: Replay.Buffer, body: Bodies, plan: Plan, at: nat) {
    && Faithful(b, body)
    && b.Buffered() == plan.replay
    && (if plan.replay.IsEmpty() then plan.resumeFrom == at && b == Replay.NOTHING_HELD
        else plan.replay == Range(at, plan.resumeFrom) && b.messages != [])
  }

  lemma KeptExactly(b: Replay.Buffer, body: Bodies, plan: Plan, at: nat, delivered: nat)
    requires Faithful(b, body) && plan == PlanSnapshot(at, b.Buffered(), delivered) && plan.verdict == Usable
    ensures KeptForReplay(if plan.replay.IsEmpty() then Replay.NOTHING_HELD else Replay.DroppedBelow(b, plan.replay.first), body, plan, at)
  {}

  /** What a usable snapshot leaves: nothing missing, nothing pending, and arbiter, tracker and delivery
      position all at the resume point; the buffer is exactly [snapshot, resume point) when there is
      something to replay. */
  lemma UsableKeeps(o: Options, body: Bodies, c: State, l: Ledger, session: nat, at: nat, plan: Plan, after: State)
    requires Sane(o, body, c, l) && LawfulSnapshot(c, session, at) && !c.phase.Failed?
    requires OnSnapshot(c, session, at) == (after, Ok(plan)) && plan.verdict == Usable
    ensures FreshStart(after, plan.resumeFrom)
    ensures KeptForReplay(after.buffer, body, plan, at)
    ensures Requesters.Below(All(AfterSnapshot(c, l, session, at).earlier), at)
    ensures Sane(o, body, after, AfterSnapshot(c, l, session, at))
  {
    CurrentBuffer(o, body, c, l, session);
    var earlier := AfterSnapshot(c, l, session, at).earlier;
    if !NewEra(c, session) {
      EarlierIsCovered(c, l, at, plan);
    }
    ResumedKeeps(o, body, Current(c, session), session, at, plan, earlier);
  }

  lemma ResumedKeeps(o: Options, body: Bodies, c: State, session: nat, at: nat, plan: Plan, earlier: seq<set<nat>>)
    requires Shape(o, c) && Buffering(c.buffer, c.channel) && Faithful(c.buffer, body)
    requires plan == PlanSnapshot(at, c.buffer.Buffered(), c.deliveredBefore) && plan.verdict == Usable
    requires if c.channel.started && session != c.channel.session then c.buffer == Replay.NOTHING_HELD && c.entries == []
             else c.channel.expected <= plan.resumeFrom
    requires PairwiseDisjoint(earlier) && Requesters.Below(All(earlier), at)
    ensures var after := Resumed(c, session, at, plan);
            && FreshStart(after, plan.resumeFrom) && KeptForReplay(after.buffer, body, plan, at)
            && Sane(o, body, after, Ledger(at, earlier, []))
  {
    SnapshotResumes(o, c, session, at, plan);
    KeptExactly(c.buffer, body, plan, at, c.deliveredBefore);
    ResumedSane(o, body, Resumed(c, session, at, plan), at, plan, earlier);
  }

  /** A lawful snapshot within the session covers everything handed over so far: none of it is replayed or
      handed over again. */
  lemma EarlierIsCovered(c: State, l: Ledger, at: nat, plan: Plan)
    requires c.started && Recorded(c, l) && c.channel.expected <= plan.resumeFrom
    requires plan == PlanSnapshot(at, c.buffer.Buffered(), c.deliveredBefore) && plan.verdict == Usable
    ensures Requesters.Below(All(l.Session()), at)
  {}

  /** A snapshot call that passed the check keeps the invariant. */
  lemma SnapshotKeeps(o: Options, body: Bodies, c: State, l: Ledger, session: nat, at: nat)
    requires Sane(o, body, c, l) && LawfulSnapshot(c, session, at)
    ensures Sane(o, body, OnSnapshot(c, session, at).0, AfterSnapshot(c, l, session, at))
  {
    if !c.phase.Failed? {
      var (after, result) := OnSnapshot(c, session, at);
      if result.value.verdict == Usable {
        UsableKeeps(o, body, c, l, session, at, result.value, after);
      } else if result.value.verdict == Stale {
        assert after == c;
      }
    }
  }

  /** A snapshot that would leave a gap to the buffer is not applied: the client fails, and the plan
      names exactly the numbers that are in neither. */
  lemma GapToBufferFails(c: State, session: nat, at: nat)
    requires !c.phase.Failed? && OnSnapshot(c, session, at).1.value.verdict == BehindBuffer
    ensures var held := Current(c, session).buffer.Buffered();
            var (after, result) := OnSnapshot(c, session, at);
            && after.phase == Failed(SnapshotBehindBuffer)
            && !result.value.unfillable.IsEmpty()
            && Span(result.value.unfillable) == Span(Range(at, held.end)) - Span(held)
  {
    var current := Current(c, session);
    UsableExactlyWhenNothingIsMissing(at, current.buffer.Buffered(), current.deliveredBefore);
  }

  lemma CurrentBuffer(o: Options, body: Bodies, c: State, l: Ledger, session: nat)
    requires Sane(o, body, c, l) && !c.phase.Failed?
    ensures var current := Current(c, session);
            && Shape(o, current) && Buffering(current.buffer, current.channel) && Faithful(current.buffer, body)
            && (SessionChanges(c, session) ==> current.deliveredBefore == 0 && current.buffer == Replay.NOTHING_HELD && current.entries == [])
  {
    PredicatesMeanSets(EMPTY, EMPTY);
  }

  lemma ResumedSane(o: Options, body: Bodies, after: State, at: nat, plan: Plan, earlier: seq<set<nat>>)
    requires Policies.Valid(o.policy) && FreshStart(after, plan.resumeFrom) && at <= plan.resumeFrom
    requires after.started && after.channel.started && after.channel.session == after.session
    requires after.phase == (if plan.replay.IsEmpty() then Live else Replaying)
    requires KeptForReplay(after.buffer, body, plan, at)
    requires PairwiseDisjoint(earlier) && Requesters.Below(All(earlier), at)
    ensures Sane(o, body, after, Ledger(at, earlier, []))
  {
    FreshShape(o, after);
    var l := Ledger(at, earlier, []);
    assert l.Session() == earlier;
    if after.phase == Live {
      assert Span(Range(at, at)) == {};
      assert Balanced(after, l);
    }
  }
}
