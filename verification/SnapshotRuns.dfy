/** Two runs that reach a snapshot which does harm: a jump announced by a heartbeat, and a second escalation
    that clears what was buffered. */
module SnapshotRuns {
  import opened Errors
  import opened Ranges
  import opened GapSets
  import opened Clients
  import opened ClientLedgers
  import opened ClientRuns
  import opened SnapshotSafety
  import Arbiters
  import Policies = RetransmitPolicies
  import Replay = ReplayBuffers
  import Requesters
  import Trackers = GapTrackers

  /** In session 1 with nothing missing, asked for or buffered. */
  ghost predicate Quiet(c: State, phase: Phase, expected: nat, delivered: nat) {
    && c.phase == phase && c.started && c.session == 1 && c.deliveredBefore == delivered
    && c.channel.started && c.channel.session == 1 && c.channel.missing == {} && c.channel.expected == expected
    && c.entries == [] && c.buffer == Replay.NOTHING_HELD && c.arbiter.watermark == expected
  }

  ghost predicate Remembers(c: State, range: Range) {
    forall d :: d in c.arbiter.recent ==> d.range == range
  }

  lemma RunMore(o: Options, body: Bodies, events: seq<Event>, e: Event)
    requires Policies.Valid(o.policy)
    ensures Run(o, body, events + [e]) ==
            (Step(o, body, Run(o, body, events).0, e), Book(o, body, Run(o, body, events).0, Run(o, body, events).1, e))
    ensures LawfulRun(o, body, events + [e]) <==> LawfulRun(o, body, events) && Lawful(Run(o, body, events).0, e)
  {
    assert (events + [e])[..|events|] == events;
  }

  lemma Joins(o: Options, body: Bodies, count: nat, now: int)
    requires Policies.Valid(o.policy) && count > 0
    ensures var c := Step(o, body, NEW_CLIENT, Packet(1, 1, count, 0, now));
            Quiet(c, Live, count + 1, count + 1) && Remembers(c, Range(1, count + 1))
    ensures Book(o, body, NEW_CLIENT, NO_LEDGER, Packet(1, 1, count, 0, now)) == Ledger(1, [], [{}, Span(Range(1, count + 1))])
  {
    assert forall d :: d !in NEW_CLIENT.arbiter.recent;
    assert Range(1, count + 1).Count() == count;
    assert [] + [{}, Span(Range(1, count + 1))] == [{}, Span(Range(1, count + 1))];
  }

  // ---- a jump announced by a heartbeat -----------------------------------------------------------

  lemma JumpAnnounced(o: Options, body: Bodies, c: State, now: int)
    requires Policies.Valid(o.policy) && Trackers.WellFormed(c.channel)
    requires Quiet(c, Live, 10, 10) && Remembers(c, Range(1, 10))
    ensures var after := Step(o, body, c, Packet(1, 20, 0, 0, now));
            && after.phase == Live && after.started && after.session == 1 && after.deliveredBefore == 10
            && after.channel.missing == Span(Range(10, 20)) && after.channel.expected == 20
            && after.buffer == Replay.NOTHING_HELD
  {
    var hole, arrived := Range(10, 20), Range(20, 20);
    assert !Arbiters.Conflicts(c.arbiter.recent, arrived, 0);
    Trackers.AheadAdds(c.channel, arrived);
    CanonicalAppend([], hole);
    assert [] + [hole] == [hole];
    CanonicalLength([hole]);
    assert Trackers.MissingAfter(c.channel, arrived) == Den([hole]);
    Requesters.SmallGapFits(o.policy, c.entries, hole, now);
  }

  function Jump(now: int): seq<Event> { [Packet(1, 1, 9, 0, now), Packet(1, 20, 0, 0, now)] }

  lemma JumpRun(o: Options, body: Bodies, now: int)
    requires Policies.Valid(o.policy)
    ensures LawfulRun(o, body, Jump(now))
    ensures var c := Run(o, body, Jump(now)).0;
            && c.phase == Live && c.started && c.session == 1 && c.deliveredBefore == 10
            && c.channel.missing == Span(Range(10, 20)) && c.channel.expected == 20
            && c.buffer == Replay.NOTHING_HELD
  {
    var first, second := Packet(1, 1, 9, 0, now), Packet(1, 20, 0, 0, now);
    var none: seq<Event> := [];
    assert Run(o, body, none).0 == NEW_CLIENT && LawfulRun(o, body, none);
    RunMore(o, body, none, first);
    assert none + [first] == [first] && [first] + [second] == Jump(now);
    Joins(o, body, 9, now);
    RunMore(o, body, [first], second);
    RunKeeps(o, body, [first]);
    JumpAnnounced(o, body, Run(o, body, [first]).0, now);
  }

  lemma JumpThenSnapshot(o: Options, body: Bodies, c: State, l: Ledger)
    requires Sane(o, body, c, l) && c.phase == Live && c.started && c.session == 1 && c.deliveredBefore == 10
    requires c.channel.missing == Span(Range(10, 20)) && c.channel.expected == 20 && c.buffer == Replay.NOTHING_HELD
    ensures UnlawfullyApplied(c, 1, 15)
    ensures var s := OnSnapshot(c, 1, 15).0; Behind(o, s, 1, 15, 20) && s.channel.missing == Span(Range(15, 20))
  {
    var resumeFrom := UnlawfulIsBehind(o, body, c, l, 1, 15);
    LiveNeedsNoReplay(c, l, 1, 15);
    assert AtLeast(Span(Range(10, 20)), 15) == Span(Range(15, 20));
  }

  /** Two packets lead to a state in which a snapshot at 15 is applied without passing the check, and after it
      the packet of messages 15 to 19 is accepted and hands each of them over twice. */
  lemma DoubleCountIsReachable(o: Options, body: Bodies, now: int)
    requires Policies.Valid(o.policy)
    ensures LawfulRun(o, body, Jump(now)) && UnlawfullyApplied(Run(o, body, Jump(now)).0, 1, 15)
    ensures var c := Run(o, body, Jump(now) + [Snapshot(1, 15)]).0;
            var (after, result) := OnPacket(o, c, 1, 15, 5, 0, now);
            result.Ok? && result.value.accepted == Range(15, 20) && after.recovered == Span(Range(15, 20))
  {
    JumpRun(o, body, now);
    RunKeeps(o, body, Jump(now));
    RunMore(o, body, Jump(now), Snapshot(1, 15));
    JumpThenSnapshot(o, body, Run(o, body, Jump(now)).0, Run(o, body, Jump(now)).1);
    FifteenToNineteen(o, Run(o, body, Jump(now) + [Snapshot(1, 15)]).0, now);
  }

  lemma FifteenToNineteen(o: Options, c: State, now: int)
    requires Behind(o, c, 1, 15, 20) && c.channel.missing == Span(Range(15, 20))
    ensures var (after, result) := OnPacket(o, c, 1, 15, 5, 0, now);
            result.Ok? && result.value.accepted == Range(15, 20) && after.recovered == Span(Range(15, 20))
  {
    assert 15 in c.channel.missing;
    assert Resent(c, 0, now) == Arrival(1, 15, 5, 0, now);
    ResentCountsTwice(o, c, 15, 0, now);
  }

  // ---- a second escalation ---------------------------------------------------------------------------

  const ESCALATION := Refusal(EMPTY, RetransmitWindowExceeded)

  /** Two messages fit the replay buffer. */
  predicate RoomForTwo(o: Options, body: Bodies) {
    o.limits.messages >= 2 && o.limits.bytes >= |body(2)| + |body(3)|
  }

  lemma Escalates(o: Options, body: Bodies, c: State, l: Ledger)
    requires Policies.Valid(o.policy) && !c.phase.Failed?
    ensures Step(o, body, c, ESCALATION) == Escalated(c, RetransmitWindowExceeded, EMPTY)
    ensures Book(o, body, c, l, ESCALATION) == l
  {}

  /** Messages 2 and 3 are held for replay. */
  lemma HoldsTwo(o: Options, body: Bodies, c: State, l: Ledger, now: int)
    requires Policies.Valid(o.policy) && RoomForTwo(o, body) && Trackers.WellFormed(c.channel)
    requires Quiet(c, Recovering, 2, 2) && Remembers(c, Range(1, 2))
    ensures var after := Step(o, body, c, Packet(1, 2, 2, 0, now));
            Quiet(after.(buffer := Replay.NOTHING_HELD), Recovering, 4, 2)
    ensures Book(o, body, c, l, Packet(1, 2, 2, 0, now)) == l
  {
    var arrived := Range(2, 4);
    assert !Arbiters.Conflicts(c.arbiter.recent, arrived, 0);
    var (position, merged) := Arbiters.Offered(o.detect, c.arbiter, arrived, 0);
    assert merged == Ok(Arbiters.Merged(Arbiters.Deliver, arrived)) && position.watermark == 4;
    assert c.channel.missing * Span(arrived) == {};
    var noted := Noted(c, position, 1, {});
    HeldInOrder(o, noted, arrived, merged.value, now);
    var (mid, result) := OnPacket(o, c, 1, 2, 2, 0, now);
    assert (mid, result) == Sequenced(o, noted, arrived, merged.value, now);
    BuffersTwo(o, mid, body);
    assert l.handed + [] == l.handed;
  }

  lemma HeldInOrder(o: Options, c: State, arrived: Range, merged: Arbiters.Merged, now: int)
    requires Policies.Valid(o.policy) && Trackers.WellFormed(c.channel) && c.phase == Recovering && c.started
    requires c.channel.started && c.channel.session == c.session && c.channel.expected == arrived.first <= arrived.end
    ensures var (after, result) := Sequenced(o, c, arrived, merged, now);
            && result.Ok? && result.value.held && result.value.accepted == merged.deliver
            && after == c.(channel := after.channel, arbiter := Arbiters.Adopted(c.arbiter, arrived.end))
            && after.channel.missing == c.channel.missing && after.channel.expected == arrived.end
            && after.channel.started && after.channel.session == c.channel.session
  {
    var counted := c.channel.(tally := c.channel.tally.Received(arrived.Count()));
    SequencedInSession(o, c, arrived, merged, now, counted);
    Trackers.AdvancedInOrder(counted, arrived);
  }

  lemma BuffersTwo(o: Options, c: State, body: Bodies)
    requires c.phase == Recovering && c.buffer == Replay.NOTHING_HELD && RoomForTwo(o, body)
    ensures var after := BufferAll(o, c, 2, 4, body); after.phase == Recovering && after == c.(buffer := after.buffer)
  {
    var one := BuffersOne(o, c, 2, body);
    var two := BuffersOne(o, one, 3, body);
    assert BufferAll(o, two, 4, 4, body) == two;
    assert BufferAll(o, one, 3, 4, body) == two;
  }

  lemma BuffersOne(o: Options, c: State, sequence: nat, body: Bodies) returns (after: State)
    requires c.phase == Recovering && |c.buffer.messages| < o.limits.messages
    requires c.buffer.messages != [] ==> sequence == c.buffer.End()
    requires Replay.Size(c.buffer.messages) + |body(sequence)| <= o.limits.bytes
    ensures BufferMessage(o, c, sequence, body(sequence)) == (after, Ok(()))
    ensures after == c.(buffer := after.buffer) && |after.buffer.messages| == |c.buffer.messages| + 1
    ensures after.buffer.End() == sequence + 1
    ensures Replay.Size(after.buffer.messages) == Replay.Size(c.buffer.messages) + |body(sequence)|
  {
    after := BufferMessage(o, c, sequence, body(sequence)).0;
    assert (c.buffer.messages + [body(sequence)])[..|c.buffer.messages|] == c.buffer.messages;
  }

  function Held(now: int): seq<Event> { [Packet(1, 1, 1, 0, now), ESCALATION, Packet(1, 2, 2, 0, now), ESCALATION] }

  lemma HeldHalfway(o: Options, body: Bodies, now: int)
    requires Policies.Valid(o.policy)
    ensures var half := Held(now)[..2];
            && LawfulRun(o, body, half) && Run(o, body, half).1 == Ledger(1, [], [{}, Span(Range(1, 2))])
            && Quiet(Run(o, body, half).0, Recovering, 2, 2) && Remembers(Run(o, body, half).0, Range(1, 2))
            && Trackers.WellFormed(Run(o, body, half).0.channel)
  {
    var none: seq<Event> := [];
    var a := Packet(1, 1, 1, 0, now);
    assert Run(o, body, none) == (NEW_CLIENT, NO_LEDGER) && LawfulRun(o, body, none);
    RunMore(o, body, none, a);
    assert none + [a] == [a] && [a] + [ESCALATION] == Held(now)[..2];
    Joins(o, body, 1, now);
    RunMore(o, body, [a], ESCALATION);
    Escalates(o, body, Run(o, body, [a]).0, Run(o, body, [a]).1);
    RunKeeps(o, body, [a]);
  }

  lemma HeldRun(o: Options, body: Bodies, now: int)
    requires Policies.Valid(o.policy) && RoomForTwo(o, body)
    ensures LawfulRun(o, body, Held(now))
    ensures Quiet(Run(o, body, Held(now)).0, Recovering, 4, 2)
    ensures Run(o, body, Held(now)).1 == Ledger(1, [], [{}, Span(Range(1, 2))])
  {
    HeldHalfway(o, body, now);
    var half, b := Held(now)[..2], Packet(1, 2, 2, 0, now);
    assert (half + [b]) + [ESCALATION] == Held(now);
    RunMore(o, body, half, b);
    HoldsTwo(o, body, Run(o, body, half).0, Run(o, body, half).1, now);
    RunMore(o, body, half + [b], ESCALATION);
    Escalates(o, body, Run(o, body, half + [b]).0, Run(o, body, half + [b]).1);
  }

  /** What the snapshot and the heartbeat after it do to such a client. */
  lemma ThreeIsLost(o: Options, body: Bodies, c: State, l: Ledger, now: int)
    requires Sane(o, body, c, l) && Quiet(c, Recovering, 4, 2) && l == Ledger(1, [], [{}, Span(Range(1, 2))])
    ensures UnlawfullyApplied(c, 1, 3)
    ensures var (s, l', beat) := (OnSnapshot(c, 1, 3).0, AfterSnapshot(c, l, 1, 3), Packet(1, 4, 0, 0, now));
            var (s', l'') := (Step(o, body, s, beat), Book(o, body, s, l', beat));
            Lost(s', l'', 3) && s'.channel.missing == {} && 3 !in All(l''.Session())
  {
    ThreeIsForgotten(o, body, c, l, now);
    var s, l' := OnSnapshot(c, 1, 3).0, AfterSnapshot(c, l, 1, 3);
    BeatIsReceived(o, body, s, l', now);
    assert l'.handed + [{}, {}] == [{}, {}];
    NeverHanded(l, Book(o, body, s, l', Packet(1, 4, 0, 0, now)));
  }

  lemma ThreeIsForgotten(o: Options, body: Bodies, c: State, l: Ledger, now: int)
    requires Sane(o, body, c, l) && Quiet(c, Recovering, 4, 2)
    ensures UnlawfullyApplied(c, 1, 3)
    ensures var (s, l') := (OnSnapshot(c, 1, 3).0, AfterSnapshot(c, l, 1, 3));
            && Behind(o, s, 1, 3, 4) && s.channel.missing == {} && l' == Ledger(3, l.Session(), [])
            && LostBy(o, s, l', Arrival(1, 4, 0, 0, now), 3)
  {
    var resumeFrom := UnlawfulSnapshotMiscounts(o, body, c, l, 1, 3, 0, now);
    var same := UnlawfulIsBehind(o, body, c, l, 1, 3);
    LiveNeedsNoReplay(c, l, 1, 3);
    assert Heartbeat(OnSnapshot(c, 1, 3).0, 0, now) == Arrival(1, 4, 0, 0, now);
  }

  /** A client that is recovering holds messages 2 and 3, escalates again and drops them; a snapshot at 3 is then
      applied without passing the check, and after the next heartbeat message 3 is lost: nothing is missing,
      and it was never handed over in the whole session. */
  lemma LossIsReachable(o: Options, body: Bodies, now: int)
    requires Policies.Valid(o.policy) && RoomForTwo(o, body)
    ensures LawfulRun(o, body, Held(now)) && Run(o, body, Held(now)).0.phase == Recovering
    ensures UnlawfullyApplied(Run(o, body, Held(now)).0, 1, 3)
    ensures var (c, l) := Run(o, body, Held(now) + [Snapshot(1, 3)] + [Packet(1, 4, 0, 0, now)]);
            && Lost(c, l, 3) && c.channel.missing == {}
            && 3 !in All(l.Session())
  {
    HeldRun(o, body, now);
    RunKeeps(o, body, Held(now));
    RunMore(o, body, Held(now), Snapshot(1, 3));
    RunMore(o, body, Held(now) + [Snapshot(1, 3)], Packet(1, 4, 0, 0, now));
    ThreeIsLost(o, body, Run(o, body, Held(now)).0, Run(o, body, Held(now)).1, now);
  }

  /** With nothing buffered there is nothing to replay. */
  lemma LiveNeedsNoReplay(c: State, l: Ledger, session: nat, at: nat)
    requires OnSnapshot(c, session, at).0.phase != Replaying
    ensures Applied(c, session, at) == OnSnapshot(c, session, at).0
    ensures AppliedLedger(c, l, session, at) == AfterSnapshot(c, l, session, at)
  {}

  /** The heartbeat as the run sees it: accepted, with nothing handed over. */
  lemma BeatIsReceived(o: Options, body: Bodies, s: State, l: Ledger, now: int)
    requires Policies.Valid(o.policy) && Behind(o, s, 1, s.deliveredBefore, 4)
    ensures Step(o, body, s, Packet(1, 4, 0, 0, now)) == Received(o, s, Arrival(1, 4, 0, 0, now)).0
    ensures Book(o, body, s, l, Packet(1, 4, 0, 0, now)) == LedgerAfter(o, s, l, Arrival(1, 4, 0, 0, now))
    ensures Book(o, body, s, l, Packet(1, 4, 0, 0, now)) == l.(handed := l.handed + [{}, {}])
    ensures Step(o, body, s, Packet(1, 4, 0, 0, now)).channel.missing == s.channel.missing
  {
    assert Heartbeat(s, 0, now) == Arrival(1, 4, 0, 0, now);
    HeartbeatIsQuiet(o, s, 0, now);
    LiveIsNotHeld(o, s, Arrival(1, 4, 0, 0, now));
  }

  lemma NeverHanded(l: Ledger, l': Ledger)
    requires l == Ledger(1, [], [{}, Span(Range(1, 2))])
    requires l' == Ledger(3, l.Session(), [{}, {}])
    ensures 3 !in All(l'.Session())
  {
    assert l'.Session() == (l.handed + [{}]) + [{}];
    AllAppend(l.handed + [{}], {});
    AllAppend(l.handed, {});
    var first: seq<set<nat>> := [{}];
    assert l.handed == first + [Span(Range(1, 2))];
    AllAppend(first, Span(Range(1, 2)));
    assert first[..0] == [];
  }
}
