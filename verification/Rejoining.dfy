/** A session left and joined again. The ledger starts over whenever a session is joined, as the client does;
    here everything ever handed over under a session is counted, over all its stays. */
module Rejoining {
  import opened Errors
  import opened Ranges
  import opened GapSets
  import opened Snapshots
  import opened Clients
  import opened ClientLedgers
  import opened ClientRuns
  import opened SnapshotSafety
  import Arbiters
  import Policies = RetransmitPolicies
  import Trackers = GapTrackers

  /** What an event hands downstream. */
  ghost function HandedBy(o: Options, c: State, e: Event): set<nat>
    requires Policies.Valid(o.policy)
  {
    match e
    case Packet(session, first, count, digest, now) =>
      var (after, result) := OnPacket(o, c, session, first, count, digest, now);
      if result.Ok? then Handed(after, result.value) else {}
    case Finish => if c.phase == Replaying then Span(c.buffer.Buffered()) else {}
    case _ => {}
  }

  /** Everything handed downstream under a session, whenever the client was in it. */
  ghost function HandedFor(o: Options, body: Bodies, events: seq<Event>, session: nat): set<nat>
    requires Policies.Valid(o.policy)
  {
    if events == [] then {}
    else
      var front, e := events[..|events| - 1], events[|events| - 1];
      var c := Run(o, body, front).0;
      HandedFor(o, body, front, session) + if Step(o, body, c, e).session == session then HandedBy(o, c, e) else {}
  }

  /** The client joins a session: its first packet is accepted, or its first snapshot applied. */
  ghost predicate Joins(o: Options, c: State, e: Event)
    requires Policies.Valid(o.policy)
  {
    match e
    case Packet(session, first, count, digest, now) =>
      NewEra(c, session) && OnPacket(o, c, session, first, count, digest, now).1.Ok?
    case Snapshot(session, at) =>
      NewEra(c, session) && OnSnapshot(c, session, at).1.Ok? && OnSnapshot(c, session, at).1.value.verdict == Usable
    case _ => false
  }

  /** What had been handed over under the client's session when it joined it last. */
  ghost function EarlierStays(o: Options, body: Bodies, events: seq<Event>): set<nat>
    requires Policies.Valid(o.policy)
  {
    if events == [] then {}
    else
      var front, e := events[..|events| - 1], events[|events| - 1];
      var c := Run(o, body, front).0;
      if Joins(o, c, e) then HandedFor(o, body, front, Step(o, body, c, e).session) else EarlierStays(o, body, front)
  }

  // ---- one event --------------------------------------------------------------------------

  /** The ledger over one event: a session joined starts it over, and everything handed over joins it. */
  ghost predicate Entered(o: Options, c: State, l: Ledger, e: Event, after: State, l': Ledger)
    requires Policies.Valid(o.policy)
  {
    if Joins(o, c, e) then All(l'.Session()) == HandedBy(o, c, e)
    else c.started && after.session == c.session && All(l'.Session()) == All(l.Session()) + HandedBy(o, c, e)
  }

  lemma StepEnters(o: Options, body: Bodies, c: State, l: Ledger, e: Event, after: State)
    requires Sane(o, body, c, l) && Lawful(c, e)
    requires after == Step(o, body, c, e) && after.started && !after.phase.Failed?
    ensures Entered(o, c, l, e, after, Book(o, body, c, l, e))
  {
    if e.Packet? {
      PacketEnters(o, body, c, l, e);
    } else if e.Snapshot? {
      SnapshotEnters(o, body, c, l, e);
    } else if e.Finish? {
      FinishEnters(o, body, c, l, e);
    } else {
      QuietEnters(o, body, c, l, e, after);
    }
  }

  lemma QuietEnters(o: Options, body: Bodies, c: State, l: Ledger, e: Event, after: State)
    requires Policies.Valid(o.policy) && (e.Refusal? || e.PollAt?)
    requires after == Step(o, body, c, e) && after.started
    ensures Entered(o, c, l, e, after, l)
  {}

  lemma FinishEnters(o: Options, body: Bodies, c: State, l: Ledger, e: Event)
    requires Sane(o, body, c, l) && e == Finish && FinishReplay(c).0.started
    ensures Entered(o, c, l, e, FinishReplay(c).0, AfterFinish(c, l))
  {
    if c.phase == Replaying {
      var handed := Span(c.buffer.Buffered());
      assert AfterFinish(c, l).Session() == l.Session() + [handed];
      AllAppend(l.Session(), handed);
    }
  }

  lemma SnapshotEnters(o: Options, body: Bodies, c: State, l: Ledger, e: Event)
    requires Sane(o, body, c, l) && e.Snapshot? && LawfulSnapshot(c, e.session, e.at)
    requires OnSnapshot(c, e.session, e.at).0.started && !OnSnapshot(c, e.session, e.at).0.phase.Failed?
    ensures Entered(o, c, l, e, OnSnapshot(c, e.session, e.at).0, AfterSnapshot(c, l, e.session, e.at))
  {
    SnapshotMoves(o, c, l, e.session, e.at);
    SnapshotLedger(c, l, e.session, e.at);
  }

  lemma SnapshotLedger(c: State, l: Ledger, session: nat, at: nat)
    ensures AfterSnapshot(c, l, session, at).Session() ==
            if OnSnapshot(c, session, at).1.Ok? && OnSnapshot(c, session, at).1.value.verdict == Usable && NewEra(c, session) then []
            else l.Session()
  {
    assert l.Session() + [] == l.Session();
  }

  /** A lawful snapshot either is applied, or fails the client, or changes nothing. */
  lemma SnapshotMoves(o: Options, c: State, l: Ledger, session: nat, at: nat)
    requires Inv(o, c, l) && LawfulSnapshot(c, session, at)
    ensures var (after, result) := OnSnapshot(c, session, at);
            after.phase.Failed? || after == c || (result.Ok? && result.value.verdict == Usable && after.session == session)
  {}

  lemma PacketEnters(o: Options, body: Bodies, c: State, l: Ledger, e: Event)
    requires Sane(o, body, c, l) && e.Packet?
    requires Step(o, body, c, e).started && !Step(o, body, c, e).phase.Failed?
    ensures Entered(o, c, l, e, Step(o, body, c, e), Book(o, body, c, l, e))
  {
    var (mid, result) := OnPacket(o, c, e.session, e.first, e.count, e.digest, e.now);
    PacketMoves(o, body, c, l, e);
    if result.Ok? {
      PartsEnter(c, l, e.session, e.first, mid, result.value);
    }
  }

  lemma PartsEnter(c: State, l: Ledger, session: nat, first: nat, after: State, report: Report)
    ensures var l' := AfterPacket(c, l, session, first, after, Ok(report));
            All(l'.Session()) == if NewEra(c, session) then Handed(after, report) else All(l.Session()) + Handed(after, report)
  {
    var l', parts := AfterPacket(c, l, session, first, after, Ok(report)), Parts(after, report);
    AllOfParts(after, report);
    if NewEra(c, session) {
      assert l'.Session() == parts;
    } else {
      assert l'.Session() == l.Session() + parts;
      AllJoin(l.Session(), parts);
    }
  }

  /** An accepted packet leaves the client in its session; a refused one, unless it fails the client, where it was. */
  lemma PacketMoves(o: Options, body: Bodies, c: State, l: Ledger, e: Event)
    requires Sane(o, body, c, l) && e.Packet?
    ensures var (mid, result) := OnPacket(o, c, e.session, e.first, e.count, e.digest, e.now);
            var after := Step(o, body, c, e);
            && after.session == mid.session && after.started == mid.started
            && (result.Ok? ==> after.session == e.session && !c.phase.Failed?)
            && (result.Err? && !after.phase.Failed? ==> after.session == c.session && after.started == c.started)
  {
    var (mid, result) := OnPacket(o, c, e.session, e.first, e.count, e.digest, e.now);
    if result.Ok? && result.value.held && mid.phase == Recovering {
      BufferingOnly(o, mid, result.value.accepted.first, result.value.accepted.end, body);
    }
    if Listening(c) {
      HeardMoves(o, body, c, l, e.session, e.first, e.count, e.digest, e.now);
    } else {
      NotListening(o, c, e.session, e.first, e.count, e.digest, e.now);
    }
  }

  lemma HeardMoves(o: Options, body: Bodies, c: State, l: Ledger, session: nat, first: nat, count: nat, digest: nat, now: int)
    requires Sane(o, body, c, l) && Listening(c)
    ensures var (mid, result) := OnPacket(o, c, session, first, count, digest, now);
            && (result.Ok? ==> mid.session == session)
            && (result.Err? && !mid.phase.Failed? ==> mid.session == c.session && c.started && mid.started)
  {
    OnPacketArbitrates(o, c, session, first, count, digest, now);
    var arrived := Range(first, first + count);
    ArbitratedMoves(o, Current(c, session), session, SessionChanges(c, session), arrived, digest, now);
    if NewEra(c, session) && Arbiters.Offered(o.detect, Current(c, session).arbiter, arrived, digest).1.Ok? {
      JoiningIsAccepted(o, c, l, session, first, count, digest, now);
    }
  }

  /** The first packet of a session is never refused once the arbiter has taken it. */
  lemma JoiningIsAccepted(o: Options, c: State, l: Ledger, session: nat, first: nat, count: nat, digest: nat, now: int)
    requires Inv(o, c, l) && Listening(c) && NewEra(c, session)
    requires Arbiters.Offered(o.detect, Current(c, session).arbiter, Range(first, first + count), digest).1.Ok?
    ensures OnPacket(o, c, session, first, count, digest, now).1.Ok?
  {
    var current, arrived := Current(c, session), Range(first, first + count);
    var (position, merged) := Arbiters.Offered(o.detect, current.arbiter, arrived, digest);
    NewEraIsClean(o, c, l, session);
    FirstPacketIsNew(o, current.arbiter, arrived, digest);
    var noted := Noted(current, position, session, if SessionChanges(c, session) then {} else current.channel.missing * Span(arrived));
    assert noted.recovered == {};
    assert OnPacket(o, c, session, first, count, digest, now) == Sequenced(o, noted, arrived, merged.value, now);
    EraBegins(o, noted, arrived, merged.value, now);
  }

  lemma ArbitratedMoves(o: Options, c: State, session: nat, changed: bool, arrived: Range, digest: nat, now: int)
    requires Policies.Valid(o.policy)
    ensures var (after, result) := Arbitrated(o, c, session, changed, arrived, digest, now);
            && (result.Ok? ==> after.session == session)
            && (Arbiters.Offered(o.detect, c.arbiter, arrived, digest).1.Ok? ==> after.session == session && after.started)
            && (Arbiters.Offered(o.detect, c.arbiter, arrived, digest).1.Err? ==> after.phase.Failed?)
  {
    var (position, merged) := Arbiters.Offered(o.detect, c.arbiter, arrived, digest);
    if merged.Ok? {
      SequencedStays(o, Noted(c, position, session, if changed then {} else c.channel.missing * Span(arrived)),
                     arrived, merged.value, now);
    }
  }

  lemma SequencedStays(o: Options, c: State, arrived: Range, merged: Arbiters.Merged, now: int)
    requires Policies.Valid(o.policy)
    ensures Sequenced(o, c, arrived, merged, now).0.session == c.session
    ensures Sequenced(o, c, arrived, merged, now).0.started == c.started
  {
    var (channel, seen) := Trackers.Observed(c.channel, c.session, arrived.first, arrived.Count());
    assert Sequenced(o, c, arrived, merged, now) == Answered(o, c, channel, seen, merged, now);
  }

  // ---- whole runs ---------------------------------------------------------------------------

  /** Everything handed over under the client's session was handed over in an earlier stay, or is in the ledger. */
  lemma {:induction false} StaysAddUp(o: Options, body: Bodies, events: seq<Event>)
    requires Policies.Valid(o.policy) && LawfulRun(o, body, events)
    requires var c := Run(o, body, events).0; c.started && !c.phase.Failed?
    ensures var (c, l) := Run(o, body, events);
            HandedFor(o, body, events, c.session) == EarlierStays(o, body, events) + All(l.Session())
  {
    if events != [] {
      var front, e := events[..|events| - 1], events[|events| - 1];
      var (c, l) := Run(o, body, front);
      RunKeeps(o, body, front);
      StepEnters(o, body, c, l, e, Step(o, body, c, e));
      if !Joins(o, c, e) {
        FailedStays(o, body, c, e);
        StaysAddUp(o, body, front);
      }
    }
  }

  lemma FailedStays(o: Options, body: Bodies, c: State, e: Event)
    requires Policies.Valid(o.policy) && !Step(o, body, c, e).phase.Failed?
    ensures !c.phase.Failed?
  {
    if c.phase.Failed? {
      FailureIsFinal(o, body, c, e, 0);
    }
  }

  /** An accepted packet hands over again exactly what it hands over of an earlier stay in its session: of the
      stay it begins or continues nothing is ever handed over twice. */
  lemma TwiceExactlyFromEarlierStays(o: Options, body: Bodies, events: seq<Event>, e: Event)
    requires Policies.Valid(o.policy) && LawfulRun(o, body, events) && e.Packet?
    requires OnPacket(o, Run(o, body, events).0, e.session, e.first, e.count, e.digest, e.now).1.Ok?
    ensures var handed := HandedBy(o, Run(o, body, events).0, e);
            handed * HandedFor(o, body, events, e.session) == handed * EarlierStays(o, body, events + [e])
  {
    var (c, l) := Run(o, body, events);
    assert (events + [e])[..|events|] == events;
    RunKeeps(o, body, events);
    PacketMoves(o, body, c, l, e);
    if !Joins(o, c, e) {
      StaysAddUp(o, body, events);
      NotInThisStay(o, body, c, l, e);
    }
  }

  lemma NotInThisStay(o: Options, body: Bodies, c: State, l: Ledger, e: Event)
    requires Sane(o, body, c, l) && e.Packet? && !NewEra(c, e.session)
    requires OnPacket(o, c, e.session, e.first, e.count, e.digest, e.now).1.Ok?
    ensures HandedBy(o, c, e) !! All(l.Session())
  {
    OfferKeeps(o, body, c, l, e.session, e.first, e.count, e.digest, e.now);
    var (mid, result) := OnPacket(o, c, e.session, e.first, e.count, e.digest, e.now);
    if result.value.held && mid.phase == Recovering {
      BufferingOnly(o, mid, result.value.accepted.first, result.value.accepted.end, body);
    }
  }

  // ---- joining again -------------------------------------------------------------------------

  /** A live client about to join a session, for the first time or again. */
  ghost predicate Entering(c: State, session: nat) {
    && Listening(c) && NewEra(c, session) && Blank(Current(c, session)) && Trackers.StartsOver(c.channel, session)
    && (SessionChanges(c, session) || c.channel.missing == {})
  }

  lemma LeavingIsEntering(o: Options, c: State, l: Ledger, session: nat)
    requires Inv(o, c, l) && Listening(c) && SessionChanges(c, session)
    ensures Entering(c, session)
  {}

  /** The packet that joins a session is accepted whole, whatever was handed over under the session before;
      the holes of an earlier stay are forgotten, and the ledger knows nothing of it. */
  lemma JoiningTakesAll(o: Options, c: State, l: Ledger, session: nat, first: nat, count: nat, digest: nat, now: int)
    requires Policies.Valid(o.policy) && Entering(c, session)
    ensures var (after, result) := OnPacket(o, c, session, first, count, digest, now);
            && result.Ok? && after.phase == Live && after.started && after.session == session && after.channel.missing == {}
            && Handed(after, result.value) == Span(Range(first, first + count))
            && AfterPacket(c, l, session, first, after, result) == Ledger(first, [], [{}, Span(Range(first, first + count))])
  {
    var arrived, current := Range(first, first + count), Current(c, session);
    var position, merged := FirstIsSequenced(o, current, session, SessionChanges(c, session), arrived, digest, now);
    OnPacketArbitrates(o, c, session, first, count, digest, now);
    var noted := Noted(current, position, session, {});
    EraBegins(o, noted, arrived, merged, now);
    SequencedStays(o, noted, arrived, merged, now);
    FirstLedger(c, l, session, first, OnPacket(o, c, session, first, count, digest, now).0,
                OnPacket(o, c, session, first, count, digest, now).1.value, arrived);
  }

  lemma FirstLedger(c: State, l: Ledger, session: nat, first: nat, after: State, report: Report, arrived: Range)
    requires NewEra(c, session) && !report.held && after.recovered == {} && Span(report.accepted) == Span(arrived)
    ensures Handed(after, report) == Span(arrived)
    ensures AfterPacket(c, l, session, first, after, Ok(report)) == Ledger(first, [], [{}, Span(arrived)])
  {}

  /** Whatever was handed over under a session is handed over again by a late packet of it that arrives after
      the client left. */
  lemma RejoiningHandsOverAgain(o: Options, body: Bodies, events: seq<Event>, session: nat, first: nat, count: nat, digest: nat, now: int)
    requires Policies.Valid(o.policy) && LawfulRun(o, body, events)
    requires var c := Run(o, body, events).0; Listening(c) && SessionChanges(c, session)
    ensures var e := Packet(session, first, count, digest, now);
            var c := Run(o, body, events).0;
            && OnPacket(o, c, session, first, count, digest, now).1.Ok?
            && HandedBy(o, c, e) == Span(Range(first, first + count))
            && Step(o, body, c, e).channel.missing == {}
  {
    RunKeeps(o, body, events);
    var (c, l) := Run(o, body, events);
    LeavingIsEntering(o, c, l, session);
    JoiningTakesAll(o, c, l, session, first, count, digest, now);
  }

  lemma EnteringStep(o: Options, body: Bodies, c: State, e: Event)
    requires Policies.Valid(o.policy) && e.Packet? && Entering(c, e.session)
    ensures Lawful(c, e) && HandedBy(o, c, e) == Span(Range(e.first, e.first + e.count))
    ensures var after := Step(o, body, c, e); after.phase == Live && after.started && after.session == e.session
  {
    JoiningTakesAll(o, c, NO_LEDGER, e.session, e.first, e.count, e.digest, e.now);
  }

  /** A run that goes on by joining a session. */
  lemma JoiningStep(o: Options, body: Bodies, front: seq<Event>, events: seq<Event>, e: Event, watched: nat)
    requires Policies.Valid(o.policy) && LawfulRun(o, body, front)
    requires e.Packet? && events == front + [e] && Entering(Run(o, body, front).0, e.session)
    ensures LawfulRun(o, body, events)
    ensures HandedBy(o, Run(o, body, front).0, e) == Span(Range(e.first, e.first + e.count))
    ensures var c := Run(o, body, events).0; c.phase == Live && c.started && c.session == e.session
    ensures HandedFor(o, body, events, watched) ==
            HandedFor(o, body, front, watched) + if watched == e.session then Span(Range(e.first, e.first + e.count)) else {}
  {
    assert events[..|front|] == front;
    EnteringStep(o, body, Run(o, body, front).0, e);
  }

  lemma LeavingAfter(o: Options, body: Bodies, events: seq<Event>, session: nat)
    requires Policies.Valid(o.policy) && LawfulRun(o, body, events)
    requires var c := Run(o, body, events).0; c.phase == Live && c.started && c.session != session
    ensures Entering(Run(o, body, events).0, session)
  {
    RunKeeps(o, body, events);
    LeavingIsEntering(o, Run(o, body, events).0, Run(o, body, events).1, session);
  }

  /** Two messages of session 1, one of session 2, and the first two again. */
  function ThereAndBack(now: int): seq<Event> {
    [Packet(1, 1, 2, 0, now), Packet(2, 1, 1, 0, now), Packet(1, 1, 2, 0, now)]
  }

  lemma ThereAndAway(o: Options, body: Bodies, two: seq<Event>, now: int)
    requires Policies.Valid(o.policy) && two == ThereAndBack(now)[..2]
    ensures LawfulRun(o, body, two) && Entering(Run(o, body, two).0, 1)
    ensures HandedFor(o, body, two, 1) == Span(Range(1, 3))
  {
    var none, one := two[..0], two[..1];
    NewIsEntering(o, body, none);
    JoiningStep(o, body, none, one, two[0], 1);
    LeavingAfter(o, body, one, 2);
    JoiningStep(o, body, one, two, two[1], 1);
    LeavingAfter(o, body, two, 1);
    AndNothing(Span(Range(1, 3)));
  }

  /** A run that hands two messages over twice. */
  lemma RejoiningIsReachable(o: Options, body: Bodies, events: seq<Event>, now: int)
    requires Policies.Valid(o.policy) && events == ThereAndBack(now)
    ensures LawfulRun(o, body, events) && Run(o, body, events).0.phase == Live
    ensures HandedBy(o, Run(o, body, events[..2]).0, events[2]) == Span(Range(1, 3)) == HandedFor(o, body, events[..2], 1)
  {
    ThereAndAway(o, body, events[..2], now);
    JoiningStep(o, body, events[..2], events, events[2], 1);
  }

  lemma AndNothing(a: set<nat>)
    ensures {} + a + {} == a
  {}

  lemma NewIsEntering(o: Options, body: Bodies, none: seq<Event>)
    requires Policies.Valid(o.policy) && none == []
    ensures Entering(Run(o, body, none).0, 1) && LawfulRun(o, body, none) && HandedFor(o, body, none, 1) == {}
  {
    assert Starts({}) == {};
  }
}
