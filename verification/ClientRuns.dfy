/** The client over whole runs: the ledger theorem, what follows from it, and exactly when a snapshot
    call keeps it. */
module ClientRuns {
  import opened Errors
  import opened Ranges
  import opened GapSets
  import opened Clients
  import opened ClientLedgers
  import Arbiters
  import Policies = RetransmitPolicies
  import Requesters
  import Trackers = GapTrackers

  datatype Event =
    | Packet(session: nat, first: nat, count: nat, digest: nat, now: int)
    | Refusal(range: Range, why: Error)
    | PollAt(now: int)
    | Snapshot(session: nat, at: nat)
    | Finish

  ghost function Step(o: Options, body: Bodies, c: State, e: Event): State
    requires Policies.Valid(o.policy)
  {
    match e
    case Packet(session, first, count, digest, now) => Offer(o, body, c, session, first, count, digest, now).0
    case Refusal(range, why) => OnRetransmitRefused(c, range, why).0
    case PollAt(now) => Poll(o, c, now).0
    case Snapshot(session, at) => OnSnapshot(c, session, at).0
    case Finish => FinishReplay(c).0
  }

  ghost function Book(o: Options, body: Bodies, c: State, l: Ledger, e: Event): Ledger
    requires Policies.Valid(o.policy)
  {
    match e
    case Packet(session, first, count, digest, now) =>
      var (mid, result) := OnPacket(o, c, session, first, count, digest, now);
      AfterPacket(c, l, session, first, mid, result)
    case Snapshot(session, at) => AfterSnapshot(c, l, session, at)
    case Finish => AfterFinish(c, l)
    case _ => l
  }

  ghost predicate Lawful(c: State, e: Event) {
    e.Snapshot? ==> LawfulSnapshot(c, e.session, e.at)
  }

  ghost function Run(o: Options, body: Bodies, events: seq<Event>): (State, Ledger)
    requires Policies.Valid(o.policy)
  {
    if events == [] then (NEW_CLIENT, NO_LEDGER)
    else
      var (c, l) := Run(o, body, events[..|events| - 1]);
      (Step(o, body, c, events[|events| - 1]), Book(o, body, c, l, events[|events| - 1]))
  }

  /** Every snapshot of the run was checked before it was handed over. */
  ghost predicate LawfulRun(o: Options, body: Bodies, events: seq<Event>)
    requires Policies.Valid(o.policy)
  {
    events != [] ==>
      && LawfulRun(o, body, events[..|events| - 1])
      && Lawful(Run(o, body, events[..|events| - 1]).0, events[|events| - 1])
  }

  lemma StepKeeps(o: Options, body: Bodies, c: State, l: Ledger, e: Event)
    requires Sane(o, body, c, l) && Lawful(c, e)
    ensures Sane(o, body, Step(o, body, c, e), Book(o, body, c, l, e))
  {
    match e
    case Packet(session, first, count, digest, now) => OfferKeeps(o, body, c, l, session, first, count, digest, now);
    case Refusal(range, why) => RefusedKeeps(o, body, c, l, range, why);
    case PollAt(now) => PollKeeps(o, body, c, l, now);
    case Snapshot(session, at) => SnapshotKeeps(o, body, c, l, session, at);
    case Finish => FinishKeeps(o, body, c, l);
  }

  lemma {:induction false} RunKeeps(o: Options, body: Bodies, events: seq<Event>)
    requires Policies.Valid(o.policy) && LawfulRun(o, body, events)
    ensures Sane(o, body, Run(o, body, events).0, Run(o, body, events).1)
  {
    if events == [] {
      assert Starts({}) == {};
    } else {
      RunKeeps(o, body, events[..|events| - 1]);
      var (c, l) := Run(o, body, events[..|events| - 1]);
      StepKeeps(o, body, c, l, events[|events| - 1]);
    }
  }

  /** Every message once or recorded as missing. At any live point of any run (loss, duplication,
      reordering, refused calls, escalations, snapshots, session changes) the sets handed downstream since
      the session was last joined are pairwise disjoint, the repaired and the new part of one packet
      included. Those handed over since the era began, by joining or by the last snapshot applied, are with
      the holes exactly the numbers from its start to the expectation; those handed over before lie below
      it. Earlier stays in the session are the subject of Rejoining.dfy. */
  lemma EveryMessageOnceOrMissing(o: Options, body: Bodies, events: seq<Event>)
    requires Policies.Valid(o.policy) && LawfulRun(o, body, events)
    requires Run(o, body, events).0.phase == Live
    ensures var (c, l) := Run(o, body, events);
            && PairwiseDisjoint(l.Session())
            && Requesters.Below(All(l.earlier), l.base)
            && All(l.handed) !! c.channel.missing
            && All(l.handed) + c.channel.missing == Span(Range(l.base, c.channel.expected))
            && c.arbiter.watermark == c.channel.expected
  {
    RunKeeps(o, body, events);
  }

  /** Requests name only missing messages, and while the client is live every missing message is being
      asked for. */
  lemma RequestsNameOnlyMissing(o: Options, body: Bodies, events: seq<Event>, now: int)
    requires Policies.Valid(o.policy) && LawfulRun(o, body, events)
    ensures var c := Run(o, body, events).0;
            var d := Poll(o, c, now).1;
            && (d.SendRequest? ==> Requesters.FitsRequest(o.policy, d.range) && Span(d.range) <= c.channel.missing)
            && (c.phase == Live ==> Requesters.Cover(c.entries) == c.channel.missing)
  {
    RunKeeps(o, body, events);
    PollKeeps(o, body, Run(o, body, events).0, Run(o, body, events).1, now);
  }

  // ---- failure and progress ----------------------------------------------------------------

  /** Failure is absorbing, and a failed client keeps saying so. */
  lemma FailureIsFinal(o: Options, body: Bodies, c: State, e: Event, now: int)
    requires Policies.Valid(o.policy) && c.phase.Failed?
    ensures Step(o, body, c, e) == c
    ensures Poll(o, c, now).1 == Restart(c.phase.why)
  {}

  /** Within a session the delivery position never goes back, lawful snapshot or not. */
  lemma DeliveryNeverRetreats(o: Options, body: Bodies, c: State, e: Event)
    requires Policies.Valid(o.policy)
    ensures c.started && Step(o, body, c, e).session == c.session ==> c.deliveredBefore <= Step(o, body, c, e).deliveredBefore
  {
    match e
    case Packet(session, first, count, digest, now) => PacketAdvances(o, body, c, e);
    case Refusal(range, why) => assert Step(o, body, c, e) == OnRetransmitRefused(c, range, why).0;
    case PollAt(now) => assert Step(o, body, c, e) == Poll(o, c, now).0;
    case Snapshot(session, at) => SnapshotAdvances(c, session, at);
    case Finish => assert Step(o, body, c, e) == FinishReplay(c).0;
  }

  lemma SnapshotAdvances(c: State, session: nat, at: nat)
    ensures c.started && OnSnapshot(c, session, at).0.session == c.session ==> c.deliveredBefore <= OnSnapshot(c, session, at).0.deliveredBefore
  {}

  lemma PacketAdvances(o: Options, body: Bodies, c: State, e: Event)
    requires Policies.Valid(o.policy) && e.Packet?
    ensures Step(o, body, c, e).session == c.session ==> c.deliveredBefore <= Step(o, body, c, e).deliveredBefore
  {
    var (mid, result) := OnPacket(o, c, e.session, e.first, e.count, e.digest, e.now);
    if Listening(c) {
      OnPacketArbitrates(o, c, e.session, e.first, e.count, e.digest, e.now);
      ArbitratedAdvances(o, Current(c, e.session), e.session, SessionChanges(c, e.session),
                         Range(e.first, e.first + e.count), e.digest, e.now);
    }
    if result.Ok? && result.value.held && mid.phase == Recovering {
      BufferingOnly(o, mid, result.value.accepted.first, result.value.accepted.end, body);
    }
  }

  lemma ArbitratedAdvances(o: Options, c: State, session: nat, changed: bool, arrived: Range, digest: nat, now: int)
    requires Policies.Valid(o.policy)
    ensures var after := Arbitrated(o, c, session, changed, arrived, digest, now).0;
            c.deliveredBefore <= after.deliveredBefore && (after.session == session || after.session == c.session)
  {
    var (position, merged) := Arbiters.Offered(o.detect, c.arbiter, arrived, digest);
    if merged.Ok? {
      var noted := Noted(c, position, session, if changed then {} else c.channel.missing * Span(arrived));
      SequencedAdvances(o, noted, arrived, merged.value, now);
    }
  }

  lemma SequencedAdvances(o: Options, c: State, arrived: Range, merged: Arbiters.Merged, now: int)
    requires Policies.Valid(o.policy)
    ensures var after := Sequenced(o, c, arrived, merged, now).0;
            c.deliveredBefore <= after.deliveredBefore && after.session == c.session
  {
    var (channel, seen) := Trackers.Observed(c.channel, c.session, arrived.first, arrived.Count());
    assert Sequenced(o, c, arrived, merged, now) == Answered(o, c, channel, seen, merged, now);
  }

  lemma {:induction false} BufferingOnly(o: Options, c: State, from: nat, end: nat, body: Bodies)
    requires c.phase == Recovering
    ensures var after := BufferAll(o, c, from, end, body); after == c.(phase := after.phase, buffer := after.buffer)
    decreases end - from
  {
    if from < end {
      var next := BufferMessage(o, c, from, body(from)).0;
      if next.phase == Recovering {
        BufferingOnly(o, next, from + 1, end, body);
      }
    }
  }

  /** While recovering accepted packets are held and every poll repeats the same request for the same reason,
      until a snapshot, a failure, another escalation or a new session. */
  lemma RecoveryKeepsAsking(o: Options, body: Bodies, c: State, e: Event, now: int)
    requires Policies.Valid(o.policy) && c.phase == Recovering
    requires e.Packet? ==> !SessionChanges(c, e.session) && OnPacket(o, c, e.session, e.first, e.count, e.digest, e.now).1.Ok?
    requires e.Refusal? ==> !e.why.IsFatal()
    requires !e.Snapshot?
    ensures Step(o, body, c, e).phase.Failed? || Poll(o, Step(o, body, c, e), now).1 == RequestSnapshot(c.wanted, c.reason)
  {
    match e
    case Packet(session, first, count, digest, t) =>
      HeldPacket(o, c, session, first, count, digest, t);
      var (mid, result) := OnPacket(o, c, session, first, count, digest, t);
      if result.value.held {
        BufferingOnly(o, mid, result.value.accepted.first, result.value.accepted.end, body);
        NeverResumes(o, mid, result.value.accepted.first, result.value.accepted.end, body);
      }
    case Refusal(range, why) => assert Step(o, body, c, e) == c;
    case PollAt(t) => assert Step(o, body, c, e) == c;
    case Finish => assert Step(o, body, c, e) == c;
  }

  lemma HeldPacket(o: Options, c: State, session: nat, first: nat, count: nat, digest: nat, now: int)
    requires Policies.Valid(o.policy) && c.phase == Recovering && !SessionChanges(c, session)
    requires OnPacket(o, c, session, first, count, digest, now).1.Ok?
    ensures StillRecovering(c, OnPacket(o, c, session, first, count, digest, now).0)
  {
    OnPacketArbitrates(o, c, session, first, count, digest, now);
    HeldOnceArbitrated(o, c, session, Range(first, first + count), digest, now);
  }

  ghost predicate StillRecovering(c: State, after: State) {
    after.phase == Recovering && after.wanted == c.wanted && after.reason == c.reason
  }

  lemma HeldOnceArbitrated(o: Options, c: State, session: nat, arrived: Range, digest: nat, now: int)
    requires Policies.Valid(o.policy) && c.phase == Recovering
    requires Arbitrated(o, c, session, false, arrived, digest, now).1.Ok?
    ensures StillRecovering(c, Arbitrated(o, c, session, false, arrived, digest, now).0)
  {
    var (position, merged) := Arbiters.Offered(o.detect, c.arbiter, arrived, digest);
    if merged.Ok? {
      HeldOnceSequenced(o, Noted(c, position, session, c.channel.missing * Span(arrived)), arrived, merged.value, now);
    }
  }

  lemma HeldOnceSequenced(o: Options, c: State, arrived: Range, merged: Arbiters.Merged, now: int)
    requires Policies.Valid(o.policy) && c.phase == Recovering
    ensures var (after, result) := Sequenced(o, c, arrived, merged, now);
            result.Ok? ==> StillRecovering(c, after)
  {
    var (channel, seen) := Trackers.Observed(c.channel, c.session, arrived.first, arrived.Count());
    assert Sequenced(o, c, arrived, merged, now) == Answered(o, c, channel, seen, merged, now);
  }

  lemma {:induction false} NeverResumes(o: Options, c: State, from: nat, end: nat, body: Bodies)
    requires c.phase == Recovering
    ensures BufferAll(o, c, from, end, body).phase == Recovering || BufferAll(o, c, from, end, body).phase.Failed?
    decreases end - from
  {
    if from < end {
      var next := BufferMessage(o, c, from, body(from)).0;
      if next.phase == Recovering {
        NeverResumes(o, next, from + 1, end, body);
      }
    }
  }

  /** Nothing the client holds or claims lies beyond what its feed and its snapshots reached. */
  ghost predicate Within(c: State, bound: nat) {
    && c.arbiter.watermark <= bound && c.channel.expected <= bound && c.deliveredBefore <= bound
    && c.buffer.End() <= bound
  }

  ghost predicate Reaches(e: Event, bound: nat) {
    match e
    case Packet(session, first, count, digest, now) => first + count <= bound
    case Snapshot(session, at) => at <= bound
    case _ => true
  }

  /** The client never claims to have delivered, nor expects, what was never published. */
  lemma NothingBeyondTheFeed(o: Options, body: Bodies, c: State, e: Event, bound: nat)
    requires Policies.Valid(o.policy) && Trackers.WellFormed(c.channel)
    requires Within(c, bound) && Reaches(e, bound)
    ensures Within(Step(o, body, c, e), bound)
  {
    match e
    case Packet(session, first, count, digest, now) => PacketWithin(o, body, c, e, bound);
    case Refusal(range, why) => assert Step(o, body, c, e) == OnRetransmitRefused(c, range, why).0;
    case PollAt(now) => assert Step(o, body, c, e) == Poll(o, c, now).0;
    case Snapshot(session, at) => SnapshotWithin(c, session, at, bound);
    case Finish => assert Step(o, body, c, e) == FinishReplay(c).0;
  }

  lemma SnapshotWithin(c: State, session: nat, at: nat, bound: nat)
    requires Within(c, bound) && at <= bound
    ensures Within(OnSnapshot(c, session, at).0, bound)
  {}

  lemma PacketWithin(o: Options, body: Bodies, c: State, e: Event, bound: nat)
    requires Policies.Valid(o.policy) && Trackers.WellFormed(c.channel) && e.Packet?
    requires Within(c, bound) && Reaches(e, bound)
    ensures Within(Step(o, body, c, e), bound)
  {
    var (mid, result) := OnPacket(o, c, e.session, e.first, e.count, e.digest, e.now);
    OnPacketWithin(o, c, e, bound);
    if result.Ok? && result.value.held && mid.phase == Recovering {
      BufferedWithin(o, mid, result.value.accepted.first, result.value.accepted.end, body, bound);
    }
  }

  lemma OnPacketWithin(o: Options, c: State, e: Event, bound: nat)
    requires Policies.Valid(o.policy) && Trackers.WellFormed(c.channel) && e.Packet?
    requires Within(c, bound) && Reaches(e, bound)
    ensures AnswerWithin(OnPacket(o, c, e.session, e.first, e.count, e.digest, e.now), bound)
  {
    if Listening(c) {
      CurrentWithin(c, e.session, bound);
      HeardWithin(o, c, Current(c, e.session), e.session, e.first, e.count, e.digest, e.now, bound);
    } else {
      NotListening(o, c, e.session, e.first, e.count, e.digest, e.now);
    }
  }

  lemma OnPacketContinues(o: Options, c: State, session: nat, first: nat, count: nat, digest: nat, now: int)
    requires Policies.Valid(o.policy) && Listening(c) && !SessionChanges(c, session)
    ensures OnPacket(o, c, session, first, count, digest, now) ==
            Arbitrated(o, c, session, false, Range(first, first + count), digest, now)
  {}

  ghost predicate AnswerWithin(answer: (State, Result<Report>), bound: nat) {
    Within(answer.0, bound) && (answer.1.Ok? ==> answer.1.value.accepted.end <= bound)
  }

  lemma NotListening(o: Options, c: State, session: nat, first: nat, count: nat, digest: nat, now: int)
    requires Policies.Valid(o.policy) && !Listening(c)
    ensures OnPacket(o, c, session, first, count, digest, now).0 == c && OnPacket(o, c, session, first, count, digest, now).1.Err?
  {}

  lemma CurrentWithin(c: State, session: nat, bound: nat)
    requires Within(c, bound)
    ensures Within(Current(c, session), bound) && Current(c, session).channel == c.channel
  {}

  lemma HeardWithin(o: Options, c: State, current: State, session: nat, first: nat, count: nat, digest: nat, now: int, bound: nat)
    requires Policies.Valid(o.policy) && Listening(c) && current == Current(c, session)
    requires Trackers.WellFormed(current.channel) && Within(current, bound) && first + count <= bound
    ensures AnswerWithin(OnPacket(o, c, session, first, count, digest, now), bound)
  {
    OnPacketArbitrates(o, c, session, first, count, digest, now);
    ArbitratedWithin(o, current, session, SessionChanges(c, session), Range(first, first + count), digest, now, bound);
  }

  lemma OnPacketArbitrates(o: Options, c: State, session: nat, first: nat, count: nat, digest: nat, now: int)
    requires Policies.Valid(o.policy) && Listening(c)
    ensures OnPacket(o, c, session, first, count, digest, now) ==
            Arbitrated(o, Current(c, session), session, SessionChanges(c, session), Range(first, first + count), digest, now)
  {}

  lemma ArbitratedWithin(o: Options, c: State, session: nat, changed: bool, arrived: Range, digest: nat, now: int, bound: nat)
    requires Policies.Valid(o.policy) && Trackers.WellFormed(c.channel) && Within(c, bound)
    requires arrived.first <= arrived.end <= bound
    ensures AnswerWithin(Arbitrated(o, c, session, changed, arrived, digest, now), bound)
  {
    var (position, merged) := Arbiters.Offered(o.detect, c.arbiter, arrived, digest);
    if merged.Ok? {
      Arbiters.FirstCopyWins(o.detect, c.arbiter, arrived, digest);
      DeliverBounds(c.arbiter.watermark, arrived, merged.value.deliver);
      var noted := Noted(c, position, session, if changed then {} else c.channel.missing * Span(arrived));
      SequencedWithin(o, noted, arrived, merged.value, now, bound);
    }
  }

  lemma SequencedWithin(o: Options, c: State, arrived: Range, merged: Arbiters.Merged, now: int, bound: nat)
    requires Policies.Valid(o.policy) && Trackers.WellFormed(c.channel) && Within(c, bound)
    requires arrived.first <= arrived.end <= bound && merged.deliver.end <= bound
    ensures Within(Sequenced(o, c, arrived, merged, now).0, bound)
    ensures Sequenced(o, c, arrived, merged, now).1.Ok? ==> Sequenced(o, c, arrived, merged, now).1.value.accepted == merged.deliver
  {
    if Trackers.StartsOver(c.channel, c.session) {
      Trackers.ObservedAnew(c.channel, c.session, arrived.first, arrived.Count());
    } else {
      Trackers.ObservedAgain(c.channel, c.session, arrived.first, arrived.Count(), arrived);
    }
    var (channel, seen) := Trackers.Observed(c.channel, c.session, arrived.first, arrived.Count());
    AnsweredWithin(o, c, channel, seen, merged, now, bound);
  }

  lemma AnsweredWithin(o: Options, c: State, channel: Trackers.Channel, seen: Result<Trackers.Observation>,
                       merged: Arbiters.Merged, now: int, bound: nat)
    requires Policies.Valid(o.policy) && Within(c, bound) && channel.expected <= bound && merged.deliver.end <= bound
    ensures Within(Answered(o, c, channel, seen, merged, now).0, bound)
    ensures Answered(o, c, channel, seen, merged, now).1.Ok? ==> Answered(o, c, channel, seen, merged, now).1.value.accepted == merged.deliver
  {}

  lemma {:induction false} BufferedWithin(o: Options, c: State, from: nat, end: nat, body: Bodies, bound: nat)
    requires c.phase == Recovering && Within(c, bound) && end <= bound
    ensures Within(BufferAll(o, c, from, end, body), bound)
    decreases end - from
  {
    if from < end {
      var next := BufferMessage(o, c, from, body(from)).0;
      if next.phase == Recovering {
        BufferedWithin(o, next, from + 1, end, body, bound);
      }
    }
  }
}
