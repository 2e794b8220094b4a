/** What the client's calls answer, read off the states before and after them: what a packet's report says, which
    verdict a snapshot gets and where it leaves the client, what a poll decides and what it escalates with. */
module ClientAnswers {
  import opened Errors
  import opened Ranges
  import opened GapSets
  import opened Snapshots
  import opened Clients
  import opened ClientLedgers
  import opened ClientRuns
  import Arbiters
  import Facilities = RetransmitFacilities
  import Policies = RetransmitPolicies
  import Replay = ReplayBuffers
  import Requesters
  import Trackers = GapTrackers

  // ---- a packet ---------------------------------------------------------------------------

  /** The packet was more than a plain duplicate. */
  predicate WentOn(arrived: Range, accepted: Range, repaired: set<nat>) {
    arrived.IsEmpty() || !accepted.IsEmpty() || repaired != {}
  }

  /** What a report says of the holes before and after the packet. */
  ghost predicate ReportsHoles(before: Trackers.Channel, session: nat, arrived: Range, after: State, report: Report) {
    var found, over := after.channel.missing - before.missing, Trackers.StartsOver(before, session);
    && Span(report.gapOpened) == found
    && (report.outcome == Trackers.GapOpened <==> found != {})
    && (report.outcome == Trackers.GapFilled <==> after.recovered != {})
    && (report.outcome == Trackers.Duplicate <==>
          !over && arrived.first < before.expected && after.recovered == {} && WentOn(arrived, report.accepted, after.recovered))
    && (report.outcome == Trackers.Established <==> !before.started)
    && (report.outcome == Trackers.SessionReset <==> before.started && session != before.session)
    && after.recovered == (if over then {} else before.missing * Span(arrived))
    && report.recovered == |after.recovered|
  }

  /** What it says of the messages: which are new, and whether they are held for replay. */
  ghost predicate ReportsMessages(c: State, session: nat, arrived: Range, after: State, report: Report) {
    var recovering := c.phase == Recovering && !SessionChanges(c, session);
    && Span(report.accepted) == (if NewEra(c, session) then Span(arrived) else AtLeast(Span(arrived), c.arbiter.watermark))
    && (report.merge == Arbiters.Deliver <==> report.accepted == arrived && !arrived.IsEmpty())
    && (report.merge == Arbiters.Duplicate <==> report.accepted.IsEmpty())
    && (report.held <==> recovering && WentOn(arrived, report.accepted, after.recovered))
    && after.phase == (if recovering then Recovering else Live)
    && after.deliveredBefore == Trackers.Max(if SessionChanges(c, session) then 0 else c.deliveredBefore,
                                             if report.held then 0 else report.accepted.end)
    && after.started && after.session == session
  }

  /** The report as the pieces make it. */
  ghost predicate Made(c: State, channel: Trackers.Channel, seen: Trackers.Observation, merged: Arbiters.Merged, after: State, report: Report) {
    && after.channel == channel && after.recovered == c.recovered && after.session == c.session && after.started == c.started
    && report.merge == merged.outcome && report.accepted == merged.deliver
    && report.outcome == seen.outcome && report.recovered == |c.recovered|
    && report.gapOpened == (if seen.outcome == Trackers.GapOpened then seen.range else EMPTY)
    && after.phase == (if c.phase == Synchronising then Live else c.phase)
    && (report.held <==> c.phase == Recovering)
    && after.deliveredBefore == (if report.held then c.deliveredBefore else Trackers.Max(c.deliveredBefore, merged.deliver.end))
  }

  lemma AnsweredMakes(o: Options, c: State, channel: Trackers.Channel, seen: Result<Trackers.Observation>, merged: Arbiters.Merged,
                      now: int, after: State, report: Report)
    requires Policies.Valid(o.policy) && (after, Ok(report)) == Answered(o, c, channel, seen, merged, now)
    ensures after.channel == channel && seen.Ok? && Made(c, channel, seen.value, merged, after, report)
  {}

  lemma SequencedIsAnswered(o: Options, c: State, arrived: Range, merged: Arbiters.Merged, now: int, channel: Trackers.Channel,
                            observed: Result<Trackers.Observation>, answer: (State, Result<Report>))
    requires Policies.Valid(o.policy) && answer == Sequenced(o, c, arrived, merged, now)
    requires (channel, observed) == Trackers.Observed(c.channel, c.session, arrived.first, arrived.Count())
    ensures answer == Answered(o, c, channel, observed, merged, now)
  {}

  lemma SequencedSays(o: Options, c: State, arrived: Range, merged: Arbiters.Merged, now: int, after: State, report: Report)
    returns (seen: Trackers.Observation)
    requires Policies.Valid(o.policy) && Trackers.WellFormed(c.channel) && arrived.first <= arrived.end
    requires (after, Ok(report)) == Sequenced(o, c, arrived, merged, now)
    ensures Made(c, after.channel, seen, merged, after, report)
    ensures Trackers.Says(c.channel, c.session, arrived, after.channel, seen)
  {
    var (channel, observed) := Trackers.Observed(c.channel, c.session, arrived.first, arrived.Count());
    SequencedIsAnswered(o, c, arrived, merged, now, channel, observed, (after, Ok(report)));
    AnsweredMakes(o, c, channel, observed, merged, now, after, report);
    seen := observed.value;
    Trackers.ObservationSays(c.channel, c.session, arrived, channel, seen);
  }

  lemma HolesOf(c: State, session: nat, arrived: Range, seen: Trackers.Observation, merged: Arbiters.Merged, after: State, report: Report)
    requires Made(c, after.channel, seen, merged, after, report) && Trackers.Says(c.channel, session, arrived, after.channel, seen)
    requires c.recovered == (if Trackers.StartsOver(c.channel, session) then {} else c.channel.missing * Span(arrived))
    requires WentOn(arrived, report.accepted, after.recovered)
    ensures ReportsHoles(c.channel, session, arrived, after, report)
  {}

  lemma MessagesOf(c: State, session: nat, arrived: Range, position: Arbiters.Position, merged: Arbiters.Merged,
                   noted: State, seen: Trackers.Observation, after: State, report: Report)
    requires Made(noted, after.channel, seen, merged, after, report) && WentOn(arrived, report.accepted, after.recovered)
    requires noted.phase == Current(c, session).phase && noted.deliveredBefore == Current(c, session).deliveredBefore
    requires noted.started && noted.session == session && !c.phase.Failed? && c.phase != Replaying
    requires MergesRight(merged, arrived)
    requires Span(merged.deliver) == if NewEra(c, session) then Span(arrived) else AtLeast(Span(arrived), c.arbiter.watermark)
    ensures ReportsMessages(c, session, arrived, after, report)
  {}

  predicate MergesRight(merged: Arbiters.Merged, arrived: Range) {
    && (merged.outcome == Arbiters.Deliver <==> merged.deliver == arrived && !arrived.IsEmpty())
    && (merged.outcome == Arbiters.Duplicate <==> merged.deliver.IsEmpty())
  }

  /** The packet that joins a session, or begins one. */
  lemma JoiningAnswers(o: Options, c: State, l: Ledger, session: nat, arrived: Range, digest: nat, now: int, after: State, report: Report)
    requires Inv(o, c, l) && Listening(c) && NewEra(c, session) && arrived.first <= arrived.end
    requires (after, Ok(report)) == Arbitrated(o, Current(c, session), session, SessionChanges(c, session), arrived, digest, now)
    ensures ReportsHoles(c.channel, session, arrived, after, report) && ReportsMessages(c, session, arrived, after, report)
  {
    var current := Current(c, session);
    var (position, merged) := Arbiters.Offered(o.detect, current.arbiter, arrived, digest);
    NewEraIsClean(o, c, l, session);
    FirstPacketIsNew(o, current.arbiter, arrived, digest);
    Arbiters.FirstCopyWins(o.detect, current.arbiter, arrived, digest);
    var noted := Noted(current, position, session, if SessionChanges(c, session) then {} else current.channel.missing * Span(arrived));
    assert noted.recovered == {};
    assert (after, Ok(report)) == Sequenced(o, noted, arrived, merged.value, now);
    var seen := SequencedSays(o, noted, arrived, merged.value, now, after, report);
    HolesOf(noted, session, arrived, seen, merged.value, after, report);
    MessagesOf(c, session, arrived, position, merged.value, noted, seen, after, report);
  }

  /** A packet of the current era. */
  lemma ContinuingAnswers(o: Options, c: State, l: Ledger, session: nat, arrived: Range, digest: nat, now: int, after: State, report: Report)
    requires Inv(o, c, l) && Listening(c) && !NewEra(c, session) && arrived.first <= arrived.end
    requires (after, Ok(report)) == Arbitrated(o, c, session, false, arrived, digest, now)
    ensures ReportsHoles(c.channel, session, arrived, after, report) && ReportsMessages(c, session, arrived, after, report)
  {
    var position, merged := ArbiterTook(o, c, session, arrived, digest, now, after, report);
    JudgedAnswers(o, c, session, arrived, position, merged, now, after, report);
  }

  lemma ArbiterTook(o: Options, c: State, session: nat, arrived: Range, digest: nat, now: int, after: State, report: Report)
    returns (position: Arbiters.Position, merged: Arbiters.Merged)
    requires Policies.Valid(o.policy) && (after, Ok(report)) == Arbitrated(o, c, session, false, arrived, digest, now)
    ensures (after, Ok(report)) == Judged(o, Noted(c, position, session, c.channel.missing * Span(arrived)), arrived, merged, now)
    ensures MergesRight(merged, arrived) && Span(merged.deliver) == AtLeast(Span(arrived), c.arbiter.watermark)
    ensures merged.deliver.IsEmpty() ==> merged.deliver == EMPTY
  {
    position := Arbiters.Offered(o.detect, c.arbiter, arrived, digest).0;
    merged := Arbiters.Offered(o.detect, c.arbiter, arrived, digest).1.value;
    Arbiters.FirstCopyWins(o.detect, c.arbiter, arrived, digest);
  }

  lemma JudgedAnswers(o: Options, c: State, session: nat, arrived: Range, position: Arbiters.Position, merged: Arbiters.Merged,
                      now: int, after: State, report: Report)
    requires Policies.Valid(o.policy) && Trackers.WellFormed(c.channel) && Joined(c) && Listening(c) && !NewEra(c, session)
    requires arrived.first <= arrived.end && MergesRight(merged, arrived)
    requires Span(merged.deliver) == AtLeast(Span(arrived), c.arbiter.watermark) && (merged.deliver.IsEmpty() ==> merged.deliver == EMPTY)
    requires (after, Ok(report)) == Judged(o, Noted(c, position, session, c.channel.missing * Span(arrived)), arrived, merged, now)
    ensures ReportsHoles(c.channel, session, arrived, after, report) && ReportsMessages(c, session, arrived, after, report)
  {
    var noted := Noted(c, position, session, c.channel.missing * Span(arrived));
    if !WentOn(arrived, merged.deliver, noted.recovered) {
      PlainAnswers(c, session, arrived, position, merged, after, report);
    } else {
      assert (after, Ok(report)) == Sequenced(o, noted, arrived, merged, now);
      SequencedAnswers(o, c, session, arrived, position, merged, noted, now, after, report);
    }
  }

  lemma SequencedAnswers(o: Options, c: State, session: nat, arrived: Range, position: Arbiters.Position, merged: Arbiters.Merged,
                         noted: State, now: int, after: State, report: Report)
    requires Policies.Valid(o.policy) && Trackers.WellFormed(c.channel) && Joined(c) && Listening(c) && !NewEra(c, session)
    requires arrived.first <= arrived.end && MergesRight(merged, arrived)
    requires Span(merged.deliver) == AtLeast(Span(arrived), c.arbiter.watermark)
    requires noted == Noted(c, position, session, c.channel.missing * Span(arrived)) && WentOn(arrived, merged.deliver, noted.recovered)
    requires (after, Ok(report)) == Sequenced(o, noted, arrived, merged, now)
    ensures ReportsHoles(c.channel, session, arrived, after, report) && ReportsMessages(c, session, arrived, after, report)
  {
    var seen := SequencedSays(o, noted, arrived, merged, now, after, report);
    HolesOf(noted, session, arrived, seen, merged, after, report);
    MessagesOf(c, session, arrived, position, merged, noted, seen, after, report);
  }

  lemma PlainAnswers(c: State, session: nat, arrived: Range, position: Arbiters.Position, merged: Arbiters.Merged, after: State, report: Report)
    requires Joined(c) && Listening(c) && !NewEra(c, session) && MergesRight(merged, arrived) && merged.deliver == EMPTY
    requires Span(merged.deliver) == AtLeast(Span(arrived), c.arbiter.watermark)
    requires !WentOn(arrived, merged.deliver, c.channel.missing * Span(arrived))
    requires after == Noted(c, position, session, c.channel.missing * Span(arrived))
    requires report == Report(merged.outcome, merged.deliver, Trackers.InOrder, EMPTY, 0, false)
    ensures ReportsHoles(c.channel, session, arrived, after, report) && ReportsMessages(c, session, arrived, after, report)
  {
    PredicatesMeanSets(EMPTY, EMPTY);
    assert c.channel.missing - c.channel.missing == {};
  }

  /** Whatever packet a healthy client accepts, its report says exactly what became of the holes and the messages. */
  lemma PacketAnswers(o: Options, c: State, l: Ledger, session: nat, first: nat, count: nat, digest: nat, now: int)
    requires Inv(o, c, l) && OnPacket(o, c, session, first, count, digest, now).1.Ok?
    ensures var (after, result) := OnPacket(o, c, session, first, count, digest, now);
            var arrived := Range(first, first + count);
            ReportsHoles(c.channel, session, arrived, after, result.value) && ReportsMessages(c, session, arrived, after, result.value)
  {
    var (after, result) := OnPacket(o, c, session, first, count, digest, now);
    OnPacketArbitrates(o, c, session, first, count, digest, now);
    if NewEra(c, session) {
      JoiningAnswers(o, c, l, session, Range(first, first + count), digest, now, after, result.value);
    } else {
      ContinuingAnswers(o, c, l, session, Range(first, first + count), digest, now, after, result.value);
    }
  }

  /** A packet is refused by a failed client, by one that owes a replay, for contradicting what is remembered, or for
      want of room; the third fails the client and the last leaves it waiting for a snapshot of everything. */
  lemma RefusedPacket(o: Options, c: State, session: nat, first: nat, count: nat, digest: nat, now: int)
    requires Policies.Valid(o.policy) && OnPacket(o, c, session, first, count, digest, now).1.Err?
    ensures var (after, result) := OnPacket(o, c, session, first, count, digest, now);
            if c.phase.Failed? then after == c && result.error == c.phase.why
            else if c.phase == Replaying then after == c && result.error == InvalidArgument
            else if o.detect && Arbiters.Conflicts(Current(c, session).arbiter.recent, Range(first, first + count), digest)
            then after.phase == Failed(LinesDiverged) && result.error == LinesDiverged
            else
              && result.error == CapacityExceeded && after.phase == Recovering && after.reason == Some(CapacityExceeded)
              && after.wanted == EMPTY && after.buffer == Replay.NOTHING_HELD
  {
    if Listening(c) {
      OnPacketArbitrates(o, c, session, first, count, digest, now);
      RefusedArrival(o, Current(c, session), session, SessionChanges(c, session), Range(first, first + count), digest, now);
    }
  }

  lemma RefusedArrival(o: Options, c: State, session: nat, changed: bool, arrived: Range, digest: nat, now: int)
    requires Policies.Valid(o.policy) && Arbitrated(o, c, session, changed, arrived, digest, now).1.Err?
    ensures var (after, result) := Arbitrated(o, c, session, changed, arrived, digest, now);
            if o.detect && Arbiters.Conflicts(c.arbiter.recent, arrived, digest)
            then after.phase == Failed(LinesDiverged) && result.error == LinesDiverged
            else
              && result.error == CapacityExceeded && after.phase == Recovering && after.reason == Some(CapacityExceeded)
              && after.wanted == EMPTY && after.buffer == Replay.NOTHING_HELD
  {
    var (position, merged) := Arbiters.Offered(o.detect, c.arbiter, arrived, digest);
    if merged.Ok? {
      var noted := Noted(c, position, session, if changed then {} else c.channel.missing * Span(arrived));
      RefusedSequence(o, noted, arrived, merged.value, now);
    }
  }

  lemma RefusedSequence(o: Options, c: State, arrived: Range, merged: Arbiters.Merged, now: int)
    requires Policies.Valid(o.policy)
    ensures var (after, result) := Sequenced(o, c, arrived, merged, now);
            result.Err? ==>
              && result.error == CapacityExceeded && after.phase == Recovering && after.reason == Some(CapacityExceeded)
              && after.wanted == EMPTY && after.buffer == Replay.NOTHING_HELD
  {
    var (channel, seen) := Trackers.Observed(c.channel, c.session, arrived.first, arrived.Count());
    assert Sequenced(o, c, arrived, merged, now) == Answered(o, c, channel, seen, merged, now);
  }

  // ---- a snapshot ---------------------------------------------------------------------------

  /** Where the client stands towards a session: a new one begins at nothing. */
  function DeliveredIn(c: State, session: nat): nat { if SessionChanges(c, session) then 0 else c.deliveredBefore }

  /** A snapshot that covers no more than was delivered is stale, and within the session it changes nothing; any other
      is not stale. */
  lemma StaleExactly(c: State, session: nat, at: nat)
    requires !c.phase.Failed?
    ensures var (after, result) := OnSnapshot(c, session, at);
            && result.Ok?
            && (result.value.verdict == Stale <==> at <= DeliveredIn(c, session))
            && (result.value.verdict == Stale ==>
                  && result.value.resumeFrom == DeliveredIn(c, session)
                  && (SessionChanges(c, session) ==> after.phase == Synchronising && after.session == session && after.channel == c.channel)
                  && (!SessionChanges(c, session) ==> after == c))
  {}

  /** A usable snapshot leaves the client live when nothing buffered lies at or above it, otherwise with exactly that
      to replay; nothing is wanted any more and no reason kept. */
  lemma UsableSnapshot(c: State, session: nat, at: nat)
    requires !c.phase.Failed? && OnSnapshot(c, session, at).1.value.verdict == Usable
    ensures var (after, result) := OnSnapshot(c, session, at);
            var ahead := if SessionChanges(c, session) then {} else AtLeast(Span(c.buffer.Buffered()), at);
            && after.phase == (if ahead == {} then Live else Replaying)
            && Span(result.value.replay) == ahead
            && after.deliveredBefore == result.value.resumeFrom == after.arbiter.watermark
            && (ahead == {} ==> result.value.resumeFrom == at)
            && after.started && after.session == session && after.reason == None && after.wanted == EMPTY
  {
    var held := Current(c, session).buffer.Buffered();
    PredicatesMeanSets(held, EMPTY);
    SnapshotAhead(at, held, Current(c, session).deliveredBefore);
  }

  lemma SnapshotAhead(at: nat, held: Range, delivered: nat)
    requires PlanSnapshot(at, held, delivered).verdict == Usable
    ensures var plan := PlanSnapshot(at, held, delivered);
            && Span(plan.replay) == AtLeast(Span(held), at)
            && (plan.replay.IsEmpty() <==> AtLeast(Span(held), at) == {})
            && (plan.replay.IsEmpty() ==> plan.resumeFrom == at)
  {
    var plan := PlanSnapshot(at, held, delivered);
    PredicatesMeanSets(plan.replay, EMPTY);
    PredicatesMeanSets(held, EMPTY);
    assert Span(plan.replay) == AtLeast(Span(held), at);
  }

  /** A failed client takes no snapshot. */
  lemma SnapshotOfTheFailed(c: State, session: nat, at: nat)
    requires c.phase.Failed?
    ensures OnSnapshot(c, session, at) == (c, Err(c.phase.why))
  {}

  // ---- a poll -------------------------------------------------------------------------------------

  /** A client that follows the feed asks for what its requester sends, and when that gives something up it asks for a
      snapshot of it instead, giving that as the reason, and from then on says so at every poll. */
  lemma PollAnswers(o: Options, c: State, now: int, later: int)
    requires Policies.Valid(o.policy) && (c.phase == Live || c.phase == Synchronising)
    ensures var (after, decision) := Poll(o, c, now);
            match Requesters.AfterPoll(o.policy, c.entries, now).decision
            case Idle => decision == Idle && after == c
            case Send(range, attempt) => decision == SendRequest(range, attempt) && after == c.(entries := after.entries)
            case Abandon(range, why) =>
              && decision == RequestSnapshot(range, Some(why)) == Poll(o, after, later).1
              && after.phase == Recovering && after.buffer == Replay.NOTHING_HELD
              && after.channel == c.channel && after.arbiter == c.arbiter && after.deliveredBefore == c.deliveredBefore
  {}

  /** Any other only says what it is waiting for. */
  lemma WaitingPollAnswers(o: Options, c: State, now: int)
    requires Policies.Valid(o.policy) && c.phase != Live && c.phase != Synchronising
    ensures Poll(o, c, now) ==
            (c, if c.phase.Failed? then Restart(c.phase.why)
                else if c.phase == Replaying then Idle
                else RequestSnapshot(c.wanted, c.reason))
  {}

  // ---- refusals, buffering and replay ---------------------------------------------------------------

  /** A refusal that asking again cannot cure makes the client ask for a snapshot of the range; another changes nothing. */
  lemma RefusalAnswers(o: Options, c: State, range: Range, why: Error, now: int)
    requires Policies.Valid(o.policy) && !c.phase.Failed?
    ensures var (after, result) := OnRetransmitRefused(c, range, why);
            && result.Ok?
            && (if why.IsFatal() then
                  && after.phase == Recovering && Poll(o, after, now).1 == RequestSnapshot(range, Some(why))
                  && after.buffer == Replay.NOTHING_HELD && after.channel == c.channel && after.entries == c.entries
                else after == c)
  {}

  /** So a request whose start has aged out of the venue's window ends in a snapshot, one that asked for too much does
      not. */
  lemma AgedOutNeedsASnapshot(o: Options, c: State, held: seq<Facilities.Packet>, wanted: Range, now: int)
    requires Policies.Valid(o.policy) && !c.phase.Failed? && Facilities.Ordered(held) && !wanted.IsEmpty()
    ensures var answer := Facilities.Served(held, wanted).result;
            && (wanted.Count() > Facilities.MAX_MESSAGES_PER_RESPONSE ==>
                  answer.Err? && OnRetransmitRefused(c, wanted, answer.error).0 == c)
            && (wanted.Count() <= Facilities.MAX_MESSAGES_PER_RESPONSE && held != [] && wanted.first < Facilities.Available(held).first ==>
                  answer.Err? && Poll(o, OnRetransmitRefused(c, wanted, answer.error).0, now).1 ==
                                 RequestSnapshot(wanted, Some(RetransmitWindowExceeded)))
  {
    Facilities.AnswerCoversWhatIsHeld(held, wanted);
  }

  /** Replaying ends live with nothing buffered; finishing what was not begun is refused. */
  lemma FinishAnswers(c: State)
    ensures var (after, result) := FinishReplay(c);
            if c.phase == Replaying then result == Ok(()) && after.phase == Live && after.buffer == Replay.NOTHING_HELD
            else result == Err(InvalidArgument) && after == c
  {}

  /** A held message the buffer cannot take fails the client for that reason; the buffer is as it was. */
  lemma BufferingAnswers(o: Options, c: State, sequence: nat, message: Replay.Bytes)
    requires c.phase == Recovering
    ensures var (after, result) := BufferMessage(o, c, sequence, message);
            var next := c.buffer.messages == [] || sequence == c.buffer.End();
            && (result.Ok? ==> after == c.(buffer := after.buffer))
            && (result.Err? ==>
                  && after == c.(phase := Failed(result.error))
                  && result.error == if next then RecoveryBufferOverflow else SequenceGap)
            && (!next && sequence < c.buffer.End() ==> after == c)
  {
    Replay.AppendAnswers(o.limits, c.buffer, sequence, message);
  }
}
