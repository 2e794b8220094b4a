/** Exactly when a snapshot may be applied, and what happens otherwise.

    Safety is stated of messages: whatever packet comes next, from whatever session, no number is handed over
    again, and none of the era is left neither handed over nor missing. Where the client takes a packet for the
    first of a session and the tracker for one more, it does harm only if it does either way. */
module SnapshotSafety {
  import opened Errors
  import opened Ranges
  import opened GapSets
  import opened Snapshots
  import opened Clients
  import opened ClientLedgers
  import opened ClientRuns
  import Arbiters
  import Policies = RetransmitPolicies
  import Replay = ReplayBuffers
  import Requesters
  import Trackers = GapTrackers

  datatype Arrival = Arrival(session: nat, first: nat, count: nat, digest: nat, now: int) {
    function Carried(): Range { Range(first, first + count) }
  }

  ghost function Received(o: Options, c: State, p: Arrival): (State, Result<Report>)
    requires Policies.Valid(o.policy)
  {
    OnPacket(o, c, p.session, p.first, p.count, p.digest, p.now)
  }

  ghost function LedgerAfter(o: Options, c: State, l: Ledger, p: Arrival): Ledger
    requires Policies.Valid(o.policy)
  {
    AfterPacket(c, l, p.session, p.first, Received(o, c, p).0, Received(o, c, p).1)
  }

  /** What was handed over and what is missing divide the era between them. */
  ghost predicate Divided(c: State, l: Ledger) {
    All(l.handed) !! c.channel.missing && All(l.handed) + c.channel.missing == Span(Range(l.base, c.channel.expected))
  }

  /** Handed over as new and as repaired at once, or handed over before in the session. */
  ghost predicate Again(l: Ledger, after: State, report: Report, n: nat) {
    || (n in Span(report.accepted) && n in after.recovered)
    || (n in Span(report.accepted) + after.recovered && n in All(l.Session()))
  }

  /** A number of the era, neither missing nor ever handed over in it. */
  ghost predicate Dropped(l: Ledger, after: State, report: Report, n: nat) {
    && l.base <= n < after.channel.expected && n !in after.channel.missing
    && n !in All(l.handed) && n !in Span(report.accepted) + after.recovered
  }

  ghost predicate Wrong(l: Ledger, after: State, report: Report) {
    exists n: nat :: Again(l, after, report, n) || Dropped(l, after, report, n)
  }

  /** The tracker takes a packet of the session for one more, whatever the client takes it for. */
  predicate TrackerContinues(c: State, session: nat) { c.channel.started && session == c.channel.session }

  /** An accepted packet that does harm, whether it begins an era or continues the one recorded. */
  ghost predicate Miscounts(o: Options, c: State, l: Ledger, p: Arrival)
    requires Policies.Valid(o.policy)
  {
    var (after, result) := Received(o, c, p);
    && result.Ok? && after.phase == Live
    && (NewEra(c, p.session) ==> Wrong(Ledger(p.first, [], []), after, result.value))
    && (!NewEra(c, p.session) || TrackerContinues(c, p.session) ==> Wrong(l, after, result.value))
  }

  /** The ledger a packet is judged by when it is what the client takes it for. */
  ghost function Judging(c: State, l: Ledger, p: Arrival): Ledger {
    if NewEra(c, p.session) then Ledger(p.first, [], []) else l
  }

  lemma RightIsNotWrong(l: Ledger, after: State, report: Report)
    requires !report.held && Span(report.accepted) !! after.recovered
    requires Handed(after, report) !! All(l.Session())
    requires Divided(after, l.(handed := l.handed + Parts(after, report)))
    ensures !Wrong(l, after, report)
  {
    AllJoin(l.handed, Parts(after, report));
    AllOfParts(after, report);
    forall n: nat ensures !Again(l, after, report, n) && !Dropped(l, after, report, n) {
      assert n in Span(Range(l.base, after.channel.expected)) <==> l.base <= n < after.channel.expected;
    }
  }

  lemma RightIsCounted(o: Options, c: State, l: Ledger, p: Arrival)
    requires Policies.Valid(o.policy)
    requires Received(o, c, p).1.Ok? ==> !Wrong(Judging(c, l, p), Received(o, c, p).0, Received(o, c, p).1.value)
    ensures !Miscounts(o, c, l, p)
  {}

  /** A snapshot call, with the replay it asks for carried out. */
  ghost function Applied(c: State, session: nat, at: nat): State {
    FinishReplay(OnSnapshot(c, session, at).0).0
  }

  ghost function AppliedLedger(c: State, l: Ledger, session: nat, at: nat): Ledger {
    AfterFinish(OnSnapshot(c, session, at).0, AfterSnapshot(c, l, session, at))
  }

  lemma ReceivedContinues(o: Options, c: State, p: Arrival, answer: (State, Result<Report>))
    requires Policies.Valid(o.policy) && Listening(c) && !SessionChanges(c, p.session)
    requires answer == Arbitrated(o, c, p.session, false, p.Carried(), p.digest, p.now)
    ensures Received(o, c, p) == answer
  {
    OnPacketContinues(o, c, p.session, p.first, p.count, p.digest, p.now);
  }

  // ---- a healthy client miscounts nothing --------------------------------------------------

  lemma HealthyCounts(o: Options, body: Bodies, c: State, l: Ledger, p: Arrival)
    requires Sane(o, body, c, l)
    ensures !Miscounts(o, c, l, p)
  {
    OfferKeeps(o, body, c, l, p.session, p.first, p.count, p.digest, p.now);
    LiveIsNotHeld(o, c, p);
    var (after, result) := Received(o, c, p);
    if result.Ok? && after.phase == Live {
      assert Balanced(after, LedgerAfter(o, c, l, p));
      LedgerIsJudging(c, l, p, after, result.value);
      HandedOnce(c, l, p, after, result.value);
      RightIsNotWrong(Judging(c, l, p), after, result.value);
    }
  }

  lemma LedgerIsJudging(c: State, l: Ledger, p: Arrival, after: State, report: Report)
    ensures var judging := Judging(c, l, p);
            AfterPacket(c, l, p.session, p.first, after, Ok(report)) == judging.(handed := judging.handed + Parts(after, report))
  {
    assert [] + Parts(after, report) == Parts(after, report);
  }

  lemma HandedOnce(c: State, l: Ledger, p: Arrival, after: State, report: Report)
    requires HandsOverOnce(l, NewEra(c, p.session), after, report)
    ensures Handed(after, report) !! All(Judging(c, l, p).Session())
  {
    assert Ledger(p.first, [], []).Session() == [];
  }

  lemma LiveIsNotHeld(o: Options, c: State, p: Arrival)
    requires Policies.Valid(o.policy)
    ensures Received(o, c, p).1.Ok? && Received(o, c, p).0.phase == Live ==> !Received(o, c, p).1.value.held
  {
    if Listening(c) {
      OnPacketArbitrates(o, c, p.session, p.first, p.count, p.digest, p.now);
      LiveArbitrated(o, Current(c, p.session), p.session, SessionChanges(c, p.session), p.Carried(), p.digest, p.now);
    }
  }

  lemma LiveArbitrated(o: Options, c: State, session: nat, changed: bool, arrived: Range, digest: nat, now: int)
    requires Policies.Valid(o.policy)
    ensures var answer := Arbitrated(o, c, session, changed, arrived, digest, now);
            answer.1.Ok? && answer.0.phase == Live ==> !answer.1.value.held
  {}

  lemma LawfulCounts(o: Options, body: Bodies, c: State, l: Ledger, session: nat, at: nat, p: Arrival)
    requires Sane(o, body, c, l) && LawfulSnapshot(c, session, at)
    ensures !Miscounts(o, Applied(c, session, at), AppliedLedger(c, l, session, at), p)
  {
    SnapshotKeeps(o, body, c, l, session, at);
    FinishKeeps(o, body, OnSnapshot(c, session, at).0, AfterSnapshot(c, l, session, at));
    HealthyCounts(o, body, Applied(c, session, at), AppliedLedger(c, l, session, at), p);
  }

  // ---- within a session ----------------------------------------------------------------------

  /** Applied below what the tracker expects. */
  ghost predicate UnlawfullyApplied(c: State, session: nat, at: nat) {
    && !c.phase.Failed? && !SessionChanges(c, session) && !LawfulSnapshot(c, session, at)
  }

  /** A client whose arbiter stands behind its tracker: everything from `at` on is either missing, and asked
      for, or forgotten. */
  ghost predicate Behind(o: Options, c: State, session: nat, at: nat, expected: nat) {
    && Policies.Valid(o.policy)
    && c.phase == Live && c.started && c.session == session && c.channel.started && c.channel.session == session
    && c.arbiter == Arbiters.Position(at, []) && c.deliveredBefore == at < expected == c.channel.expected
    && Trackers.WellFormed(c.channel) && c.channel.missing <= Span(Range(at, expected))
    && Requesters.Sound(o.policy, c.entries) && Requesters.Cover(c.entries) <= Span(Range(at, expected))
  }

  lemma UnlawfulIsResumed(c: State, session: nat, at: nat) returns (plan: Plan)
    requires Trackers.WellFormed(c.channel) && Joined(c) && UnlawfullyApplied(c, session, at)
    ensures plan == PlanSnapshot(at, c.buffer.Buffered(), c.deliveredBefore) && plan.verdict == Usable
    ensures OnSnapshot(c, session, at) == (Resumed(c, session, at, plan), Ok(plan))
    ensures at <= plan.resumeFrom < c.channel.expected && c.started && session == c.session
  {
    plan := PlanSnapshot(at, c.buffer.Buffered(), c.deliveredBefore);
  }

  lemma StillMissing(ch: Trackers.Channel, b: Replay.Buffer, at: nat, plan: Plan, delivered: nat)
    requires Trackers.WellFormed(ch) && Span(b.Buffered()) !! ch.missing
    requires plan == PlanSnapshot(at, b.Buffered(), delivered) && plan.verdict == Usable
    ensures AtLeast(ch.missing, at) <= Span(Range(plan.resumeFrom, ch.expected))
    ensures forall n :: n >= plan.resumeFrom ==> (n in AtLeast(ch.missing, at) <==> n in ch.missing)
  {
    forall n | n in AtLeast(ch.missing, at) ensures plan.resumeFrom <= n < ch.expected {
      assert plan.replay.Contains(n) ==> n in Span(b.Buffered());
    }
  }

  /** What an unchecked snapshot leaves, from whatever phase. */
  lemma UnlawfulIsBehind(o: Options, body: Bodies, c: State, l: Ledger, session: nat, at: nat) returns (resumeFrom: nat)
    requires Sane(o, body, c, l) && UnlawfullyApplied(c, session, at)
    ensures resumeFrom == PlanSnapshot(at, c.buffer.Buffered(), c.deliveredBefore).resumeFrom
    ensures at <= resumeFrom && Behind(o, Applied(c, session, at), session, resumeFrom, c.channel.expected)
    ensures Applied(c, session, at).channel.missing == AtLeast(c.channel.missing, at)
    ensures forall n :: n >= resumeFrom ==> (n in Applied(c, session, at).channel.missing <==> n in c.channel.missing)
    ensures var l' := AppliedLedger(c, l, session, at); l'.base == at && All(l'.handed) == Span(Range(at, resumeFrom))
  {
    var plan := UnlawfulIsResumed(c, session, at);
    resumeFrom := plan.resumeFrom;
    BufferIsClear(o, c, l);
    StillMissing(c.channel, c.buffer, at, plan, c.deliveredBefore);
    Requesters.PrefixCutFits(c.entries, plan.resumeFrom);
    Requesters.FillIsExact(o.policy, c.entries, Range(0, plan.resumeFrom));
    ResumedBehind(o, c, session, at, plan);
    ReplayedLedger(c, l, session, at, plan);
  }

  lemma BufferIsClear(o: Options, c: State, l: Ledger)
    requires Inv(o, c, l) && !c.phase.Failed?
    ensures Span(c.buffer.Buffered()) !! c.channel.missing
  {
    PredicatesMeanSets(EMPTY, EMPTY);
  }

  lemma ResumedBehind(o: Options, c: State, session: nat, at: nat, plan: Plan)
    requires Shape(o, c) && c.started && c.channel.started && session == c.session == c.channel.session
    requires at <= plan.resumeFrom < c.channel.expected
    requires AtLeast(c.channel.missing, at) <= Span(Range(plan.resumeFrom, c.channel.expected))
    requires var es := Requesters.AfterFill(c.entries, Range(0, plan.resumeFrom)).entries;
             Requesters.Sound(o.policy, es) && Requesters.Cover(es) <= Requesters.Cover(c.entries) - Span(Range(0, plan.resumeFrom))
    ensures Behind(o, FinishReplay(Resumed(c, session, at, plan)).0, session, plan.resumeFrom, c.channel.expected)
    ensures FinishReplay(Resumed(c, session, at, plan)).0.channel.missing == AtLeast(c.channel.missing, at)
  {
    var after := FinishReplay(Resumed(c, session, at, plan)).0;
    ResumesAt(c, session, at, plan);
    TakenWithin(c.channel, session, at);
    assert after.arbiter == Arbiters.Position(plan.resumeFrom, []);
    StillBelow(Requesters.Cover(c.entries), plan.resumeFrom, c.channel.expected);
  }

  lemma StillBelow(covered: set<nat>, from: nat, expected: nat)
    requires Requesters.Below(covered, expected)
    ensures covered - Span(Range(0, from)) <= Span(Range(from, expected))
  {}

  lemma TakenWithin(ch: Trackers.Channel, session: nat, at: nat)
    requires Trackers.WellFormed(ch) && ch.started && ch.session == session && at <= ch.expected
    ensures var after := Trackers.SnapshotTaken(ch, session, at).0;
            && after.missing == AtLeast(ch.missing, at) && after.expected == ch.expected
            && after.started && after.session == session && Trackers.WellFormed(after)
  {
    Trackers.TrimmingAddsNoRuns(ch.missing, at);
  }

  lemma DroppedIsReplay(b: Replay.Buffer, at: nat, plan: Plan, delivered: nat)
    requires plan == PlanSnapshot(at, b.Buffered(), delivered) && plan.verdict == Usable && !plan.replay.IsEmpty()
    ensures Replay.DroppedBelow(b, plan.replay.first).Buffered() == plan.replay == Range(at, plan.resumeFrom)
  {}

  lemma NoReplay(b: Replay.Buffer, at: nat, plan: Plan, delivered: nat)
    requires plan == PlanSnapshot(at, b.Buffered(), delivered) && plan.verdict == Usable && plan.replay.IsEmpty()
    ensures plan.resumeFrom == at
  {}

  lemma ReplayedLedger(c: State, l: Ledger, session: nat, at: nat, plan: Plan)
    requires plan == PlanSnapshot(at, c.buffer.Buffered(), c.deliveredBefore) && plan.verdict == Usable
    requires OnSnapshot(c, session, at) == (Resumed(c, session, at, plan), Ok(plan))
    ensures var l' := AppliedLedger(c, l, session, at); l'.base == at && All(l'.handed) == Span(Range(at, plan.resumeFrom))
  {
    var before, after := AfterSnapshot(c, l, session, at), Resumed(c, session, at, plan);
    assert before.base == at && before.handed == [];
    if plan.replay.IsEmpty() {
      NoReplay(c.buffer, at, plan, c.deliveredBefore);
      assert AfterFinish(after, before) == before;
    } else {
      DroppedIsReplay(c.buffer, at, plan, c.deliveredBefore);
      assert AfterFinish(after, before) == before.(handed := before.handed + [Span(plan.replay)]);
      AllAppend([], Span(plan.replay));
    }
  }

  // ---- two packets that show it ----------------------------------------------------------------

  /** The packet of everything from the resume point to the expectation, and the heartbeat at the expectation. */
  function Resent(c: State, digest: nat, now: int): Arrival
    requires c.deliveredBefore <= c.channel.expected
  {
    Arrival(c.session, c.deliveredBefore, c.channel.expected - c.deliveredBefore, digest, now)
  }

  function Heartbeat(c: State, digest: nat, now: int): Arrival {
    Arrival(c.session, c.channel.expected, 0, digest, now)
  }

  /** A packet of the session, with nothing remembered that it could contradict. */
  lemma ReceivedInSession(o: Options, c: State, p: Arrival) returns (position: Arbiters.Position, merged: Arbiters.Merged)
    requires Policies.Valid(o.policy) && c.phase == Live && c.started && p.session == c.session && c.arbiter.recent == []
    ensures (position, Ok(merged)) == Arbiters.Offered(o.detect, c.arbiter, p.Carried(), p.digest)
    ensures Received(o, c, p) ==
            Judged(o, Noted(c, position, c.session, c.channel.missing * Span(p.Carried())), p.Carried(), merged, p.now)
  {
    OnPacketContinues(o, c, p.session, p.first, p.count, p.digest, p.now);
    position, merged := AcceptedIsJudged(o, c, p.session, p.Carried(), p.digest, p.now);
  }

  lemma AcceptedIsJudged(o: Options, c: State, session: nat, arrived: Range, digest: nat, now: int)
    returns (position: Arbiters.Position, merged: Arbiters.Merged)
    requires Policies.Valid(o.policy) && c.arbiter.recent == []
    ensures (position, Ok(merged)) == Arbiters.Offered(o.detect, c.arbiter, arrived, digest)
    ensures Arbitrated(o, c, session, false, arrived, digest, now) ==
            Judged(o, Noted(c, position, session, c.channel.missing * Span(arrived)), arrived, merged, now)
  {
    assert !Arbiters.Conflicts(c.arbiter.recent, arrived, digest);
    position := Arbiters.Offered(o.detect, c.arbiter, arrived, digest).0;
    merged := Arbiters.Offered(o.detect, c.arbiter, arrived, digest).1.value;
  }

  /** The packet is always accepted, and every message still missing is handed over both as new and as
      repaired. */
  lemma ResentCountsTwice(o: Options, c: State, at: nat, digest: nat, now: int)
    requires Behind(o, c, c.session, at, c.channel.expected) && c.channel.missing != {}
    ensures var (after, result) := Received(o, c, Resent(c, digest, now));
            && result.Ok? && after.phase == Live
            && result.value.accepted == Range(at, c.channel.expected)
            && after.recovered == c.channel.missing <= Span(result.value.accepted)
  {
    var p := Resent(c, digest, now);
    var arrived := p.Carried();
    var position, merged := ReceivedInSession(o, c, p);
    assert c.channel.missing * Span(arrived) == c.channel.missing;
    ResentSequenced(o, Noted(c, position, c.session, c.channel.missing), arrived, merged, now);
  }

  lemma ResentSequenced(o: Options, c: State, arrived: Range, merged: Arbiters.Merged, now: int)
    requires Policies.Valid(o.policy) && c.phase == Live && c.channel.started && c.channel.session == c.session
    requires arrived.first < arrived.end == c.channel.expected && Trackers.WellFormed(c.channel)
    requires {} != c.channel.missing == c.recovered <= Span(arrived)
    requires Requesters.Sound(o.policy, c.entries) && Requesters.Cover(c.entries) <= Span(arrived)
    ensures var (after, result) := Sequenced(o, c, arrived, merged, now);
            result.Ok? && after.phase == Live && result.value.accepted == merged.deliver && after.recovered == c.recovered
  {
    var counted := c.channel.(tally := c.channel.tally.Received(arrived.Count()));
    NothingStillMissing(counted, arrived);
    SequencedInSession(o, c, arrived, merged, now, counted);
    ResentAnswered(o, c, Trackers.Advanced(counted, arrived).0, |c.channel.missing|, arrived, merged, now);
  }

  lemma SequencedInSession(o: Options, c: State, arrived: Range, merged: Arbiters.Merged, now: int, counted: Trackers.Channel)
    requires Policies.Valid(o.policy) && c.channel.started && c.channel.session == c.session && arrived.first <= arrived.end
    requires counted == c.channel.(tally := c.channel.tally.Received(arrived.Count()))
    ensures Sequenced(o, c, arrived, merged, now) ==
            Answered(o, c, Trackers.Advanced(counted, arrived).0, Trackers.Advanced(counted, arrived).1, merged, now)
  {
    assert Trackers.Observed(c.channel, c.session, arrived.first, arrived.Count()) == Trackers.Advanced(counted, arrived);
  }

  lemma ResentAnswered(o: Options, c: State, channel: Trackers.Channel, repaired: nat, arrived: Range, merged: Arbiters.Merged, now: int)
    requires Policies.Valid(o.policy) && c.phase == Live && repaired > 0
    requires Requesters.Sound(o.policy, c.entries) && Requesters.Cover(c.entries) <= Span(arrived)
    ensures var (after, result) := Answered(o, c, channel, Ok(Trackers.Observation(Trackers.GapFilled, arrived, repaired)), merged, now);
            result.Ok? && after.phase == Live && result.value.accepted == merged.deliver && after.recovered == c.recovered
  {
    Requesters.FillClears(o.policy, c.entries, arrived);
  }

  lemma NothingStillMissing(ch: Trackers.Channel, arrived: Range)
    requires arrived.first < arrived.end == ch.expected && {} != ch.missing <= Span(arrived)
    ensures Trackers.MissingAfter(ch, arrived) == {}
    ensures Trackers.Advanced(ch, arrived).1 == Ok(Trackers.Observation(Trackers.GapFilled, arrived, |ch.missing|))
  {
    assert Starts({}) == {};
    assert ch.missing * Span(arrived) == ch.missing;
    assert |ch.missing| != 0;
    Trackers.BehindRemoves(ch, arrived);
  }

  /** A heartbeat at the expectation is always accepted and hands nothing over. */
  lemma HeartbeatIsQuiet(o: Options, c: State, digest: nat, now: int)
    requires Policies.Valid(o.policy) && c.phase == Live && c.started && c.channel.started && c.channel.session == c.session
    requires Trackers.WellFormed(c.channel) && c.arbiter.recent == []
    ensures var (after, result) := Received(o, c, Heartbeat(c, digest, now));
            && result.Ok? && after.phase == Live && Parts(after, result.value) == [{}, {}]
            && after.channel.missing == c.channel.missing && after.channel.expected == c.channel.expected
            && after.channel.started && after.channel.session == after.session == c.session && after.started
            && after.arbiter.watermark == Trackers.Max(c.arbiter.watermark, c.channel.expected)
  {
    var p := Heartbeat(c, digest, now);
    var arrived := p.Carried();
    var position, merged := ReceivedInSession(o, c, p);
    PredicatesMeanSets(arrived, EMPTY);
    assert c.channel.missing * Span(arrived) == {};
    HeartbeatSequenced(o, Noted(c, position, c.session, {}), arrived, merged, now);
  }

  lemma HeartbeatSequenced(o: Options, c: State, arrived: Range, merged: Arbiters.Merged, now: int)
    requires Policies.Valid(o.policy) && c.phase == Live && c.channel.started && c.channel.session == c.session && c.started
    requires arrived == Range(c.channel.expected, c.channel.expected) && Trackers.WellFormed(c.channel)
    requires c.recovered == {} && merged.deliver == EMPTY
    ensures var (after, result) := Sequenced(o, c, arrived, merged, now);
            && result.Ok? && after.phase == Live && Parts(after, result.value) == [{}, {}]
            && after.channel.missing == c.channel.missing && after.channel.expected == c.channel.expected
            && after.channel.started && after.channel.session == after.session == c.session && after.started
            && after.arbiter.watermark == Trackers.Max(c.arbiter.watermark, c.channel.expected)
  {
    PredicatesMeanSets(EMPTY, EMPTY);
    var counted := c.channel.(tally := c.channel.tally.Received(0));
    SequencedInSession(o, c, arrived, merged, now, counted);
    Trackers.AdvancedInOrder(counted, arrived);
  }

  // ---- every unchecked snapshot miscounts ------------------------------------------------------

  /** Every number from the resume point to the expectation goes wrong. Those still missing are handed over
      twice by the packet that carries them, which is always accepted. Those not missing were not handed
      over since the snapshot either, and the next heartbeat, always accepted too, leaves them so with the
      arbiter past them. */
  lemma UnlawfulSnapshotMiscounts(o: Options, body: Bodies, c: State, l: Ledger, session: nat, at: nat, digest: nat, now: int)
    returns (resumeFrom: nat)
    requires Sane(o, body, c, l) && UnlawfullyApplied(c, session, at)
    ensures resumeFrom == PlanSnapshot(at, c.buffer.Buffered(), c.deliveredBefore).resumeFrom
    ensures at <= resumeFrom < c.channel.expected
    ensures var s, l' := Applied(c, session, at), AppliedLedger(c, l, session, at);
            && s.deliveredBefore == resumeFrom && s.session == session
            && s.channel.expected == c.channel.expected && s.phase == Live
            && (forall n :: resumeFrom <= n < c.channel.expected ==>
                  if n in c.channel.missing then HandedTwice(o, s, Resent(s, digest, now), n)
                  else LostBy(o, s, l', Heartbeat(s, digest, now), n))
  {
    resumeFrom := UnlawfulIsBehind(o, body, c, l, session, at);
    var s, l' := Applied(c, session, at), AppliedLedger(c, l, session, at);
    if s.channel.missing != {} {
      ResentCountsTwice(o, s, resumeFrom, digest, now);
    }
    HeartbeatIsQuiet(o, s, digest, now);
    var beat := Heartbeat(s, digest, now);
    forall n | resumeFrom <= n < c.channel.expected && n !in c.channel.missing ensures LostBy(o, s, l', beat, n) {
      QuietLedger(o, s, l', beat, Received(o, s, beat).1.value);
      assert n !in s.channel.missing;
    }
  }

  /** The packet is accepted and reports the number both as new and as repaired. */
  ghost predicate HandedTwice(o: Options, c: State, p: Arrival, n: nat)
    requires Policies.Valid(o.policy)
  {
    var (after, result) := Received(o, c, p);
    result.Ok? && after.phase == Live && n in Span(result.value.accepted) && n in after.recovered
  }

  /** A number of the era that is neither missing nor handed over, and that the arbiter has left behind. */
  ghost predicate Lost(c: State, l: Ledger, n: nat) {
    && c.phase == Live && l.base <= n < c.channel.expected && n < c.arbiter.watermark
    && n !in c.channel.missing && n !in All(l.handed)
  }

  ghost predicate LostBy(o: Options, c: State, l: Ledger, p: Arrival, n: nat)
    requires Policies.Valid(o.policy)
  {
    Received(o, c, p).1.Ok? && Lost(Received(o, c, p).0, LedgerAfter(o, c, l, p), n)
  }

  lemma QuietLedger(o: Options, c: State, l: Ledger, p: Arrival, report: Report)
    requires Policies.Valid(o.policy) && Received(o, c, p).1 == Ok(report)
    requires !NewEra(c, p.session) && Parts(Received(o, c, p).0, report) == [{}, {}]
    ensures LedgerAfter(o, c, l, p).base == l.base && All(LedgerAfter(o, c, l, p).handed) == All(l.handed)
  {
    var after := Received(o, c, p).0;
    AllJoin(l.handed, Parts(after, report));
    AllOfParts(after, report);
    assert Parts(after, report)[0] == {} == Parts(after, report)[1];
  }

  lemma TwiceMiscounts(o: Options, c: State, l: Ledger, p: Arrival, n: nat)
    requires Policies.Valid(o.policy) && HandedTwice(o, c, p, n)
    ensures Miscounts(o, c, l, p)
  {
    var (after, result) := Received(o, c, p);
    assert Again(l, after, result.value, n) && Again(Ledger(p.first, [], []), after, result.value, n);
  }

  lemma LostMiscounts(o: Options, c: State, l: Ledger, p: Arrival, n: nat)
    requires Policies.Valid(o.policy) && LostBy(o, c, l, p, n) && !NewEra(c, p.session)
    ensures Miscounts(o, c, l, p)
  {
    LiveIsNotHeld(o, c, p);
    var (after, result) := Received(o, c, p);
    AllJoin(l.handed, Parts(after, result.value));
    AllOfParts(after, result.value);
    assert Dropped(l, after, result.value, n);
  }

  // ---- a lost message stays lost ----------------------------------------------------------------

  /** Whatever the packet carries, the lost number itself included. */
  lemma LostForEver(o: Options, c: State, l: Ledger, p: Arrival, n: nat)
    requires Policies.Valid(o.policy) && InSession(c, p.session) && Lost(c, l, n)
    ensures Received(o, c, p).1.Ok? ==>
              Lost(Received(o, c, p).0, LedgerAfter(o, c, l, p), n) && InSession(Received(o, c, p).0, p.session)
  {
    if Received(o, c, p).1.Ok? {
      var answer := Arbitrated(o, c, p.session, false, p.Carried(), p.digest, p.now);
      ReceivedContinues(o, c, p, answer);
      LostArrives(o, c, p.session, p.Carried(), p.digest, p.now, n, answer);
      LedgerJoins(c, l, p.session, p.first, answer.0, answer.1.value);
      NotInParts(answer.0, answer.1.value, n);
    }
  }

  lemma LedgerJoins(c: State, l: Ledger, session: nat, first: nat, after: State, report: Report)
    requires !NewEra(c, session)
    ensures var l' := AfterPacket(c, l, session, first, after, Ok(report));
            l'.base == l.base && All(l'.handed) == All(l.handed) + All(Parts(after, report))
  {
    AllJoin(l.handed, Parts(after, report));
  }

  lemma LostArrives(o: Options, c: State, session: nat, arrived: Range, digest: nat, now: int, n: nat, answer: (State, Result<Report>))
    requires Policies.Valid(o.policy) && InSession(c, session) && c.phase == Live
    requires arrived.first <= arrived.end && n < c.channel.expected && n < c.arbiter.watermark && n !in c.channel.missing
    requires answer == Arbitrated(o, c, session, false, arrived, digest, now) && answer.1.Ok?
    ensures StaysLost(c, answer.0, answer.1.value, n)
  {
    LostOnArrival(o, c, session, arrived, digest, now, n);
  }

  lemma NotInParts(after: State, report: Report, n: nat)
    requires n !in after.recovered && n !in Span(report.accepted)
    ensures n !in All(Parts(after, report))
  {
    AllOfParts(after, report);
  }

  /** What an accepted packet leaves of a number the arbiter has passed and the tracker is not missing. */
  ghost predicate StaysLost(c: State, after: State, report: Report, n: nat) {
    && after.phase == c.phase && n < after.channel.expected && n < after.arbiter.watermark
    && n !in after.channel.missing && n !in after.recovered && n !in Span(report.accepted)
    && InSession(after, c.session)
  }

  ghost predicate InSession(c: State, session: nat) {
    && c.started && c.session == session && c.channel.started && c.channel.session == session
    && Trackers.WellFormed(c.channel)
  }

  lemma LostOnArrival(o: Options, c: State, session: nat, arrived: Range, digest: nat, now: int, n: nat)
    requires Policies.Valid(o.policy) && InSession(c, session) && c.phase == Live && arrived.first <= arrived.end
    requires n < c.channel.expected && n < c.arbiter.watermark && n !in c.channel.missing
    requires Arbitrated(o, c, session, false, arrived, digest, now).1.Ok?
    ensures StaysLost(c, Arbitrated(o, c, session, false, arrived, digest, now).0,
                      Arbitrated(o, c, session, false, arrived, digest, now).1.value, n)
  {
    var (position, merged) := Arbiters.Offered(o.detect, c.arbiter, arrived, digest);
    Arbiters.FirstCopyWins(o.detect, c.arbiter, arrived, digest);
    assert n !in Span(merged.value.deliver);
    var noted := Noted(c, position, session, c.channel.missing * Span(arrived));
    if !(!arrived.IsEmpty() && merged.value.deliver.IsEmpty() && noted.recovered == {}) {
      LostOnceSequenced(o, noted, arrived, merged.value, now, n);
    }
  }

  lemma LostOnceSequenced(o: Options, c: State, arrived: Range, merged: Arbiters.Merged, now: int, n: nat)
    requires Policies.Valid(o.policy) && InSession(c, c.session) && c.phase == Live && arrived.first <= arrived.end
    requires n < c.channel.expected && n < c.arbiter.watermark && n !in c.channel.missing
    requires n !in c.recovered && n !in Span(merged.deliver)
    requires Sequenced(o, c, arrived, merged, now).1.Ok?
    ensures StaysLost(c, Sequenced(o, c, arrived, merged, now).0, Sequenced(o, c, arrived, merged, now).1.value, n)
  {
    Trackers.ObservedAgain(c.channel, c.session, arrived.first, arrived.Count(), arrived);
    var (channel, seen) := Trackers.Observed(c.channel, c.session, arrived.first, arrived.Count());
    assert Sequenced(o, c, arrived, merged, now) == Answered(o, c, channel, seen, merged, now);
    LostOnceAnswered(o, c, channel, seen, merged, now, n);
  }

  lemma LostOnceAnswered(o: Options, c: State, channel: Trackers.Channel, seen: Result<Trackers.Observation>,
                         merged: Arbiters.Merged, now: int, n: nat)
    requires Policies.Valid(o.policy) && c.phase == Live && n < c.arbiter.watermark
    requires n !in c.recovered && n !in Span(merged.deliver)
    requires seen.Ok? ==> n < channel.expected && n !in channel.missing
    requires c.started && channel.started && channel.session == c.session && Trackers.WellFormed(channel)
    requires Answered(o, c, channel, seen, merged, now).1.Ok?
    ensures StaysLost(c, Answered(o, c, channel, seen, merged, now).0, Answered(o, c, channel, seen, merged, now).1.value, n)
  {}

  ghost function AllReceived(o: Options, c: State, l: Ledger, ps: seq<Arrival>): (State, Ledger)
    requires Policies.Valid(o.policy)
  {
    if ps == [] then (c, l)
    else
      var (before, ledger) := AllReceived(o, c, l, ps[..|ps| - 1]);
      (Received(o, before, ps[|ps| - 1]).0, LedgerAfter(o, before, ledger, ps[|ps| - 1]))
  }

  ghost predicate AllAccepted(o: Options, c: State, l: Ledger, session: nat, ps: seq<Arrival>)
    requires Policies.Valid(o.policy)
  {
    ps != [] ==>
      && AllAccepted(o, c, l, session, ps[..|ps| - 1])
      && ps[|ps| - 1].session == session
      && Received(o, AllReceived(o, c, l, ps[..|ps| - 1]).0, ps[|ps| - 1]).1.Ok?
  }

  /** Over any run of accepted packets of the session. */
  lemma {:induction false} LostThroughout(o: Options, c: State, l: Ledger, session: nat, ps: seq<Arrival>, n: nat)
    requires Policies.Valid(o.policy) && InSession(c, session) && Lost(c, l, n) && AllAccepted(o, c, l, session, ps)
    ensures var (after, l') := AllReceived(o, c, l, ps); Lost(after, l', n) && InSession(after, session)
  {
    if ps != [] {
      var front, last := ps[..|ps| - 1], ps[|ps| - 1];
      LostThroughout(o, c, l, session, front, n);
      LostForEver(o, AllReceived(o, c, l, front).0, AllReceived(o, c, l, front).1, last, n);
    }
  }

  // ---- a snapshot at zero for a new session -----------------------------------------------------

  lemma ZeroIsStale(c: State, l: Ledger, session: nat)
    requires !c.phase.Failed? && SessionChanges(c, session)
    ensures Applied(c, session, 0) == Restarted(c, session) && AppliedLedger(c, l, session, 0) == l
  {
    assert OnSnapshot(c, session, 0).0 == Restarted(c, session);
  }

  /** A new session's snapshot at zero is judged stale only after the client has moved to the session, while
      the tracker keeps the old one's holes: the first packet with such a number is never refused, and hands
      it over twice. */
  lemma ZeroSnapshotCountsTwice(o: Options, c: State, session: nat, n: nat, digest: nat, now: int)
    requires Policies.Valid(o.policy) && Joined(c) && !c.phase.Failed? && SessionChanges(c, session) && n in c.channel.missing
    ensures HandedTwice(o, Applied(c, session, 0), Arrival(session, n, 1, digest, now), n)
  {
    ZeroIsStale(c, NO_LEDGER, session);
    var s, arrived := Restarted(c, session), Range(n, n + 1);
    OnPacketArbitrates(o, s, session, n, 1, digest, now);
    assert n in Span(arrived) && !Arbiters.Conflicts(s.arbiter.recent, arrived, digest);
    var (position, merged) := Arbiters.Offered(o.detect, s.arbiter, arrived, digest);
    assert merged.value.deliver == arrived;
    StartsOverTwice(o, Noted(s, position, session, s.channel.missing * Span(arrived)), arrived, merged.value, now);
  }

  lemma StartsOverTwice(o: Options, c: State, arrived: Range, merged: Arbiters.Merged, now: int)
    requires Policies.Valid(o.policy) && c.phase == Synchronising && Trackers.StartsOver(c.channel, c.session)
    ensures var (after, result) := Sequenced(o, c, arrived, merged, now);
            result.Ok? && after.phase == Live && result.value.accepted == merged.deliver && after.recovered == c.recovered
  {
    var (channel, seen) := Trackers.Observed(c.channel, c.session, arrived.first, arrived.Count());
    assert Sequenced(o, c, arrived, merged, now) == Answered(o, c, channel, seen, merged, now);
  }

  /** With no hole outstanding, no packet of the new session is miscounted, nor of a third one. */
  lemma ZeroSnapshotCountsItsOwn(o: Options, body: Bodies, c: State, l: Ledger, session: nat, p: Arrival)
    requires Sane(o, body, c, l) && !c.phase.Failed? && SessionChanges(c, session)
    requires c.channel.missing == {} && p.session != c.session
    ensures !Miscounts(o, Applied(c, session, 0), AppliedLedger(c, l, session, 0), p)
  {
    ZeroIsStale(c, l, session);
    var s := Restarted(c, session);
    var r := Current(s, p.session);
    var arrived := Range(p.first, p.first + p.count);
    var answer := Arbitrated(o, r, p.session, SessionChanges(s, p.session), arrived, p.digest, p.now);
    FirstCounts(o, r, p.session, SessionChanges(s, p.session), arrived, p.digest, p.now);
    ReceivedArbitrates(o, s, r, SessionChanges(s, p.session), p, answer);
    FirstOfEraCounts(o, s, l, p, answer);
  }

  lemma ReceivedArbitrates(o: Options, c: State, current: State, changed: bool, p: Arrival, answer: (State, Result<Report>))
    requires Policies.Valid(o.policy) && Listening(c) && current == Current(c, p.session) && changed == SessionChanges(c, p.session)
    requires answer == Arbitrated(o, current, p.session, changed, Range(p.first, p.first + p.count), p.digest, p.now)
    ensures Received(o, c, p) == answer
  {
    OnPacketArbitrates(o, c, p.session, p.first, p.count, p.digest, p.now);
  }

  lemma FirstOfEraCounts(o: Options, c: State, l: Ledger, p: Arrival, answer: (State, Result<Report>))
    requires Policies.Valid(o.policy) && NewEra(c, p.session) && answer == Received(o, c, p) && answer.1.Ok?
    requires answer.0.recovered == {} && !answer.1.value.held
    requires Divided(answer.0, Ledger(p.first, [], Parts(answer.0, answer.1.value)))
    ensures !Miscounts(o, c, l, p)
  {
    var (after, result) := answer;
    LedgerIsJudging(c, l, p, after, result.value);
    assert Ledger(p.first, [], []).Session() == [];
    RightIsNotWrong(Ledger(p.first, [], []), after, result.value);
    RightIsCounted(o, c, l, p);
  }

  /** A client with nothing in it, about to take its first packet of a session. */
  ghost predicate Blank(s: State) {
    && s.phase == Synchronising && s.arbiter == Arbiters.STREAM_START && s.deliveredBefore == 0
    && s.entries == [] && s.buffer == Replay.NOTHING_HELD && Trackers.WellFormed(s.channel)
  }

  lemma FirstCounts(o: Options, s: State, session: nat, changed: bool, arrived: Range, digest: nat, now: int)
    requires Policies.Valid(o.policy) && arrived.first <= arrived.end
    requires Blank(s) && Trackers.StartsOver(s.channel, session) && (changed || s.channel.missing == {})
    ensures var (after, result) := Arbitrated(o, s, session, changed, arrived, digest, now);
            && result.Ok? && after.recovered == {} && !result.value.held
            && Divided(after, Ledger(arrived.first, [], Parts(after, result.value)))
  {
    var position, merged := FirstIsSequenced(o, s, session, changed, arrived, digest, now);
    EraBegins(o, Noted(s, position, session, {}), arrived, merged, now);
  }

  /** The first packet is accepted whole, whatever it carries, and repairs nothing. */
  lemma FirstIsSequenced(o: Options, s: State, session: nat, changed: bool, arrived: Range, digest: nat, now: int)
    returns (position: Arbiters.Position, merged: Arbiters.Merged)
    requires Policies.Valid(o.policy) && arrived.first <= arrived.end && Blank(s)
    requires changed || s.channel.missing == {}
    ensures Span(merged.deliver) == Span(arrived) && merged.deliver.end <= arrived.end && position.watermark <= arrived.end
    ensures Arbitrated(o, s, session, changed, arrived, digest, now) ==
            Sequenced(o, Noted(s, position, session, {}), arrived, merged, now)
  {
    assert !Arbiters.Conflicts(s.arbiter.recent, arrived, digest);
    position := Arbiters.Offered(o.detect, s.arbiter, arrived, digest).0;
    merged := Arbiters.Offered(o.detect, s.arbiter, arrived, digest).1.value;
    FirstPacketIsNew(o, s.arbiter, arrived, digest);
    assert s.channel.missing == {} ==> s.channel.missing * Span(arrived) == {};
  }

  // ---- a late packet of the old session ---------------------------------------------------------

  /** Something handed over in the session is not the last message expected, or something of the era was
      neither handed over nor is missing. */
  ghost predicate Exposed(c: State, l: Ledger) {
    || (exists n: nat :: n in All(l.Session()) && n + 1 < c.channel.expected)
    || (exists n: nat :: Unaccounted(c, l, n))
  }

  ghost predicate Unaccounted(c: State, l: Ledger, n: nat) {
    l.base <= n < c.channel.expected && n !in c.channel.missing && n !in All(l.handed)
  }

  /** A live client with no hole is exposed unless nothing, or only the newest message it expects, was handed
      over in the session. */
  lemma ExposedWhenLive(o: Options, c: State, l: Ledger)
    requires Inv(o, c, l) && c.phase == Live && c.channel.missing == {}
    ensures Exposed(c, l) <==> exists n: nat :: n in All(l.Session()) && n + 1 < c.channel.expected
    ensures l.base + 1 < c.channel.expected ==> Exposed(c, l)
  {
    forall n: nat ensures !Unaccounted(c, l, n) {
      assert n in Span(Range(l.base, c.channel.expected)) <==> l.base <= n < c.channel.expected;
    }
    SessionIsBoth(l);
    if l.base + 1 < c.channel.expected {
      assert l.base in Span(Range(l.base, c.channel.expected));
    }
  }

  /** The client starts over and takes all of it for new; the tracker goes on where it was. */
  lemma OldArrives(o: Options, c: State, session: nat, p: Arrival)
    requires Policies.Valid(o.policy) && Trackers.WellFormed(c.channel) && Joined(c) && SessionChanges(c, session)
    requires c.channel.missing == {} && p.session == c.session
    ensures var (after, result) := Received(o, Restarted(c, session), p);
            result.Ok? ==> OldTaken(c.channel.expected, p.Carried(), after, result.value)
    ensures p.first <= c.channel.expected ==> Received(o, Restarted(c, session), p).1.Ok?
  {
    var r, arrived := Restarted(c, c.session), Range(p.first, p.first + p.count);
    var position, merged := OldReceived(o, c, session, p, r, arrived);
    OldSequenced(o, Noted(r, position, c.session, {}), arrived, merged, p.now);
  }

  lemma OldReceived(o: Options, c: State, session: nat, p: Arrival, r: State, arrived: Range)
    returns (position: Arbiters.Position, merged: Arbiters.Merged)
    requires Policies.Valid(o.policy) && Trackers.WellFormed(c.channel) && c.channel.missing == {} && SessionChanges(c, session)
    requires p.session == c.session && r == Restarted(c, c.session) && arrived == Range(p.first, p.first + p.count)
    ensures Span(merged.deliver) == Span(arrived)
    ensures Received(o, Restarted(c, session), p) == Sequenced(o, Noted(r, position, c.session, {}), arrived, merged, p.now)
  {
    position, merged := FirstIsSequenced(o, r, c.session, true, arrived, p.digest, p.now);
    ReceivedArbitrates(o, Restarted(c, session), r, true, p, Arbitrated(o, r, c.session, true, arrived, p.digest, p.now));
  }

  ghost predicate OldTaken(expected: nat, arrived: Range, after: State, report: Report) {
    && after.phase == Live && Span(report.accepted) == Span(arrived) && after.recovered == {}
    && after.channel.expected == Trackers.Max(expected, arrived.end)
    && after.channel.missing == Span(Range(expected, Trackers.Max(expected, arrived.end))) - Span(arrived)
  }

  lemma OldSequenced(o: Options, c: State, arrived: Range, merged: Arbiters.Merged, now: int)
    requires Policies.Valid(o.policy) && c.phase == Synchronising && c.channel.started && c.channel.session == c.session
    requires Trackers.WellFormed(c.channel) && c.channel.missing == {} && c.entries == [] && c.recovered == {}
    requires arrived.first <= arrived.end && Span(merged.deliver) == Span(arrived)
    ensures var (after, result) := Sequenced(o, c, arrived, merged, now);
            result.Ok? ==> OldTaken(c.channel.expected, arrived, after, result.value)
    ensures arrived.first <= c.channel.expected ==> Sequenced(o, c, arrived, merged, now).1.Ok?
  {
    var counted := c.channel.(tally := c.channel.tally.Received(arrived.Count()));
    SequencedInSession(o, c, arrived, merged, now, counted);
    Trackers.AdvancedFacts(counted, arrived);
    if arrived.first <= c.channel.expected {
      Trackers.BehindRemoves(counted, arrived);
      assert Starts({}) == {};
    }
    OldAnswered(o, c, Trackers.Advanced(counted, arrived).0, Trackers.Advanced(counted, arrived).1, merged, now);
  }

  /** An observation of which the requester hears nothing. */
  predicate QuietAnswer(seen: Result<Trackers.Observation>) {
    && seen.Ok? && seen.value.outcome != Trackers.GapOpened
    && (seen.value.outcome == Trackers.GapFilled ==> seen.value.recovered == 0)
  }

  lemma OldAnswered(o: Options, c: State, channel: Trackers.Channel, seen: Result<Trackers.Observation>, merged: Arbiters.Merged, now: int)
    requires Policies.Valid(o.policy) && c.phase == Synchronising && c.recovered == {}
    ensures var (after, result) := Answered(o, c, channel, seen, merged, now);
            && (result.Ok? ==> seen.Ok? && after.phase == Live && after.channel == channel && after.recovered == {}
                               && result.value.accepted == merged.deliver)
            && (QuietAnswer(seen) ==> result.Ok?)
  {}

  /** A late packet of one message hands it over again, and leaves the one behind it out of the era if that is what
      it begins; a late heartbeat leaves out what was never accounted for. */
  lemma ZeroSnapshotExposed(o: Options, c: State, l: Ledger, session: nat) returns (p: Arrival)
    requires Policies.Valid(o.policy) && Trackers.WellFormed(c.channel) && Joined(c) && SessionChanges(c, session)
    requires c.channel.missing == {} && Exposed(c, l)
    ensures p.session == c.session && Miscounts(o, Restarted(c, session), l, p)
  {
    if n: nat :| n in All(l.Session()) && n + 1 < c.channel.expected {
      p := Arrival(c.session, n, 1, 0, 0);
      OldArrives(o, c, session, p);
      var (after, result) := Received(o, Restarted(c, session), p);
      assert n in Span(p.Carried()) && Again(l, after, result.value, n);
      assert Dropped(Ledger(n, [], []), after, result.value, n + 1);
    } else {
      var n :| Unaccounted(c, l, n);
      p := Arrival(c.session, n, 0, 0, 0);
      OldArrives(o, c, session, p);
      var (after, result) := Received(o, Restarted(c, session), p);
      assert Dropped(l, after, result.value, n) && Dropped(Ledger(n, [], []), after, result.value, n);
    }
  }

  /** Otherwise no packet of the old session does harm. */
  lemma ZeroSnapshotUnexposed(o: Options, c: State, l: Ledger, session: nat, p: Arrival)
    requires Policies.Valid(o.policy) && Trackers.WellFormed(c.channel) && Joined(c) && SessionChanges(c, session)
    requires c.channel.missing == {} && !Exposed(c, l) && p.session == c.session
    ensures !Miscounts(o, Restarted(c, session), l, p)
  {
    OldArrives(o, c, session, p);
    var (after, result) := Received(o, Restarted(c, session), p);
    if result.Ok? {
      OldIsRight(c, l, p.Carried(), after, result.value);
    }
  }

  /** A packet that ends below the expectation carries nothing handed over before and drops nothing recorded;
      one that does not leaves nothing above its start unaccounted for. */
  lemma OldIsRight(c: State, l: Ledger, arrived: Range, after: State, report: Report)
    requires c.channel.missing == {} && !Exposed(c, l) && OldTaken(c.channel.expected, arrived, after, report)
    ensures !Wrong(l, after, report) || !Wrong(Ledger(arrived.first, [], []), after, report)
  {
    var joined := Ledger(arrived.first, [], []);
    if arrived.end < c.channel.expected {
      forall n: nat ensures !Again(l, after, report, n) && !Dropped(l, after, report, n) {
        assert !Unaccounted(c, l, n);
        assert n in Span(arrived) ==> n + 1 < c.channel.expected;
      }
    } else {
      assert joined.Session() == [];
      forall n: nat ensures !Again(joined, after, report, n) && !Dropped(joined, after, report, n) {
        assert n in Span(arrived) <==> arrived.first <= n < arrived.end;
      }
    }
  }

  // ---- exactly when --------------------------------------------------------------------------------

  /** What a caller may do: apply a snapshot that passes the check, or one of a new session at zero when no hole
      is outstanding and nothing is exposed. */
  ghost predicate SafeSnapshot(c: State, l: Ledger, session: nat, at: nat) {
    LawfulSnapshot(c, session, at) || (SessionChanges(c, session) && c.channel.missing == {} && !Exposed(c, l))
  }

  /** From any phase of a healthy client: some packet that comes next is miscounted if and only if the snapshot
      did not pass the check, and if it is a new session's, also left a hole or something exposed. */
  lemma SnapshotSafeExactly(o: Options, body: Bodies, c: State, l: Ledger, session: nat, at: nat)
    requires Sane(o, body, c, l) && !c.phase.Failed?
    ensures (exists p: Arrival :: Miscounts(o, Applied(c, session, at), AppliedLedger(c, l, session, at), p))
       <==> !SafeSnapshot(c, l, session, at)
  {
    if SafeSnapshot(c, l, session, at) {
      forall p: Arrival ensures !Miscounts(o, Applied(c, session, at), AppliedLedger(c, l, session, at), p) {
        SafeCounts(o, body, c, l, session, at, p);
      }
    } else {
      var p := Witness(o, body, c, l, session, at);
    }
  }

  lemma SafeCounts(o: Options, body: Bodies, c: State, l: Ledger, session: nat, at: nat, p: Arrival)
    requires Sane(o, body, c, l) && !c.phase.Failed? && SafeSnapshot(c, l, session, at)
    ensures !Miscounts(o, Applied(c, session, at), AppliedLedger(c, l, session, at), p)
  {
    if LawfulSnapshot(c, session, at) {
      LawfulCounts(o, body, c, l, session, at, p);
    } else if p.session != c.session {
      ZeroSnapshotCountsItsOwn(o, body, c, l, session, p);
    } else {
      ZeroIsStale(c, l, session);
      ZeroSnapshotUnexposed(o, c, l, session, p);
    }
  }

  lemma Witness(o: Options, body: Bodies, c: State, l: Ledger, session: nat, at: nat) returns (p: Arrival)
    requires Sane(o, body, c, l) && !c.phase.Failed? && !SafeSnapshot(c, l, session, at)
    ensures Miscounts(o, Applied(c, session, at), AppliedLedger(c, l, session, at), p)
  {
    var s, l' := Applied(c, session, at), AppliedLedger(c, l, session, at);
    if !SessionChanges(c, session) {
      var n := UnlawfulSnapshotMiscounts(o, body, c, l, session, at, 0, 0);
      if n in c.channel.missing {
        p := Resent(s, 0, 0);
        TwiceMiscounts(o, s, l', p, n);
      } else {
        p := Heartbeat(s, 0, 0);
        LostMiscounts(o, s, l', p, n);
      }
    } else if c.channel.missing == {} {
      ZeroIsStale(c, l, session);
      p := ZeroSnapshotExposed(o, c, l, session);
    } else {
      var n :| n in c.channel.missing;
      p := Arrival(session, n, 1, 0, 0);
      ZeroSnapshotCountsTwice(o, c, session, n, 0, 0);
      TwiceMiscounts(o, s, l', p, n);
    }
  }

  /** Among the packets of the new session alone, a snapshot for it does harm exactly when it is at zero and
      the old session left a hole. */
  lemma NewSessionSafeExactly(o: Options, body: Bodies, c: State, l: Ledger, session: nat, at: nat)
    requires Sane(o, body, c, l) && !c.phase.Failed? && SessionChanges(c, session)
    ensures (exists p: Arrival :: p.session == session && Miscounts(o, Applied(c, session, at), AppliedLedger(c, l, session, at), p))
       <==> at == 0 && c.channel.missing != {}
  {
    if at == 0 && c.channel.missing != {} {
      var n :| n in c.channel.missing;
      ZeroSnapshotCountsTwice(o, c, session, n, 0, 0);
      var p := Arrival(session, n, 1, 0, 0);
      TwiceMiscounts(o, Applied(c, session, at), AppliedLedger(c, l, session, at), p, n);
      assert p.session == session && Miscounts(o, Applied(c, session, at), AppliedLedger(c, l, session, at), p);
    } else {
      forall p: Arrival | p.session == session ensures !Miscounts(o, Applied(c, session, at), AppliedLedger(c, l, session, at), p) {
        if at == 0 {
          ZeroSnapshotCountsItsOwn(o, body, c, l, session, p);
        } else {
          LawfulCounts(o, body, c, l, session, at, p);
        }
      }
    }
  }
}
