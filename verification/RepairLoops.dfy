/** Asking and answering in a loop: while the venue still holds what a live client is missing, polling and
    feeding the answers back closes every hole that is due to be asked for. No packet of an answer to the client's own request is
    refused, unless it contradicts one the client remembers. */
module RepairLoops {
  import opened Errors
  import opened Ranges
  import opened GapSets
  import opened Clients
  import opened ClientLedgers
  import opened ClientRuns
  import opened RetransmitRepairs
  import Arbiters
  import Policies = RetransmitPolicies
  import Facilities = RetransmitFacilities
  import Requesters
  import Trackers = GapTrackers

  // ---- which entries may be asked for --------------------------------------------------

  /** Not to be given up. */
  predicate Hopeful(p: Policies.Policy, e: Requesters.Entry, now: int) { Requesters.GiveUpReason(p, e, now).None? }

  /** Every entry is, except what remains of one just asked for. */
  ghost predicate HopefulBut(p: Policies.Policy, es: seq<Requesters.Entry>, now: int, asked: Range) {
    es != [] ==>
      && HopefulBut(p, es[..|es| - 1], now, asked)
      && (Hopeful(p, es[|es| - 1], now) || asked.Covers(es[|es| - 1].range))
  }

  lemma {:induction false} HopefulAt(p: Policies.Policy, es: seq<Requesters.Entry>, now: int, asked: Range, i: nat)
    requires HopefulBut(p, es, now, asked) && i < |es|
    ensures Hopeful(p, es[i], now) || asked.Covers(es[i].range)
  {
    if i < |es| - 1 {
      HopefulAt(p, es[..|es| - 1], now, asked, i);
    }
  }

  lemma {:induction false} AllHopeful(p: Policies.Policy, es: seq<Requesters.Entry>, now: int, asked: Range)
    requires forall i :: 0 <= i < |es| ==> Hopeful(p, es[i], now) || asked.Covers(es[i].range)
    ensures HopefulBut(p, es, now, asked)
  {
    if es != [] {
      AllHopeful(p, es[..|es| - 1], now, asked);
    }
  }

  lemma AddKeepsHopeful(p: Policies.Policy, es: seq<Requesters.Entry>, e: Requesters.Entry, part: Range, now: int, asked: Range)
    requires HopefulBut(p, es, now, asked)
    requires Hopeful(p, e, now) || asked.Covers(part)
    ensures HopefulBut(p, Requesters.AddEntry(es, e, part), now, asked)
  {
    if !part.IsEmpty() {
      var more := es + [e.(range := part)];
      assert more[..|es|] == es;
    }
  }

  /** Cutting what arrived out of the entries changes neither their times nor their attempts. */
  lemma {:induction false} CutKeepsHopeful(p: Policies.Policy, es: seq<Requesters.Entry>, filled: Range, now: int, asked: Range)
    requires HopefulBut(p, es, now, asked)
    ensures HopefulBut(p, Requesters.Cut(es, filled), now, asked)
  {
    if es != [] {
      var front, e := es[..|es| - 1], es[|es| - 1];
      CutKeepsHopeful(p, front, filled, now, asked);
      var left := Subtract(e.range, filled);
      AddKeepsHopeful(p, Requesters.Cut(front, filled), e, left.before, now, asked);
      AddKeepsHopeful(p, Requesters.AddEntry(Requesters.Cut(front, filled), e, left.before), e, left.after, now, asked);
    }
  }

  // ---- one packet of an answer ------------------------------------------------------------

  /** No hole opened, and the requester either heard nothing or was told what arrived. */
  ghost predicate Quietly(ch: Trackers.Channel, es: seq<Requesters.Entry>, after: State, arrived: Range) {
    && after.channel.missing <= ch.missing
    && after.channel.expected >= ch.expected
    && (after.entries == es || after.entries == Requesters.AfterFill(es, arrived).entries)
  }

  /** A packet that starts below the expectation opens no hole. */
  lemma EntriesAfter(o: Options, c: State, arrived: Range, merged: Arbiters.Merged, now: int)
    requires MidPacket(o, c, arrived, merged) && c.phase == Live && arrived.first < c.channel.expected
    requires Sequenced(o, c, arrived, merged, now).1.Ok?
    ensures Quietly(c.channel, c.entries, Sequenced(o, c, arrived, merged, now).0, arrived)
  {
    Trackers.ObservedAgain(c.channel, c.session, arrived.first, arrived.Count(), arrived);
    var (channel, seen) := Trackers.Observed(c.channel, c.session, arrived.first, arrived.Count());
    Trackers.BehindRemoves(c.channel, arrived);
    assert Sequenced(o, c, arrived, merged, now) == Answered(o, c, channel, seen, merged, now);
    AnsweredQuietly(o, c, channel, seen, merged, arrived, now);
  }

  lemma AnsweredQuietly(o: Options, c: State, channel: Trackers.Channel, seen: Result<Trackers.Observation>,
                        merged: Arbiters.Merged, arrived: Range, now: int)
    requires Policies.Valid(o.policy) && Answered(o, c, channel, seen, merged, now).1.Ok?
    requires seen.Ok? ==> seen.value == Trackers.Classify(c.channel, arrived) && arrived.first < c.channel.expected
    ensures var after := Answered(o, c, channel, seen, merged, now).0;
            && after.channel == channel
            && (after.entries == c.entries || after.entries == Requesters.AfterFill(c.entries, arrived).entries)
  {}

  // ---- no packet of an answer is refused --------------------------------------------------------

  /** No remembered packet contradicts one the venue holds. */
  ghost predicate Agrees(o: Options, recent: seq<Arbiters.Digest>, held: seq<Facilities.Packet>, digest: Facilities.Bytes -> nat) {
    o.detect ==> forall d, p :: d in recent && p in held && d.range == p.Carried() ==> d.value == digest(p.bytes)
  }

  /** A packet around which no entry lies fits the tracker and the requester. */
  lemma SequencedWelcome(o: Options, c: State, arrived: Range, merged: Arbiters.Merged, now: int)
    requires MidPacket(o, c, arrived, merged) && c.phase == Live && arrived.first < c.channel.expected
    requires Requesters.Cover(c.entries) == c.channel.missing && Requesters.NoneAround(c.entries, arrived)
    ensures Sequenced(o, c, arrived, merged, now).1.Ok?
  {
    Requesters.CutNoLonger(c.entries, arrived);
    Requesters.CutExact(o.policy, c.entries, arrived);
    Requesters.RunsOfCover(Requesters.Cut(c.entries, arrived));
    Trackers.BehindRemoves(c.channel, arrived);
    TrackerWelcome(c.channel, c.session, arrived);
    var (channel, seen) := Trackers.Observed(c.channel, c.session, arrived.first, arrived.Count());
    assert Sequenced(o, c, arrived, merged, now) == Answered(o, c, channel, seen, merged, now);
    AnsweredWelcome(o, c, channel, seen, merged, arrived, now);
  }

  lemma TrackerWelcome(ch: Trackers.Channel, session: nat, arrived: Range)
    requires ch.started && ch.session == session && arrived.first <= arrived.end
    requires Runs(Trackers.MissingAfter(ch, arrived)) <= MAX_OUTSTANDING_GAPS
    ensures Trackers.Observed(ch, session, arrived.first, arrived.Count()).1 == Ok(Trackers.Classify(ch, arrived))
  {
    var counted := ch.(tally := ch.tally.Received(arrived.Count()));
    assert Trackers.Observed(ch, session, arrived.first, arrived.Count()) == Trackers.Advanced(counted, arrived);
    assert Trackers.MissingAfter(counted, arrived) == Trackers.MissingAfter(ch, arrived);
    assert Trackers.Classify(counted, arrived) == Trackers.Classify(ch, arrived);
  }

  lemma AnsweredWelcome(o: Options, c: State, channel: Trackers.Channel, seen: Result<Trackers.Observation>,
                        merged: Arbiters.Merged, arrived: Range, now: int)
    requires Policies.Valid(o.policy) && seen == Ok(Trackers.Classify(c.channel, arrived)) && arrived.first < c.channel.expected
    requires |Requesters.Cut(c.entries, arrived)| <= MAX_OUTSTANDING_GAPS
    ensures Answered(o, c, channel, seen, merged, now).1.Ok?
  {}

  lemma JudgedWelcome(o: Options, c: State, arrived: Range, merged: Arbiters.Merged, now: int)
    requires MidPacket(o, c, arrived, merged) && c.phase == Live && arrived.first < c.channel.expected
    requires Requesters.Cover(c.entries) == c.channel.missing && Requesters.NoneAround(c.entries, arrived)
    ensures Judged(o, c, arrived, merged, now).1.Ok?
  {
    if !(!arrived.IsEmpty() && merged.deliver.IsEmpty() && c.recovered == {}) {
      SequencedWelcome(o, c, arrived, merged, now);
    }
  }

  lemma PacketWelcome(o: Options, body: Bodies, c: State, l: Ledger, first: nat, count: nat, arrived: Range, digest: nat, now: int)
    requires Sane(o, body, c, l) && c.phase == Live && first < c.channel.expected && arrived == Range(first, first + count)
    requires Requesters.NoneAround(c.entries, arrived)
    requires o.detect ==> !Arbiters.Conflicts(c.arbiter.recent, arrived, digest)
    ensures OnPacket(o, c, c.session, first, count, digest, now).1.Ok?
  {
    ArbiterWelcomes(o.detect, c.arbiter, arrived, digest);
    AllWelcomes(o, c, l, arrived, digest);
    ArrivalWelcome(o, c, arrived, digest, now);
    OnceArbitrated(o, c, first, count, arrived, digest, now);
  }

  lemma OnceArbitrated(o: Options, c: State, first: nat, count: nat, arrived: Range, digest: nat, now: int)
    requires Policies.Valid(o.policy) && c.phase == Live && arrived == Range(first, first + count)
    requires Arbitrated(o, c, c.session, false, arrived, digest, now).1.Ok?
    ensures OnPacket(o, c, c.session, first, count, digest, now).1.Ok?
  {
    OnPacketContinues(o, c, c.session, first, count, digest, now);
  }

  lemma ArbiterWelcomes(detect: bool, a: Arbiters.Position, arrived: Range, digest: nat)
    requires detect ==> !Arbiters.Conflicts(a.recent, arrived, digest)
    ensures Arbiters.Offered(detect, a, arrived, digest).1.Ok?
  {}

  /** The arbiter takes the packet, and the rest of the client is ready for it. */
  ghost predicate Admitting(o: Options, c: State, arrived: Range, digest: nat) {
    var (position, merged) := Arbiters.Offered(o.detect, c.arbiter, arrived, digest);
    && merged.Ok? && MidPacket(o, Noted(c, position, c.session, c.channel.missing * Span(arrived)), arrived, merged.value)
    && Requesters.Cover(c.entries) == c.channel.missing
  }

  lemma AllWelcomes(o: Options, c: State, l: Ledger, arrived: Range, digest: nat)
    requires Inv(o, c, l) && c.phase == Live && arrived.first <= arrived.end
    requires Arbiters.Offered(o.detect, c.arbiter, arrived, digest).1.Ok?
    ensures Admitting(o, c, arrived, digest)
  {
    SameEraArbitrated(o, c, l, arrived, digest);
  }

  lemma ArrivalWelcome(o: Options, c: State, arrived: Range, digest: nat, now: int)
    requires Admitting(o, c, arrived, digest)
    requires c.phase == Live && arrived.first < c.channel.expected && Requesters.NoneAround(c.entries, arrived)
    ensures Arbitrated(o, c, c.session, false, arrived, digest, now).1.Ok?
  {
    var (position, merged) := Arbiters.Offered(o.detect, c.arbiter, arrived, digest);
    OfferedIsJudged(o, c, arrived, digest, now);
    JudgedWelcome(o, Noted(c, position, c.session, c.channel.missing * Span(arrived)), arrived, merged.value, now);
  }

  lemma OfferedIsJudged(o: Options, c: State, arrived: Range, digest: nat, now: int)
    requires Policies.Valid(o.policy) && Arbiters.Offered(o.detect, c.arbiter, arrived, digest).1.Ok?
    ensures var (position, merged) := Arbiters.Offered(o.detect, c.arbiter, arrived, digest);
            Arbitrated(o, c, c.session, false, arrived, digest, now) ==
            Judged(o, Noted(c, position, c.session, c.channel.missing * Span(arrived)), arrived, merged.value, now)
  {}

  /** What the arbiter remembers after a packet is what it remembered, and the packet. */
  lemma RecentAfter(o: Options, c: State, p: Facilities.Packet, digest: nat, now: int)
    requires Policies.Valid(o.policy) && c.phase == Live
    requires OnPacket(o, c, c.session, p.first, p.count, digest, now).1.Ok?
    ensures forall d :: d in OnPacket(o, c, c.session, p.first, p.count, digest, now).0.arbiter.recent ==>
              d in c.arbiter.recent || (o.detect && d == Arbiters.Digest(p.Carried(), digest))
  {
    ArbiterAccepts(o, c, p, digest, now);
    var (position, merged) := Arbiters.Offered(o.detect, c.arbiter, p.Carried(), digest);
    RecentOnceJudged(o, Noted(c, position, c.session, c.channel.missing * Span(p.Carried())), p.Carried(), merged.value, now);
  }

  lemma RecentOnceJudged(o: Options, c: State, arrived: Range, merged: Arbiters.Merged, now: int)
    requires Policies.Valid(o.policy)
    ensures Judged(o, c, arrived, merged, now).0.arbiter.recent == c.arbiter.recent
  {
    var (channel, seen) := Trackers.Observed(c.channel, c.session, arrived.first, arrived.Count());
    RecentOnceAnswered(o, c, channel, seen, merged, now);
  }

  lemma RecentOnceAnswered(o: Options, c: State, channel: Trackers.Channel, seen: Result<Trackers.Observation>,
                           merged: Arbiters.Merged, now: int)
    requires Policies.Valid(o.policy)
    ensures Answered(o, c, channel, seen, merged, now).0.arbiter.recent == c.arbiter.recent
  {}

  lemma StillAgrees(o: Options, c: State, held: seq<Facilities.Packet>, p: Facilities.Packet, digest: Facilities.Bytes -> nat, now: int)
    requires Policies.Valid(o.policy) && c.phase == Live && Facilities.Ordered(held) && p in held
    requires Agrees(o, c.arbiter.recent, held, digest)
    requires OnPacket(o, c, c.session, p.first, p.count, digest(p.bytes), now).1.Ok?
    ensures Agrees(o, OnPacket(o, c, c.session, p.first, p.count, digest(p.bytes), now).0.arbiter.recent, held, digest)
  {
    RecentAfter(o, c, p, digest(p.bytes), now);
    forall q | q in held && q.Carried() == p.Carried() ensures q == p {
      Facilities.OnePacketEach(held, p, q);
    }
  }

  /** What the loop keeps while an answer is being fed. */
  ghost predicate Feeding(o: Options, body: Bodies, c: State, l: Ledger, before: State, now: int, asked: Range) {
    && Sane(o, body, c, l) && c.phase == Live && c.session == before.session
    && c.channel.missing <= before.channel.missing
    && c.channel.expected >= before.channel.expected
    && HopefulBut(o.policy, c.entries, now, asked)
    && Requesters.Others(c.entries, asked) <= Requesters.Others(before.entries, asked)
    && Requesters.NotDue(o.policy, c.entries, now) <= Requesters.NotDue(o.policy, before.entries, now)
  }

  lemma PacketKeepsFeeding(o: Options, body: Bodies, c: State, l: Ledger, before: State, p: Facilities.Packet,
                           digest: nat, now: int, asked: Range) returns (l': Ledger)
    requires Feeding(o, body, c, l, before, now, asked) && p.first < before.channel.expected
    requires Requesters.NoneAround(c.entries, p.Carried())
    requires OnPacket(o, c, c.session, p.first, p.count, digest, now).1.Ok?
    ensures var after := Offer(o, body, c, before.session, p.first, p.count, digest, now).0;
            && after == OnPacket(o, c, c.session, p.first, p.count, digest, now).0
            && Feeding(o, body, after, l', before, now, asked)
            && Settles(c.channel, after.channel, p.Carried())
  {
    var (after, result) := OnPacket(o, c, c.session, p.first, p.count, digest, now);
    OfferKeeps(o, body, c, l, c.session, p.first, p.count, digest, now);
    PacketSettles(o, body, c, l, p, digest, now);
    l' := AfterPacket(c, l, c.session, p.first, after, result);
    QuietPacket(o, body, c, l, p, digest, now);
    QuietKeepsHopeful(o.policy, c, after, p.Carried(), now, asked);
  }

  lemma QuietKeepsHopeful(policy: Policies.Policy, c: State, after: State, arrived: Range, now: int, asked: Range)
    requires Quietly(c.channel, c.entries, after, arrived) && HopefulBut(policy, c.entries, now, asked)
    requires Requesters.NoneAround(c.entries, arrived)
    ensures HopefulBut(policy, after.entries, now, asked)
    ensures Requesters.Others(after.entries, asked) <= Requesters.Others(c.entries, asked)
    ensures Requesters.NotDue(policy, after.entries, now) <= Requesters.NotDue(policy, c.entries, now)
  {
    Requesters.CutKeepsNotDue(policy, c.entries, arrived, now);
    Requesters.CutKeepsOthers(c.entries, arrived, asked);
    CutKeepsHopeful(policy, c.entries, arrived, now, asked);
  }

  lemma QuietPacket(o: Options, body: Bodies, c: State, l: Ledger, p: Facilities.Packet, digest: nat, now: int)
    requires Sane(o, body, c, l) && c.phase == Live && p.first < c.channel.expected
    requires OnPacket(o, c, c.session, p.first, p.count, digest, now).1.Ok?
    ensures Quietly(c.channel, c.entries, OnPacket(o, c, c.session, p.first, p.count, digest, now).0, p.Carried())
  {
    var (position, merged) := Arbiters.Offered(o.detect, c.arbiter, p.Carried(), digest);
    ArbiterAccepts(o, c, p, digest, now);
    SameEraArbitrated(o, c, l, p.Carried(), digest);
    JudgedQuietly(o, Noted(c, position, c.session, c.channel.missing * Span(p.Carried())), p.Carried(), merged.value, now);
  }

  lemma JudgedQuietly(o: Options, c: State, arrived: Range, merged: Arbiters.Merged, now: int)
    requires MidPacket(o, c, arrived, merged) && c.phase == Live && arrived.first < c.channel.expected
    requires Judged(o, c, arrived, merged, now).1.Ok?
    ensures Quietly(c.channel, c.entries, Judged(o, c, arrived, merged, now).0, arrived)
  {
    if !(!arrived.IsEmpty() && merged.deliver.IsEmpty() && c.recovered == {}) {
      EntriesAfter(o, c, arrived, merged, now);
    }
  }

  // ---- a whole answer --------------------------------------------------------------------------

  /** The packets of an answer: held, one behind the other, and starting below the expectation. */
  ghost predicate Answering(held: seq<Facilities.Packet>, packets: seq<Facilities.Packet>, expected: nat) {
    Facilities.Consecutive(packets) && forall p :: p in packets ==> p in held && p.first < expected
  }

  lemma AnsweringFront(held: seq<Facilities.Packet>, packets: seq<Facilities.Packet>, expected: nat)
    requires Answering(held, packets, expected) && packets != []
    ensures Answering(held, packets[..|packets| - 1], expected)
  {
    assert forall p :: p in packets[..|packets| - 1] ==> p in packets;
  }

  /** Each packet starts where the client has nothing missing just below it, so none is refused. */
  lemma {:induction false} AnswerKeepsFeeding(o: Options, body: Bodies, before: State, l: Ledger, held: seq<Facilities.Packet>,
                                              packets: seq<Facilities.Packet>, digest: Facilities.Bytes -> nat, now: int, asked: Range)
    returns (l': Ledger)
    requires Feeding(o, body, before, l, before, now, asked) && Agrees(o, before.arbiter.recent, held, digest)
    requires Facilities.Ordered(held) && Answering(held, packets, before.channel.expected)
    requires packets != [] ==> Requesters.NoneAround(before.entries, packets[0].Carried())
    ensures Welcome(o, body, before, packets, digest, now)
    ensures var after := Fed(o, body, before, packets, digest, now);
            && Feeding(o, body, after, l', before, now, asked) && Agrees(o, after.arbiter.recent, held, digest)
            && forall n :: n in Facilities.Carries(packets) ==> Settled(after.channel, n)
  {
    l' := l;
    if packets != [] {
      var front, p := packets[..|packets| - 1], packets[|packets| - 1];
      AnsweringFront(held, packets, before.channel.expected);
      l' := AnswerKeepsFeeding(o, body, before, l, held, front, digest, now, asked);
      l' := NextAnswered(o, body, before, Fed(o, body, before, front, digest, now), l', held, front, p, digest, now, asked);
    }
  }

  /** One packet more of the answer. */
  lemma NextAnswered(o: Options, body: Bodies, before: State, c: State, l: Ledger, held: seq<Facilities.Packet>,
                     front: seq<Facilities.Packet>, p: Facilities.Packet, digest: Facilities.Bytes -> nat, now: int, asked: Range)
    returns (l': Ledger)
    requires Feeding(o, body, c, l, before, now, asked) && Agrees(o, c.arbiter.recent, held, digest) && Facilities.Ordered(held)
    requires p in held && p.first < before.channel.expected && p.count > 0 && Facilities.Consecutive(front)
    requires forall n :: n in Facilities.Carries(front) ==> Settled(c.channel, n)
    requires if front == [] then Requesters.NoneAround(c.entries, p.Carried()) else front[|front| - 1].Carried().end == p.first
    ensures var (after, result) := Offer(o, body, c, before.session, p.first, p.count, digest(p.bytes), now);
            && result.Ok? && Feeding(o, body, after, l', before, now, asked) && Agrees(o, after.arbiter.recent, held, digest)
            && forall n :: n in Facilities.Carries(front) + Span(p.Carried()) ==> Settled(after.channel, n)
  {
    if front != [] {
      SettledBelow(c.entries, c.channel, front, p);
    }
    NextWelcome(o, body, c, l, held, p, digest, now);
    l' := PacketKeepsFeeding(o, body, c, l, before, p, digest(p.bytes), now, asked);
  }

  lemma SettledBelow(entries: seq<Requesters.Entry>, ch: Trackers.Channel, front: seq<Facilities.Packet>, p: Facilities.Packet)
    requires Requesters.Cover(entries) == ch.missing && front != [] && Facilities.Consecutive(front) && p.count > 0
    requires front[|front| - 1].Carried().end == p.first
    requires forall n :: n in Facilities.Carries(front) ==> Settled(ch, n)
    ensures Requesters.NoneAround(entries, p.Carried())
  {
    assert p.first - 1 in Span(front[|front| - 1].Carried());
    assert Settled(ch, p.first - 1);
    Requesters.NoneAroundUncovered(entries, p.Carried());
  }

  lemma NextWelcome(o: Options, body: Bodies, c: State, l: Ledger, held: seq<Facilities.Packet>, p: Facilities.Packet,
                    digest: Facilities.Bytes -> nat, now: int)
    requires Sane(o, body, c, l) && c.phase == Live && p.first < c.channel.expected && p in held
    requires Facilities.Ordered(held) && Agrees(o, c.arbiter.recent, held, digest)
    requires Requesters.NoneAround(c.entries, p.Carried())
    ensures OnPacket(o, c, c.session, p.first, p.count, digest(p.bytes), now).1.Ok?
    ensures Agrees(o, OnPacket(o, c, c.session, p.first, p.count, digest(p.bytes), now).0.arbiter.recent, held, digest)
  {
    PacketWelcome(o, body, c, l, p.first, p.count, p.Carried(), digest(p.bytes), now);
    StillAgrees(o, c, held, p, digest, now);
  }

  /** One poll, and its request answered and fed back. */
  ghost function Round(o: Options, body: Bodies, c: State, held: seq<Facilities.Packet>, digest: Facilities.Bytes -> nat, now: int): State
    requires Policies.Valid(o.policy)
  {
    var (asked, decision) := Poll(o, c, now);
    if decision.SendRequest? then Fed(o, body, asked, Facilities.Served(held, decision.range).emitted, digest, now) else asked
  }

  /** A live client with no request to be given up, facing a venue that still holds what it is missing. */
  ghost predicate Repairable(o: Options, body: Bodies, c: State, l: Ledger, held: seq<Facilities.Packet>,
                             digest: Facilities.Bytes -> nat, now: int) {
    && Sane(o, body, c, l) && c.phase == Live
    && HopefulBut(o.policy, c.entries, now, EMPTY)
    && Agrees(o, c.arbiter.recent, held, digest)
    && Facilities.Ordered(held) && c.channel.missing <= Facilities.Carries(held)
    && o.policy.maxMessages <= Facilities.MAX_MESSAGES_PER_RESPONSE
  }

  /** With no entry to be given up a poll asks for one that is due, or nothing is due and it does nothing. */
  lemma PollSends(o: Options, c: State, now: int) returns (at: nat)
    requires Requesters.Sound(o.policy, c.entries) && Policies.Valid(o.policy) && c.phase == Live
    requires HopefulBut(o.policy, c.entries, now, EMPTY)
    ensures if at < |c.entries| then Asks(o, c, now, at) else Rests(o, c, now)
  {
    var es := c.entries;
    forall i | 0 <= i < |es| ensures Hopeful(o.policy, es[i], now) {
      HopefulAt(o.policy, es, now, EMPTY, i);
      Requesters.ShapedAt(o.policy, es, i);
    }
    at := Requesters.Oldest(o.policy, es, now, Requesters.Due);
    assert Requesters.Oldest(o.policy, es, now, Requesters.Hopeless) == |es|;
    if at < |es| {
      AllHopeful(o.policy, Poll(o, c, now).0.entries, now, es[at].range);
      Requesters.NotDueUpdate(o.policy, es, at, Requesters.Asked(o.policy, es[at], now), now);
    } else {
      Requesters.NotDueWithin(o.policy, es, now);
    }
  }

  ghost predicate Asks(o: Options, c: State, now: int, at: nat)
    requires Policies.Valid(o.policy) && at < |c.entries|
  {
    var (asked, decision) := Poll(o, c, now);
    && decision.SendRequest? && decision.range == c.entries[at].range
    && asked == c.(entries := c.entries[at := Requesters.Asked(o.policy, c.entries[at], now)])
    && HopefulBut(o.policy, asked.entries, now, decision.range)
    && Requesters.NotDue(o.policy, asked.entries, now) <= Requesters.NotDue(o.policy, c.entries, now) + Span(decision.range)
  }

  ghost predicate Rests(o: Options, c: State, now: int)
    requires Policies.Valid(o.policy)
  {
    Poll(o, c, now) == (c, Idle) && Requesters.NotDue(o.policy, c.entries, now) == Requesters.Cover(c.entries)
  }

  /** Once nothing of the asked range is left, every entry is ready again. */
  lemma NothingLeftOfAsked(policy: Policies.Policy, es: seq<Requesters.Entry>, now: int, asked: Range)
    requires Requesters.Sound(policy, es) && HopefulBut(policy, es, now, asked) && Requesters.Cover(es) !! Span(asked)
    ensures HopefulBut(policy, es, now, EMPTY)
  {
    forall i | 0 <= i < |es| ensures Hopeful(policy, es[i], now) {
      HopefulAt(policy, es, now, asked, i);
      Requesters.ShapedAt(policy, es, i);
      Requesters.CoverMember(es, i);
      PredicatesMeanSets(asked, es[i].range);
      assert es[i].range.first in Span(es[i].range);
    }
    AllHopeful(policy, es, now, EMPTY);
  }

  /** Each packet of the answer follows the one before and starts below the expectation, the first holds the
      start of the request, and together they carry it. */
  lemma AnswerFits(ch: Trackers.Channel, held: seq<Facilities.Packet>, wanted: Range)
    requires Trackers.WellFormed(ch) && Facilities.Ordered(held) && ch.missing <= Facilities.Carries(held)
    requires Span(wanted) <= ch.missing && !wanted.IsEmpty() && wanted.Count() <= Facilities.MAX_MESSAGES_PER_RESPONSE
    ensures var emitted := Facilities.Served(held, wanted).emitted;
            && Answering(held, emitted, ch.expected)
            && emitted != [] && emitted[0].Carried().Contains(wanted.first)
            && Span(wanted) <= Facilities.Carries(emitted)
  {
    WantedIsHeld(ch, held, wanted);
    Facilities.HeldIsUnbroken(held, wanted);
    Facilities.EmittedUnbrokenExactly(held, wanted);
    Facilities.FirstEmitted(held, wanted);
    AnswerIsHeld(held, wanted, ch.expected);
  }

  /** So the request is answered by the packets that overlap it. */
  lemma WantedIsHeld(ch: Trackers.Channel, held: seq<Facilities.Packet>, wanted: Range)
    requires Trackers.WellFormed(ch) && Facilities.Ordered(held) && ch.missing <= Facilities.Carries(held)
    requires Span(wanted) <= ch.missing && !wanted.IsEmpty() && wanted.Count() <= Facilities.MAX_MESSAGES_PER_RESPONSE
    ensures Span(wanted) <= Facilities.Carries(held) && wanted.first in Facilities.Carries(held) && wanted.end <= ch.expected
    ensures Facilities.Served(held, wanted).emitted == Facilities.Overlapping(held, wanted)
    ensures Span(wanted) <= Facilities.Carries(Facilities.Overlapping(held, wanted))
  {
    WantedEnds(ch.missing, Facilities.Carries(held), wanted);
    Facilities.AnswerCoversWhatIsHeld(held, wanted);
    HeldIsNotTooOld(held, wanted);
    Facilities.CarriedIsAvailable(held);
    assert wanted.first in Span(Facilities.Available(held));
  }

  lemma WantedEnds(missing: set<nat>, carried: set<nat>, wanted: Range)
    requires Span(wanted) <= missing <= carried && !wanted.IsEmpty()
    ensures Span(wanted) <= carried && wanted.first in carried && wanted.end - 1 in missing
  {
    assert wanted.first in Span(wanted) && wanted.end - 1 in Span(wanted);
  }

  lemma AnswerIsHeld(held: seq<Facilities.Packet>, wanted: Range, expected: nat)
    requires wanted.end <= expected
    ensures forall p :: p in Facilities.Overlapping(held, wanted) ==> p in held && p.first < expected
  {
    forall p | p in Facilities.Overlapping(held, wanted) ensures p in held && p.first < expected {
      Facilities.OnlyWantedPackets(held, wanted, p);
    }
  }

  /** One round of a client that sends is welcome, repairs at least the range it asked for and opens nothing. */
  lemma RoundRepairs(o: Options, body: Bodies, c: State, l: Ledger, held: seq<Facilities.Packet>, digest: Facilities.Bytes -> nat,
                     now: int, after: State) returns (l': Ledger)
    requires Repairable(o, body, c, l, held, digest, now) && after == Round(o, body, c, held, digest, now)
    requires Poll(o, c, now).1.SendRequest?
    ensures Welcome(o, body, Poll(o, c, now).0, Facilities.Served(held, Poll(o, c, now).1.range).emitted, digest, now)
    ensures Repairable(o, body, after, l', held, digest, now)
    ensures after.channel.missing <= c.channel.missing - Span(Poll(o, c, now).1.range) && after.channel.missing != c.channel.missing
    ensures |after.entries| < |c.entries|
    ensures Requesters.NotDue(o.policy, after.entries, now) <= Requesters.NotDue(o.policy, c.entries, now)
  {
    var at := PollSends(o, c, now);
    PollKeeps(o, body, c, l, now);
    var (asked, decision) := Poll(o, c, now);
    l' := FedRepairs(o, body, c, asked, l, held, digest, now, decision.range, at, after);
    GoneFromNotDue(o, after, l', decision.range, Requesters.NotDue(o.policy, after.entries, now),
                   Requesters.NotDue(o.policy, c.entries, now), now);
  }

  lemma GoneFromNotDue(o: Options, c: State, l: Ledger, range: Range, left: set<nat>, before: set<nat>, now: int)
    requires Inv(o, c, l) && c.phase == Live && c.channel.missing !! Span(range)
    requires left == Requesters.NotDue(o.policy, c.entries, now) && left <= before + Span(range)
    ensures left <= before
  {
    Requesters.NotDueWithin(o.policy, c.entries, now);
  }

  lemma FedRepairs(o: Options, body: Bodies, c: State, asked: State, l: Ledger, held: seq<Facilities.Packet>,
                   digest: Facilities.Bytes -> nat, now: int, range: Range, at: nat, after: State) returns (l': Ledger)
    requires Sane(o, body, asked, l) && asked.phase == Live && asked.channel == c.channel && asked.arbiter == c.arbiter
    requires Facilities.Ordered(held) && c.channel.missing <= Facilities.Carries(held) && Agrees(o, c.arbiter.recent, held, digest)
    requires o.policy.maxMessages <= Facilities.MAX_MESSAGES_PER_RESPONSE
    requires Requesters.FitsRequest(o.policy, range) && Span(range) <= c.channel.missing
    requires HopefulBut(o.policy, asked.entries, now, range) && at < |asked.entries| && asked.entries[at].range == range
    requires after == Fed(o, body, asked, Facilities.Served(held, range).emitted, digest, now)
    ensures Welcome(o, body, asked, Facilities.Served(held, range).emitted, digest, now)
    ensures Repairable(o, body, after, l', held, digest, now) && Shrunk(o, asked, after, range, now)
  {
    var emitted := Facilities.Served(held, range).emitted;
    AnswerFits(asked.channel, held, range);
    Requesters.NoneAroundEntry(o.policy, asked.entries, at, emitted[0].Carried());
    l' := AnswerKeepsFeeding(o, body, asked, l, held, emitted, digest, now, range);
    assert range.Covers(asked.entries[at].range);
    AnsweredRound(o, body, asked, after, l', held, digest, now, range, emitted);
    assert Repairable(o, body, after, l', held, digest, now);
  }

  /** All of the range asked for is repaired, and its entry is gone. */
  ghost predicate Shrunk(o: Options, asked: State, after: State, range: Range, now: int) {
    && after.channel.missing <= asked.channel.missing - Span(range) && after.channel.missing != asked.channel.missing
    && |after.entries| < |asked.entries|
    && Requesters.NotDue(o.policy, after.entries, now) <= Requesters.NotDue(o.policy, asked.entries, now)
  }

  lemma AnsweredRound(o: Options, body: Bodies, asked: State, after: State, l: Ledger, held: seq<Facilities.Packet>,
                      digest: Facilities.Bytes -> nat, now: int, range: Range, emitted: seq<Facilities.Packet>)
    requires Feeding(o, body, after, l, asked, now, range) && Agrees(o, after.arbiter.recent, held, digest)
    requires Facilities.Ordered(held) && asked.channel.missing <= Facilities.Carries(held)
    requires o.policy.maxMessages <= Facilities.MAX_MESSAGES_PER_RESPONSE
    requires Span(range) <= asked.channel.missing && !range.IsEmpty()
    requires exists i :: 0 <= i < |asked.entries| && range.Covers(asked.entries[i].range)
    requires Span(range) <= Facilities.Carries(emitted)
    requires forall n :: n in Facilities.Carries(emitted) ==> Settled(after.channel, n)
    ensures Repairable(o, body, after, l, held, digest, now) && Shrunk(o, asked, after, range, now)
  {
    assert range.first in Span(range);
    RangeIsGone(asked.channel, after.channel, range, emitted);
    NothingLeftOfAsked(o.policy, after.entries, now, range);
    FewerEntries(o.policy, asked.entries, after.entries, range);
  }

  /** The entry asked for is gone, and no other was split. */
  lemma FewerEntries(policy: Policies.Policy, asked: seq<Requesters.Entry>, after: seq<Requesters.Entry>, range: Range)
    requires Requesters.Sound(policy, after) && Requesters.Cover(after) !! Span(range)
    requires exists i :: 0 <= i < |asked| && range.Covers(asked[i].range)
    requires Requesters.Others(after, range) <= Requesters.Others(asked, range)
    ensures |after| < |asked|
  {
    forall i | 0 <= i < |after| ensures !range.Covers(after[i].range) {
      Requesters.ShapedAt(policy, after, i);
      Requesters.CoverMember(after, i);
      assert after[i].range.first in Span(after[i].range);
    }
    Requesters.OthersBound(asked, range);
    Requesters.OthersBound(after, range);
  }

  lemma RangeIsGone(ch: Trackers.Channel, after: Trackers.Channel, range: Range, emitted: seq<Facilities.Packet>)
    requires Span(range) <= ch.missing && after.missing <= ch.missing && range.first in Span(range)
    requires Span(range) <= Facilities.Carries(emitted)
    requires forall n :: n in Facilities.Carries(emitted) ==> Settled(after, n)
    ensures after.missing !! Span(range) && after.missing <= ch.missing - Span(range) && after.missing != ch.missing
  {
    forall n | n in Span(range) ensures n !in after.missing {
      assert Settled(after, n);
    }
  }

  // ---- the loop -------------------------------------------------------------------------------------

  ghost function Repeated<T>(step: T -> T, x: T, n: nat): T {
    if n == 0 then x else step(Repeated(step, x, n - 1))
  }

  lemma {:induction false} RepeatingKeeps<T(!new)>(step: T -> T, good: T -> bool, x: T, n: nat)
    requires good(x) && forall y :: good(y) ==> good(step(y))
    ensures good(Repeated(step, x, n))
  {
    if n > 0 {
      RepeatingKeeps(step, good, x, n - 1);
    }
  }

  lemma {:induction false} RepeatingProjects<T(!new), U(!new)>(step: T -> T, other: U -> U, view: T -> U, x: T, n: nat)
    requires forall y :: view(step(y)) == other(view(y))
    ensures view(Repeated(step, x, n)) == Repeated(other, view(x), n)
  {
    if n > 0 {
      RepeatingProjects(step, other, view, x, n - 1);
    }
  }

  ghost function Rounds(o: Options, body: Bodies, c: State, held: seq<Facilities.Packet>, digest: Facilities.Bytes -> nat, now: int, n: nat): State
    requires Policies.Valid(o.policy)
  {
    Repeated((y: State) => Round(o, body, y, held, digest, now), c, n)
  }

  ghost predicate CanRepair(o: Options, body: Bodies, c: State, held: seq<Facilities.Packet>,
                            digest: Facilities.Bytes -> nat, now: int) {
    exists l: Ledger :: Repairable(o, body, c, l, held, digest, now)
  }

  /** Nothing is due any more, or every round was done with an entry; and nothing became less due. */
  ghost predicate Progressed(o: Options, start: State, c: State, n: nat, now: int) {
    && Policies.Valid(o.policy)
    && (Poll(o, c, now) == (c, Idle) || |c.entries| + n <= |start.entries|)
    && Requesters.NotDue(o.policy, c.entries, now) <= Requesters.NotDue(o.policy, start.entries, now)
  }

  lemma OneRoundMore(o: Options, body: Bodies, c: State, held: seq<Facilities.Packet>, digest: Facilities.Bytes -> nat, now: int, n: nat)
    requires Policies.Valid(o.policy) && n > 0
    ensures Rounds(o, body, c, held, digest, now, n) ==
            Round(o, body, Rounds(o, body, c, held, digest, now, n - 1), held, digest, now)
  {}

  lemma {:induction false} RoundsProgress(o: Options, body: Bodies, c: State, held: seq<Facilities.Packet>,
                                          digest: Facilities.Bytes -> nat, now: int, n: nat, after: State)
    requires CanRepair(o, body, c, held, digest, now) && Policies.Valid(o.policy)
    requires after == Rounds(o, body, c, held, digest, now, n)
    ensures CanRepair(o, body, after, held, digest, now) && Progressed(o, c, after, n, now)
  {
    if n > 0 {
      var before := Rounds(o, body, c, held, digest, now, n - 1);
      RoundsProgress(o, body, c, held, digest, now, n - 1, before);
      OneRoundMore(o, body, c, held, digest, now, n);
      RoundProgresses(o, body, c, before, held, digest, now, n, after);
    }
  }

  lemma RoundProgresses(o: Options, body: Bodies, start: State, c: State, held: seq<Facilities.Packet>,
                        digest: Facilities.Bytes -> nat, now: int, n: nat, after: State)
    requires CanRepair(o, body, c, held, digest, now) && n > 0 && Progressed(o, start, c, n - 1, now)
    requires after == Round(o, body, c, held, digest, now)
    ensures CanRepair(o, body, after, held, digest, now) && Progressed(o, start, after, n, now)
  {
    var l: Ledger :| Repairable(o, body, c, l, held, digest, now);
    if Poll(o, c, now).1.SendRequest? {
      var l' := RoundRepairs(o, body, c, l, held, digest, now, after);
    } else {
      var at := PollSends(o, c, now);
      assert after == c;
    }
  }

  /** As many rounds as there are requests outstanding, and the client is still live and asks for nothing more:
      of what it was missing it is missing only what was not due to be asked for. */
  lemma LoopRepairsWhatIsDue(o: Options, body: Bodies, c: State, l: Ledger, held: seq<Facilities.Packet>,
                             digest: Facilities.Bytes -> nat, now: int, n: nat)
    requires Repairable(o, body, c, l, held, digest, now)
    requires |c.entries| <= n
    ensures var after := Rounds(o, body, c, held, digest, now, n);
            && after.phase == Live && Poll(o, after, now).1 == Idle
            && after.channel.missing <= Requesters.NotDue(o.policy, c.entries, now)
  {
    var after := Rounds(o, body, c, held, digest, now, n);
    RoundsProgress(o, body, c, held, digest, now, n, after);
    NothingDue(o, body, after, held, digest, now);
  }

  lemma NothingDue(o: Options, body: Bodies, c: State, held: seq<Facilities.Packet>, digest: Facilities.Bytes -> nat, now: int)
    requires Policies.Valid(o.policy) && CanRepair(o, body, c, held, digest, now)
    requires Poll(o, c, now) == (c, Idle) || c.entries == []
    ensures c.phase == Live && Poll(o, c, now).1 == Idle
    ensures c.channel.missing == Requesters.NotDue(o.policy, c.entries, now)
  {
    var l: Ledger :| Repairable(o, body, c, l, held, digest, now);
    var at := PollSends(o, c, now);
  }

  /** When every request is due, the venue that still holds what was lost repairs all of it. */
  lemma LoopRepairsEverything(o: Options, body: Bodies, c: State, l: Ledger, held: seq<Facilities.Packet>,
                              digest: Facilities.Bytes -> nat, now: int, n: nat)
    requires Repairable(o, body, c, l, held, digest, now) && AllDue(o, c, now)
    requires |c.entries| <= n
    ensures var after := Rounds(o, body, c, held, digest, now, n);
            after.phase == Live && after.channel.missing == {}
  {
    LoopRepairsWhatIsDue(o, body, c, l, held, digest, now, n);
    Requesters.NotDueWithin(o.policy, c.entries, now);
  }

  predicate AllDue(o: Options, c: State, now: int) {
    forall i :: 0 <= i < |c.entries| ==> Requesters.Eligible(o.policy, c.entries[i], now, Requesters.Due)
  }

  const MAX_STEPS: nat := 64

  /** The limit the source puts on the loop is never what ends it. */
  lemma StepsSuffice(o: Options, body: Bodies, c: State, l: Ledger, held: seq<Facilities.Packet>,
                     digest: Facilities.Bytes -> nat, now: int)
    requires Repairable(o, body, c, l, held, digest, now)
    ensures Poll(o, Rounds(o, body, c, held, digest, now, MAX_STEPS - 1), now).1 == Idle
  {
    LoopRepairsWhatIsDue(o, body, c, l, held, digest, now, MAX_STEPS - 1);
  }
}
