/** A retransmission answer fed to the client repairs what it answers: the facility and the client together. */
module RetransmitRepairs {
  import opened Ranges
  import opened GapSets
  import opened Clients
  import opened ClientLedgers
  import Arbiters
  import Policies = RetransmitPolicies
  import Facilities = RetransmitFacilities
  import Requesters
  import Trackers = GapTrackers

  /** Seen and not missing. */
  ghost predicate Settled(ch: Trackers.Channel, n: nat) { n < ch.expected && n !in ch.missing }

  /** Everything that arrived is settled, and everything settled before still is. */
  ghost predicate Settles(ch: Trackers.Channel, after: Trackers.Channel, arrived: Range) {
    && (forall n :: n in Span(arrived) ==> Settled(after, n))
    && (forall n :: Settled(ch, n) ==> Settled(after, n))
  }

  ghost predicate StaysLive(session: nat, after: State) { after.phase == Live && after.session == session }

  lemma SequencedSettles(o: Options, c: State, arrived: Range, merged: Arbiters.Merged, now: int)
    requires MidPacket(o, c, arrived, merged) && c.phase == Live
    requires Sequenced(o, c, arrived, merged, now).1.Ok?
    ensures StaysLive(c.session, Sequenced(o, c, arrived, merged, now).0)
    ensures Settles(c.channel, Sequenced(o, c, arrived, merged, now).0.channel, arrived)
  {
    SuccessParts(o, c, arrived, merged, now);
    MissingAfterSettles(c.channel, Sequenced(o, c, arrived, merged, now).0.channel, arrived);
  }

  lemma MissingAfterSettles(ch: Trackers.Channel, after: Trackers.Channel, arrived: Range)
    requires after.missing == Trackers.MissingAfter(ch, arrived) && after.expected == Trackers.Max(ch.expected, arrived.end)
    ensures Settles(ch, after, arrived)
  {}

  /** A packet of the session a live client is in, as the arbiter leaves it. */
  lemma ArbiterAccepts(o: Options, c: State, p: Facilities.Packet, digest: nat, now: int)
    requires Policies.Valid(o.policy) && c.phase == Live
    requires OnPacket(o, c, c.session, p.first, p.count, digest, now).1.Ok?
    ensures var (position, merged) := Arbiters.Offered(o.detect, c.arbiter, p.Carried(), digest);
            && merged.Ok?
            && OnPacket(o, c, c.session, p.first, p.count, digest, now) ==
               Judged(o, Noted(c, position, c.session, c.channel.missing * Span(p.Carried())), p.Carried(), merged.value, now)
  {
    assert OnPacket(o, c, c.session, p.first, p.count, digest, now) ==
           Arbitrated(o, c, c.session, false, p.Carried(), digest, now);
  }

  /** A live client that accepts a packet of its session stays live, is missing nothing the packet carried,
      and forgets nothing it had settled before. */
  lemma PacketSettles(o: Options, body: Bodies, c: State, l: Ledger, p: Facilities.Packet, digest: nat, now: int)
    requires Sane(o, body, c, l) && c.phase == Live
    requires OnPacket(o, c, c.session, p.first, p.count, digest, now).1.Ok?
    ensures StaysLive(c.session, OnPacket(o, c, c.session, p.first, p.count, digest, now).0)
    ensures Settles(c.channel, OnPacket(o, c, c.session, p.first, p.count, digest, now).0.channel, p.Carried())
  {
    var (position, merged) := Arbiters.Offered(o.detect, c.arbiter, p.Carried(), digest);
    ArbiterAccepts(o, c, p, digest, now);
    SameEraArbitrated(o, c, l, p.Carried(), digest);
    JudgedSettles(o, Noted(c, position, c.session, c.channel.missing * Span(p.Carried())), p.Carried(), merged.value, now);
  }

  lemma JudgedSettles(o: Options, c: State, arrived: Range, merged: Arbiters.Merged, now: int)
    requires MidPacket(o, c, arrived, merged) && c.phase == Live
    requires merged.deliver.IsEmpty() ==> Span(merged.deliver) == AtLeast(Span(arrived), c.channel.expected)
    requires Judged(o, c, arrived, merged, now).1.Ok?
    ensures StaysLive(c.session, Judged(o, c, arrived, merged, now).0)
    ensures Settles(c.channel, Judged(o, c, arrived, merged, now).0.channel, arrived)
  {
    if !arrived.IsEmpty() && merged.deliver.IsEmpty() && c.recovered == {} {
      DuplicateIsSettled(c.channel, arrived, merged.deliver);
    } else {
      SequencedSettles(o, c, arrived, merged, now);
    }
  }

  lemma DuplicateIsSettled(ch: Trackers.Channel, arrived: Range, deliver: Range)
    requires deliver.IsEmpty() && Span(deliver) == AtLeast(Span(arrived), ch.expected)
    requires ch.missing * Span(arrived) == {}
    ensures forall n :: n in Span(arrived) ==> Settled(ch, n)
  {
    PredicatesMeanSets(deliver, EMPTY);
    forall n | n in Span(arrived) ensures Settled(ch, n) {
      assert n < ch.expected by {
        assert n !in AtLeast(Span(arrived), ch.expected);
      }
      assert n !in ch.missing * Span(arrived);
    }
  }

  /** The client after a list of packets of its own session. */
  ghost function Fed(o: Options, body: Bodies, c: State, packets: seq<Facilities.Packet>, digest: Facilities.Bytes -> nat, now: int): State
    requires Policies.Valid(o.policy)
  {
    if packets == [] then c
    else
      var before, p := Fed(o, body, c, packets[..|packets| - 1], digest, now), packets[|packets| - 1];
      Offer(o, body, before, c.session, p.first, p.count, digest(p.bytes), now).0
  }

  ghost predicate Welcome(o: Options, body: Bodies, c: State, packets: seq<Facilities.Packet>, digest: Facilities.Bytes -> nat, now: int)
    requires Policies.Valid(o.policy)
  {
    packets != [] ==>
      var before, p := Fed(o, body, c, packets[..|packets| - 1], digest, now), packets[|packets| - 1];
      && Welcome(o, body, c, packets[..|packets| - 1], digest, now)
      && Offer(o, body, before, c.session, p.first, p.count, digest(p.bytes), now).1.Ok?
  }

  lemma {:induction false} FeedingSettles(o: Options, body: Bodies, c: State, l: Ledger, packets: seq<Facilities.Packet>,
                                          digest: Facilities.Bytes -> nat, now: int) returns (l': Ledger)
    requires Sane(o, body, c, l) && c.phase == Live
    requires Welcome(o, body, c, packets, digest, now)
    ensures var after := Fed(o, body, c, packets, digest, now);
            && Sane(o, body, after, l') && StaysLive(c.session, after)
            && (forall n :: n in Facilities.Carries(packets) ==> Settled(after.channel, n))
  {
    l' := l;
    if packets != [] {
      var front, p := packets[..|packets| - 1], packets[|packets| - 1];
      l' := FeedingSettles(o, body, c, l, front, digest, now);
      var before := Fed(o, body, c, front, digest, now);
      PacketSettles(o, body, before, l', p, digest(p.bytes), now);
      OfferKeeps(o, body, before, l', c.session, p.first, p.count, digest(p.bytes), now);
      l' := AfterPacket(before, l', c.session, p.first,
                        OnPacket(o, before, c.session, p.first, p.count, digest(p.bytes), now).0,
                        OnPacket(o, before, c.session, p.first, p.count, digest(p.bytes), now).1);
    }
  }

  lemma HeldIsNotTooOld(held: seq<Facilities.Packet>, wanted: Range)
    requires Facilities.Ordered(held) && Span(wanted) <= Facilities.Carries(held)
    ensures !wanted.IsEmpty() ==> held != [] && wanted.first >= Facilities.Available(held).first
  {
    Facilities.CarriedIsAvailable(held);
    if !wanted.IsEmpty() {
      assert wanted.first in Span(wanted);
    }
  }

  /** A request answered in full and accepted packet by packet leaves nothing of the request missing and
      nothing of it still being asked for. */
  lemma AnswerRepairs(o: Options, body: Bodies, c: State, l: Ledger, held: seq<Facilities.Packet>, wanted: Range,
                      digest: Facilities.Bytes -> nat, now: int)
    requires Sane(o, body, c, l) && c.phase == Live
    requires Facilities.Ordered(held) && Span(wanted) <= Facilities.Carries(held)
    requires wanted.Count() <= Facilities.MAX_MESSAGES_PER_RESPONSE
    requires Welcome(o, body, c, Facilities.Served(held, wanted).emitted, digest, now)
    ensures Facilities.Served(held, wanted).result.Ok?
    ensures var after := Fed(o, body, c, Facilities.Served(held, wanted).emitted, digest, now);
            && after.phase == Live
            && after.channel.missing !! Span(wanted)
            && Requesters.Cover(after.entries) !! Span(wanted)
  {
    var emitted := Facilities.Served(held, wanted).emitted;
    Facilities.AnswerCoversWhatIsHeld(held, wanted);
    HeldIsNotTooOld(held, wanted);
    var l' := FeedingSettles(o, body, c, l, emitted, digest, now);
    var after := Fed(o, body, c, emitted, digest, now);
    assert LiveInvariant(after, l');
    forall n | n in Span(wanted) ensures n !in after.channel.missing {
      assert n in Span(wanted) * Facilities.Carries(held);
      assert Settled(after.channel, n);
    }
  }
}
