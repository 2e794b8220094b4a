/** Loss, repair and book in one run: what the repair loop does to a client is a run of polls and packets, and
    at the end of it the book is the book of the feed without loss. */
module RepairedBooks {
  import opened Errors
  import opened Ranges
  import opened Clients
  import opened ClientLedgers
  import opened ClientRuns
  import opened RetransmitRepairs
  import opened RepairLoops
  import opened EndToEnd
  import Line = Pipelines
  import Policies = RetransmitPolicies
  import Facilities = RetransmitFacilities
  import Requesters

  // ---- the loop as events ----------------------------------------------------------------

  function Carrying(session: nat, p: Facilities.Packet, digest: Facilities.Bytes -> nat, now: int): Event {
    Packet(session, p.first, p.count, digest(p.bytes), now)
  }

  function Feed(session: nat, packets: seq<Facilities.Packet>, digest: Facilities.Bytes -> nat, now: int): seq<Event> {
    if packets == [] then []
    else Feed(session, packets[..|packets| - 1], digest, now) + [Carrying(session, packets[|packets| - 1], digest, now)]
  }

  /** A poll, and the packets of the answer to its request. */
  ghost function RoundEvents(o: Options, c: State, held: seq<Facilities.Packet>, digest: Facilities.Bytes -> nat, now: int): seq<Event>
    requires Policies.Valid(o.policy)
  {
    var decision := Poll(o, c, now).1;
    [PollAt(now)] + if decision.SendRequest? then Feed(c.session, Facilities.Served(held, decision.range).emitted, digest, now) else []
  }

  /** A run so far, and where it ends. */
  datatype Course = Course(events: seq<Event>, end: State)

  /** One round more. */
  ghost function Onward(o: Options, body: Bodies, x: Course, held: seq<Facilities.Packet>, digest: Facilities.Bytes -> nat, now: int): Course
    requires Policies.Valid(o.policy)
  {
    Course(x.events + RoundEvents(o, x.end, held, digest, now), Round(o, body, x.end, held, digest, now))
  }

  ghost function Looped(o: Options, body: Bodies, x: Course, held: seq<Facilities.Packet>, digest: Facilities.Bytes -> nat, now: int, n: nat): Course
    requires Policies.Valid(o.policy)
  {
    Repeated((y: Course) => Onward(o, body, y, held, digest, now), x, n)
  }

  /** A calm run that ends in `c`. */
  ghost predicate Leads(o: Options, body: Bodies, events: seq<Event>, c: State)
    requires Policies.Valid(o.policy)
  {
    CalmRun(o, body, events) && Run(o, body, events).0 == c
  }

  lemma OneEventMore(o: Options, body: Bodies, events: seq<Event>, c: State, e: Event, all: seq<Event>, after: State)
    requires Policies.Valid(o.policy) && Leads(o, body, events, c) && Calm(o, body, c, e)
    requires all == events + [e] && after == Step(o, body, c, e)
    ensures Leads(o, body, all, after)
  {
    assert all[..|events|] == events;
  }

  // ---- an answer -----------------------------------------------------------------------------

  lemma {:induction false} FedIsRun(o: Options, body: Bodies, events: seq<Event>, c: State, l: Ledger, packets: seq<Facilities.Packet>,
                                    digest: Facilities.Bytes -> nat, now: int, all: seq<Event>, after: State)
    requires Sane(o, body, c, l) && c.phase == Live && Leads(o, body, events, c)
    requires Welcome(o, body, c, packets, digest, now)
    requires all == events + Feed(c.session, packets, digest, now) && after == Fed(o, body, c, packets, digest, now)
    ensures Leads(o, body, all, after)
  {
    if packets == [] {
      assert all == events;
    } else {
      var front, p := packets[..|packets| - 1], packets[|packets| - 1];
      var before, some := Fed(o, body, c, front, digest, now), events + Feed(c.session, front, digest, now);
      FedIsRun(o, body, events, c, l, front, digest, now, some, before);
      FeedingStaysLive(o, body, c, l, packets, digest, now);
      LastIsCalm(o, body, c, packets, digest, now, before, after);
      FeedUnfolds(c.session, packets, digest, now, events, all, some);
      OneEventMore(o, body, some, before, Carrying(c.session, p, digest, now), all, after);
    }
  }

  lemma FeedUnfolds(session: nat, packets: seq<Facilities.Packet>, digest: Facilities.Bytes -> nat, now: int,
                    events: seq<Event>, all: seq<Event>, some: seq<Event>)
    requires packets != [] && all == events + Feed(session, packets, digest, now)
    requires some == events + Feed(session, packets[..|packets| - 1], digest, now)
    ensures all == some + [Carrying(session, packets[|packets| - 1], digest, now)]
  {}

  lemma FeedingStaysLive(o: Options, body: Bodies, c: State, l: Ledger, packets: seq<Facilities.Packet>,
                         digest: Facilities.Bytes -> nat, now: int)
    requires Sane(o, body, c, l) && c.phase == Live && Welcome(o, body, c, packets, digest, now) && packets != []
    ensures Fed(o, body, c, packets, digest, now).phase == Live
    ensures Fed(o, body, c, packets[..|packets| - 1], digest, now).session == c.session
  {
    var l0 := FeedingSettles(o, body, c, l, packets[..|packets| - 1], digest, now);
    var l1 := FeedingSettles(o, body, c, l, packets, digest, now);
  }

  lemma LastIsCalm(o: Options, body: Bodies, c: State, packets: seq<Facilities.Packet>, digest: Facilities.Bytes -> nat, now: int,
                   before: State, after: State)
    requires Policies.Valid(o.policy) && packets != [] && Welcome(o, body, c, packets, digest, now)
    requires before == Fed(o, body, c, packets[..|packets| - 1], digest, now) && before.session == c.session
    requires after == Fed(o, body, c, packets, digest, now) && after.phase == Live
    ensures var e := Carrying(c.session, packets[|packets| - 1], digest, now);
            Calm(o, body, before, e) && Step(o, body, before, e) == after
  {
    WelcomeIsCalm(o, body, before, Carrying(c.session, packets[|packets| - 1], digest, now));
  }

  lemma WelcomeIsCalm(o: Options, body: Bodies, c: State, e: Event)
    requires Policies.Valid(o.policy) && e.Packet? && e.session == c.session
    requires Offer(o, body, c, e.session, e.first, e.count, e.digest, e.now).1.Ok?
    requires Offer(o, body, c, e.session, e.first, e.count, e.digest, e.now).0.phase == Live
    ensures Calm(o, body, c, e)
  {}

  // ---- a round ---------------------------------------------------------------------------------

  lemma RoundIsRun(o: Options, body: Bodies, events: seq<Event>, c: State, held: seq<Facilities.Packet>,
                   digest: Facilities.Bytes -> nat, now: int, all: seq<Event>, after: State)
    requires Policies.Valid(o.policy) && CanRepair(o, body, c, held, digest, now) && Leads(o, body, events, c)
    requires all == events + RoundEvents(o, c, held, digest, now) && after == Round(o, body, c, held, digest, now)
    ensures Leads(o, body, all, after)
  {
    var l: Ledger :| Repairable(o, body, c, l, held, digest, now);
    var at := PollSends(o, c, now);
    if at < |c.entries| {
      RepairIsRun(o, body, events, c, l, held, digest, now, all, after);
    } else {
      OneEventMore(o, body, events, c, PollAt(now), all, after);
    }
  }

  lemma RepairIsRun(o: Options, body: Bodies, events: seq<Event>, c: State, l: Ledger, held: seq<Facilities.Packet>,
                    digest: Facilities.Bytes -> nat, now: int, all: seq<Event>, after: State)
    requires Repairable(o, body, c, l, held, digest, now) && Leads(o, body, events, c) && Poll(o, c, now).1.SendRequest?
    requires all == events + RoundEvents(o, c, held, digest, now) && after == Round(o, body, c, held, digest, now)
    ensures Leads(o, body, all, after)
  {
    var at := PollSends(o, c, now);
    var (asked, decision) := Poll(o, c, now);
    PollKeeps(o, body, c, l, now);
    var l' := RoundRepairs(o, body, c, l, held, digest, now, after);
    OneEventMore(o, body, events, c, PollAt(now), events + [PollAt(now)], asked);
    RoundUnfolds(o, c, held, digest, now, decision.range, events, all);
    FedIsRun(o, body, events + [PollAt(now)], asked, l, Facilities.Served(held, decision.range).emitted, digest, now, all, after);
  }

  lemma RoundUnfolds(o: Options, c: State, held: seq<Facilities.Packet>, digest: Facilities.Bytes -> nat, now: int, range: Range,
                     events: seq<Event>, all: seq<Event>)
    requires Policies.Valid(o.policy) && Poll(o, c, now).1.SendRequest? && Poll(o, c, now).1.range == range
    requires all == events + RoundEvents(o, c, held, digest, now)
    ensures all == (events + [PollAt(now)]) + Feed(c.session, Facilities.Served(held, range).emitted, digest, now)
  {}

  // ---- the loop -----------------------------------------------------------------------------------

  ghost predicate OnCourse(o: Options, body: Bodies, x: Course, held: seq<Facilities.Packet>, digest: Facilities.Bytes -> nat, now: int) {
    Policies.Valid(o.policy) && CanRepair(o, body, x.end, held, digest, now) && Leads(o, body, x.events, x.end)
  }

  lemma StaysOnCourse(o: Options, body: Bodies, x: Course, held: seq<Facilities.Packet>, digest: Facilities.Bytes -> nat, now: int)
    requires OnCourse(o, body, x, held, digest, now)
    ensures OnCourse(o, body, Onward(o, body, x, held, digest, now), held, digest, now)
  {
    var after := Onward(o, body, x, held, digest, now);
    RoundProgresses(o, body, x.end, x.end, held, digest, now, 1, after.end);
    RoundIsRun(o, body, x.events, x.end, held, digest, now, after.events, after.end);
  }

  /** The loop is a run: it continues the events so far, calmly. */
  lemma LoopIsRun(o: Options, body: Bodies, x: Course, held: seq<Facilities.Packet>, digest: Facilities.Bytes -> nat, now: int, n: nat)
    requires OnCourse(o, body, x, held, digest, now)
    ensures OnCourse(o, body, Looped(o, body, x, held, digest, now, n), held, digest, now)
  {
    var good := (y: Course) => OnCourse(o, body, y, held, digest, now);
    forall y: Course | good(y) ensures good(Onward(o, body, y, held, digest, now)) {
      StaysOnCourse(o, body, y, held, digest, now);
    }
    RepeatingKeeps((y: Course) => Onward(o, body, y, held, digest, now), good, x, n);
  }

  lemma LoopEndsWithTheRounds(o: Options, body: Bodies, x: Course, held: seq<Facilities.Packet>, digest: Facilities.Bytes -> nat,
                              now: int, n: nat)
    requires Policies.Valid(o.policy)
    ensures Looped(o, body, x, held, digest, now, n).end == Rounds(o, body, x.end, held, digest, now, n)
  {
    RepeatingProjects((y: Course) => Onward(o, body, y, held, digest, now), (c: State) => Round(o, body, c, held, digest, now),
                      (y: Course) => y.end, x, n);
  }

  // ---- what the loop brings is the venue's ----------------------------------------------------------

  ghost predicate AllReach(events: seq<Event>, bound: nat) { forall e :: e in events ==> Reaches(e, bound) }

  ghost predicate HeldReaches(packets: seq<Facilities.Packet>, bound: nat) { forall p :: p in packets ==> p.first + p.count <= bound }

  lemma {:induction false} FeedReaches(session: nat, packets: seq<Facilities.Packet>, digest: Facilities.Bytes -> nat, now: int, bound: nat)
    requires HeldReaches(packets, bound)
    ensures AllReach(Feed(session, packets, digest, now), bound)
  {
    if packets != [] {
      FeedReaches(session, packets[..|packets| - 1], digest, now, bound);
    }
  }

  /** Nothing but what the venue holds, and the feed joined at `at`. */
  ghost predicate FromTheVenue(x: Course, bound: nat, at: nat) { AllReach(x.events, bound) && JoinedAt(x.events) == Some(at) }

  lemma LoopReaches(o: Options, body: Bodies, x: Course, held: seq<Facilities.Packet>, digest: Facilities.Bytes -> nat, now: int, n: nat,
                    bound: nat, at: nat)
    requires Policies.Valid(o.policy) && HeldReaches(held, bound) && FromTheVenue(x, bound, at)
    ensures FromTheVenue(Looped(o, body, x, held, digest, now, n), bound, at)
  {
    var good := (y: Course) => FromTheVenue(y, bound, at);
    forall y: Course | good(y) ensures good(Onward(o, body, y, held, digest, now)) {
      RoundReaches(o, y.end, held, digest, now, bound);
      BothReach(y.events, RoundEvents(o, y.end, held, digest, now), bound);
      JoinedStays(y.events, RoundEvents(o, y.end, held, digest, now));
    }
    RepeatingKeeps((y: Course) => Onward(o, body, y, held, digest, now), good, x, n);
  }

  lemma BothReach(a: seq<Event>, b: seq<Event>, bound: nat)
    requires AllReach(a, bound) && AllReach(b, bound)
    ensures AllReach(a + b, bound)
  {}

  lemma RoundReaches(o: Options, c: State, held: seq<Facilities.Packet>, digest: Facilities.Bytes -> nat, now: int, bound: nat)
    requires Policies.Valid(o.policy) && HeldReaches(held, bound)
    ensures AllReach(RoundEvents(o, c, held, digest, now), bound)
  {
    var decision := Poll(o, c, now).1;
    if decision.SendRequest? {
      var packets := Facilities.Served(held, decision.range).emitted;
      forall p | p in packets ensures p.first + p.count <= bound {
        Facilities.OnlyWantedPackets(held, decision.range, p);
      }
      FeedReaches(c.session, packets, digest, now, bound);
    }
  }

  lemma {:induction false} JoinedStays(events: seq<Event>, more: seq<Event>)
    requires JoinedAt(events).Some?
    ensures JoinedAt(events + more) == JoinedAt(events)
  {
    if more == [] {
      assert events + more == events;
    } else {
      JoinedStays(events, more[..|more| - 1]);
      assert (events + more)[..|events + more| - 1] == events + more[..|more| - 1];
    }
  }

  // ---- loss, repair and book --------------------------------------------------------------------------

  /** A client that joined at message 1, after any loss, duplication and reordering, and then one round for every
      request it has outstanding: nothing is missing, and the book is the book of the feed without loss, up to all that
      the client has heard of. */
  lemma LossIsRepaired(o: Options, body: Bodies, depth: nat, published: Line.Published, events: seq<Event>, bound: nat,
                       held: seq<Facilities.Packet>, digest: Facilities.Bytes -> nat, now: int, n: nat, all: seq<Event>)
    requires Policies.Valid(o.policy) && CalmRun(o, body, events) && JoinedAt(events) == Some(1)
    requires FullFeed(published, events, bound) && HeldReaches(held, bound)
    requires CanRepair(o, body, Run(o, body, events).0, held, digest, now)
    requires AllDue(o, Run(o, body, events).0, now) && |Run(o, body, events).0.entries| <= n
    requires all == Looped(o, body, Course(events, Run(o, body, events).0), held, digest, now, n).events
    ensures CalmRun(o, body, all) && Run(o, body, all).0.phase == Live && Run(o, body, all).0.channel.missing == {}
    ensures var expected, p := Run(o, body, all).0.channel.expected, LineRun(o, body, depth, published, all);
            && (forall k :: 1 <= k < expected ==> k in published)
            && p.next == expected && p.book == Line.LossFree(depth, published, expected)
  {
    LoopIsWhole(o, body, events, Run(o, body, events).0, held, digest, now, n, all);
    LoopReaches(o, body, Course(events, Run(o, body, events).0), held, digest, now, n, bound, 1);
    BookIsWhole(o, body, depth, published, all, bound);
  }

  lemma LoopIsWhole(o: Options, body: Bodies, events: seq<Event>, c: State, held: seq<Facilities.Packet>,
                    digest: Facilities.Bytes -> nat, now: int, n: nat, all: seq<Event>)
    requires Policies.Valid(o.policy) && CanRepair(o, body, c, held, digest, now) && Leads(o, body, events, c)
    requires AllDue(o, c, now) && |c.entries| <= n && all == Looped(o, body, Course(events, c), held, digest, now, n).events
    ensures CalmRun(o, body, all) && Run(o, body, all).0.phase == Live && Run(o, body, all).0.channel.missing == {}
  {
    var l: Ledger :| Repairable(o, body, c, l, held, digest, now);
    LoopIsRun(o, body, Course(events, c), held, digest, now, n);
    LoopEndsWithTheRounds(o, body, Course(events, c), held, digest, now, n);
    LoopRepairsEverything(o, body, c, l, held, digest, now, n);
  }

  lemma BookIsWhole(o: Options, body: Bodies, depth: nat, published: Line.Published, all: seq<Event>, bound: nat)
    requires Policies.Valid(o.policy) && CalmRun(o, body, all) && JoinedAt(all) == Some(1) && FullFeed(published, all, bound)
    requires Run(o, body, all).0.channel.missing == {} && Run(o, body, all).0.phase == Live
    ensures var expected, p := Run(o, body, all).0.channel.expected, LineRun(o, body, depth, published, all);
            && (forall k :: 1 <= k < expected ==> k in published)
            && p.next == expected && p.book == Line.LossFree(depth, published, expected)
  {
    BookIsLossFree(o, body, depth, published, all, bound);
    EraBeginsWhereJoined(o, body, all);
    CalmIsLawful(o, body, all);
    RunKeeps(o, body, all);
    assert Balanced(Run(o, body, all).0, Run(o, body, all).1);
  }
}
