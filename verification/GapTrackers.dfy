/** What a receiver is missing on a channel, and what each packet and snapshot does to it.

    The specification treats a packet uniformly: the expectation moves up to the end of what arrived,
    everything it moved past becomes missing, and what arrived stops being missing. The class below
    follows the source's branches and is proved to compute exactly that. */
module GapTrackers {
  import opened Errors
  import opened Ranges
  import opened GapSets

  datatype Sequencing = Established | InOrder | GapOpened | GapFilled | Duplicate | SessionReset

  datatype Observation = Observation(outcome: Sequencing, range: Range, recovered: nat)

  datatype Tally = Tally(
    packets: nat, messages: nat, gapsOpened: nat, missed: nat,
    recovered: nat, duplicates: nat, resets: nat, abandoned: nat)
  {
    function Received(count: nat): Tally { this.(packets := packets + 1, messages := messages + count) }

    function Abandoned(lost: nat): Tally { this.(abandoned := abandoned + lost) }

    function Restarted(lost: nat): Tally { this.(abandoned := abandoned + lost, resets := resets + 1) }

    function Observed(seen: Observation): Tally {
      match seen.outcome
      case GapOpened => this.(gapsOpened := gapsOpened + 1, missed := missed + seen.range.Count())
      case Duplicate => this.(duplicates := duplicates + 1)
      case GapFilled => this.(recovered := recovered + seen.recovered)
      case _ => this
    }
  }

  const NO_TALLY := Tally(0, 0, 0, 0, 0, 0, 0, 0)

  /** The abstract state of one channel. */
  datatype Channel = Channel(missing: set<nat>, expected: nat, session: nat, started: bool, tally: Tally)

  const NEW_CHANNEL := Channel({}, 0, 0, false, NO_TALLY)

  ghost predicate WellFormed(c: Channel) {
    && (forall n :: n in c.missing ==> n < c.expected)
    && Runs(c.missing) <= MAX_OUTSTANDING_GAPS
    && (!c.started ==> c.missing == {} && c.expected == 0)
  }

  function Max(a: nat, b: nat): nat { if a > b then a else b }

  ghost function MissingAfter(c: Channel, arrived: Range): set<nat> {
    (c.missing + Span(Range(c.expected, Max(c.expected, arrived.end)))) - Span(arrived)
  }

  ghost function Observed(c: Channel, session: nat, first: nat, count: nat): (Channel, Result<Observation>) {
    var arrived := Range(first, first + count);
    var t := c.tally.Received(count);
    if !c.started then
      (c.(started := true, session := session, expected := arrived.end, tally := t),
       Ok(Observation(Established, EMPTY, 0)))
    else if session != c.session then
      (c.(missing := {}, session := session, expected := arrived.end,
          tally := t.Restarted(|c.missing|)),
       Ok(Observation(SessionReset, EMPTY, 0)))
    else
      Advanced(c.(tally := t), arrived)
  }

  /** A packet of the current session: refused, with nothing changed, exactly when what would then be
      missing has more runs than there is room for. */
  ghost function Advanced(c: Channel, arrived: Range): (Channel, Result<Observation>) {
    if Runs(MissingAfter(c, arrived)) > MAX_OUTSTANDING_GAPS then
      (c, Err(CapacityExceeded))
    else
      var seen := Classify(c, arrived);
      (c.(missing := MissingAfter(c, arrived), expected := Max(c.expected, arrived.end), tally := c.tally.Observed(seen)),
       Ok(seen))
  }

  /** What an accepted packet of the current session did. */
  ghost function Classify(c: Channel, arrived: Range): Observation {
    var repaired := |c.missing * Span(arrived)|;
    if arrived.first == c.expected then Observation(InOrder, EMPTY, 0)
    else if arrived.first > c.expected then Observation(GapOpened, Range(c.expected, arrived.first), 0)
    else if repaired == 0 then Observation(Duplicate, EMPTY, 0)
    else Observation(GapFilled, arrived, repaired)
  }

  ghost function SnapshotTaken(c: Channel, session: nat, at: nat): (Channel, nat) {
    if c.started && session != c.session then
      (c.(missing := {}, session := session, expected := at,
          tally := c.tally.Restarted(|c.missing|)),
       |c.missing|)
    else
      var kept := AtLeast(c.missing, at);
      var abandoned := AbandonedBelow(c.missing, at);
      (c.(missing := kept, session := session, started := true,
          expected := if c.started then Max(c.expected, at) else at,
          tally := c.tally.Abandoned(abandoned)),
       abandoned)
  }

  /** The first packet of a session, or the first one ever, starts with a clean slate. */
  ghost predicate StartsOver(c: Channel, session: nat) { !c.started || session != c.session }

  lemma ObservedAnew(c: Channel, session: nat, first: nat, count: nat)
    requires WellFormed(c) && StartsOver(c, session)
    ensures var (after, result) := Observed(c, session, first, count);
            && WellFormed(after) && after.started && after.session == session
            && after.missing == {} && after.expected == first + count
            && result == Ok(Observation(if c.started then SessionReset else Established, EMPTY, 0))
  {
    assert Starts({}) == {};
  }

  lemma ObservedAgain(c: Channel, session: nat, first: nat, count: nat, arrived: Range)
    requires WellFormed(c) && !StartsOver(c, session) && arrived == Range(first, first + count)
    ensures var (after, result) := Observed(c, session, first, count);
            && WellFormed(after) && after.started && after.session == session
            && (result.Err? ==> after.missing == c.missing && after.expected == c.expected)
            && (result.Ok? ==>
                  && after.missing == MissingAfter(c, arrived)
                  && after.expected == Max(c.expected, arrived.end)
                  && result.value == Classify(c, arrived))
  {
    var counted := c.(tally := c.tally.Received(count));
    assert Observed(c, session, first, count) == Advanced(counted, arrived);
    AdvancedWellFormed(counted, arrived);
    AdvancedFacts(counted, arrived);
    assert MissingAfter(counted, arrived) == MissingAfter(c, arrived) && Classify(counted, arrived) == Classify(c, arrived);
  }

  lemma AdvancedFacts(c: Channel, arrived: Range)
    ensures var (after, result) := Advanced(c, arrived);
            && after.started == c.started && after.session == c.session
            && (result.Err? ==> after == c)
            && (result.Ok? ==>
                  && after.missing == MissingAfter(c, arrived)
                  && after.expected == Max(c.expected, arrived.end)
                  && result.value == Classify(c, arrived))
  {}

  ghost function AbandonedBelow(missing: set<nat>, at: nat): nat {
    |missing - AtLeast(missing, at)|
  }

  lemma AbandonedCount(missing: set<nat>, at: nat)
    ensures |missing| == AbandonedBelow(missing, at) + |AtLeast(missing, at)|
  {
    assert missing == (missing - AtLeast(missing, at)) + AtLeast(missing, at);
  }

  /** What an accepted packet's observation says, read off the holes before and after it. */
  ghost predicate Says(c: Channel, session: nat, arrived: Range, after: Channel, seen: Observation) {
    var found, repaired, over := after.missing - c.missing, c.missing * Span(arrived), StartsOver(c, session);
    && (seen.outcome == GapOpened <==> found != {})
    && (seen.outcome == GapOpened ==> Span(seen.range) == found && !seen.range.IsEmpty())
    && (seen.outcome == GapFilled <==> !over && repaired != {})
    && (seen.outcome == GapFilled ==> seen.recovered == |repaired|)
    && (seen.outcome == Duplicate <==> !over && arrived.first < c.expected && repaired == {})
    && (seen.outcome == Established <==> !c.started)
    && (seen.outcome == SessionReset <==> c.started && session != c.session)
  }

  lemma ObservationSays(c: Channel, session: nat, arrived: Range, after: Channel, seen: Observation)
    requires WellFormed(c) && arrived.first <= arrived.end
    requires (after, Ok(seen)) == Observed(c, session, arrived.first, arrived.Count())
    ensures Says(c, session, arrived, after, seen)
  {
    if StartsOver(c, session) {
      ObservedAnew(c, session, arrived.first, arrived.Count());
      WithoutNone(c.missing);
    } else {
      ObservedAgain(c, session, arrived.first, arrived.Count(), arrived);
      if arrived.first > c.expected {
        AheadSays(c, session, arrived, Range(c.expected, arrived.first), after);
      } else {
        BehindSays(c, session, arrived, c.missing * Span(arrived), after);
      }
    }
  }

  lemma AheadSays(c: Channel, session: nat, arrived: Range, hole: Range, after: Channel)
    requires WellFormed(c) && !StartsOver(c, session) && hole == Range(c.expected, arrived.first)
    requires c.expected < arrived.first <= arrived.end && after.missing == MissingAfter(c, arrived)
    ensures Says(c, session, arrived, after, Classify(c, arrived))
  {
    AheadAdds(c, arrived);
    PlusMinus(c.missing, Span(hole));
    assert c.expected in Span(hole) && c.missing * Span(arrived) == {};
  }

  lemma BehindSays(c: Channel, session: nat, arrived: Range, repaired: set<nat>, after: Channel)
    requires WellFormed(c) && !StartsOver(c, session) && repaired == c.missing * Span(arrived)
    requires arrived.first <= c.expected && arrived.first <= arrived.end && after.missing == MissingAfter(c, arrived)
    ensures Says(c, session, arrived, after, Classify(c, arrived))
  {
    BehindRemoves(c, arrived);
    MinusMinus(c.missing, Span(arrived));
    assert arrived.first == c.expected ==> repaired == {};
    assert |repaired| == 0 <==> repaired == {};
  }

  // ---- the tallies ---------------------------------------------------------

  /** What a packet adds to each tally, in terms of the holes before and after it. */
  lemma PacketTally(c: Channel, session: nat, first: nat, count: nat)
    requires WellFormed(c)
    ensures var (after, result) := Observed(c, session, first, count);
            var found, closed, over := after.missing - c.missing, c.missing - after.missing, StartsOver(c, session);
            && after.tally.packets == c.tally.packets + 1 && after.tally.messages == c.tally.messages + count
            && after.tally.missed == c.tally.missed + |found|
            && after.tally.gapsOpened == c.tally.gapsOpened + (if found != {} then 1 else 0)
            && after.tally.recovered == c.tally.recovered + (if over then 0 else |closed|)
            && after.tally.abandoned == c.tally.abandoned + (if over then |closed| else 0)
            && after.tally.resets == c.tally.resets + (if over && c.started then 1 else 0)
            && after.tally.duplicates == c.tally.duplicates +
               (if !over && result.Ok? && first < c.expected && closed == {} then 1 else 0)
  {
    var arrived := Range(first, first + count);
    if StartsOver(c, session) {
      WithoutNone(c.missing);
    } else {
      var counted := c.(tally := c.tally.Received(count));
      assert Observed(c, session, first, count) == Advanced(counted, arrived);
      var after := Advanced(counted, arrived).0;
      ChangeOfHoles(counted, arrived, after, after.missing - c.missing, c.missing - after.missing);
    }
  }

  /** The tallies of the holes found and closed. */
  ghost function Tallied(t: Tally, found: set<nat>, closed: set<nat>, repeated: bool): Tally {
    t.(missed := t.missed + |found|,
       gapsOpened := t.gapsOpened + (if found != {} then 1 else 0),
       recovered := t.recovered + |closed|,
       duplicates := t.duplicates + (if repeated && closed == {} then 1 else 0))
  }

  lemma ChangeOfHoles(c: Channel, arrived: Range, after: Channel, found: set<nat>, closed: set<nat>)
    requires WellFormed(c) && arrived.first <= arrived.end && after == Advanced(c, arrived).0
    requires found == after.missing - c.missing && closed == c.missing - after.missing
    ensures after.tally == Tallied(c.tally, found, closed, Advanced(c, arrived).1.Ok? && arrived.first < c.expected)
  {
    AdvancedFacts(c, arrived);
    if Advanced(c, arrived).1.Err? {
      assert found == {} == closed;
    } else if arrived.first > c.expected {
      AheadFinds(c, arrived, found, closed);
    } else {
      BehindCloses(c, arrived, found, closed);
    }
  }

  lemma AheadFinds(c: Channel, arrived: Range, found: set<nat>, closed: set<nat>)
    requires WellFormed(c) && c.expected < arrived.first <= arrived.end
    requires found == MissingAfter(c, arrived) - c.missing && closed == c.missing - MissingAfter(c, arrived)
    ensures c.tally.Observed(Classify(c, arrived)) == Tallied(c.tally, found, closed, false)
  {
    var hole := Range(c.expected, arrived.first);
    AheadAdds(c, arrived);
    PlusMinus(c.missing, Span(hole));
    AheadTally(c, arrived, hole);
  }

  lemma BehindCloses(c: Channel, arrived: Range, found: set<nat>, closed: set<nat>)
    requires WellFormed(c) && arrived.first <= c.expected
    requires found == MissingAfter(c, arrived) - c.missing && closed == c.missing - MissingAfter(c, arrived)
    ensures c.tally.Observed(Classify(c, arrived)) == Tallied(c.tally, found, closed, arrived.first < c.expected)
  {
    BehindRemoves(c, arrived);
    MinusMinus(c.missing, Span(arrived));
    BehindTally(c, arrived, closed);
  }

  lemma AheadTally(c: Channel, arrived: Range, hole: Range)
    requires c.expected < arrived.first <= arrived.end && hole == Range(c.expected, arrived.first)
    ensures c.tally.Observed(Classify(c, arrived)) == Tallied(c.tally, Span(hole), {}, false)
  {
    SpanSize(hole);
    assert c.expected in Span(hole);
    GapTally(c.tally, hole);
  }

  lemma BehindTally(c: Channel, arrived: Range, closed: set<nat>)
    requires WellFormed(c) && arrived.first <= c.expected && closed == c.missing * Span(arrived)
    ensures c.tally.Observed(Classify(c, arrived)) == Tallied(c.tally, {}, closed, arrived.first < c.expected)
  {
    if arrived.first == c.expected {
      assert closed == {};
    } else {
      RepairTally(c.tally, arrived, closed);
    }
  }

  lemma RepairTally(t: Tally, arrived: Range, closed: set<nat>)
    ensures t.Observed(if |closed| == 0 then Observation(Duplicate, EMPTY, 0) else Observation(GapFilled, arrived, |closed|)) ==
            Tallied(t, {}, closed, true)
  {
    ObservedTally(t, arrived, |closed|);
  }

  lemma PlusMinus(a: set<nat>, b: set<nat>)
    requires a !! b
    ensures (a + b) - a == b && a - (a + b) == {}
  {}

  lemma MinusMinus(a: set<nat>, b: set<nat>)
    ensures a - (a - b) == a * b && (a - b) - a == {}
  {}

  lemma WithoutNone(a: set<nat>)
    ensures a - {} == a && {} - a == {}
  {}

  /** A snapshot counts what it gives up, and says how much that is. */
  lemma SnapshotTally(c: Channel, session: nat, at: nat)
    requires WellFormed(c)
    ensures var (after, lost) := SnapshotTaken(c, session, at);
            && lost == |c.missing - after.missing| && after.missing <= c.missing
            && after.tally == c.tally.(abandoned := c.tally.abandoned + lost,
                                       resets := c.tally.resets + (if c.started && session != c.session then 1 else 0))
  {
    WithoutNone(c.missing);
  }

  // ---- whole runs ---------------------------------------------------------

  datatype Event = Packet(session: nat, first: nat, count: nat) | Snapshot(session: nat, at: nat)

  /** What an outside observer remembers: where this channel's responsibility begins, and every number
      carried by a packet that was accepted since. */
  datatype History = History(floor: nat, arrived: set<nat>)

  ghost function Step(c: Channel, e: Event): Channel {
    match e
    case Packet(session, first, count) => Observed(c, session, first, count).0
    case Snapshot(session, at) => SnapshotTaken(c, session, at).0
  }

  ghost function Remember(c: Channel, h: History, e: Event): History {
    match e
    case Packet(session, first, count) =>
      if Observed(c, session, first, count).1.Err? then h
      else if !c.started || session != c.session then History(first, Span(Range(first, first + count)))
      else h.(arrived := h.arrived + Span(Range(first, first + count)))
    case Snapshot(session, at) =>
      if !c.started || session != c.session then History(at, {})
      else h.(floor := Max(h.floor, at))
  }

  ghost function Run(events: seq<Event>): (Channel, History) {
    if events == [] then (NEW_CHANNEL, History(0, {}))
    else
      var (c, h) := Run(events[..|events| - 1]);
      (Step(c, events[|events| - 1]), Remember(c, h, events[|events| - 1]))
  }

  /** Detection is exact: the holes are what lies between the floor and the expectation and never arrived. */
  ghost predicate Exact(c: Channel, h: History) {
    && h.floor <= c.expected
    && (forall n :: n in h.arrived ==> n < c.expected)
    && c.missing == Span(Range(h.floor, c.expected)) - h.arrived
  }

  /** Every message ever counted missing is accounted for. */
  ghost predicate Conserved(c: Channel) {
    c.tally.missed == c.tally.recovered + c.tally.abandoned + |c.missing|
  }

  ghost predicate Accounted(c: Channel, h: History) {
    WellFormed(c) && Exact(c, h) && Conserved(c)
  }

  lemma {:induction false} RunIsExact(events: seq<Event>)
    ensures Accounted(Run(events).0, Run(events).1)
  {
    if events == [] {
      assert Starts({}) == {};
    } else {
      RunIsExact(events[..|events| - 1]);
      var (c, h) := Run(events[..|events| - 1]);
      match events[|events| - 1]
      case Packet(session, first, count) => PacketKeeps(c, h, session, first, count);
      case Snapshot(session, at) => SnapshotKeeps(c, h, session, at);
    }
  }

  lemma BehindRemoves(c: Channel, arrived: Range)
    requires arrived.first <= c.expected
    ensures MissingAfter(c, arrived) == c.missing - Span(arrived)
  {
    assert Span(Range(c.expected, Max(c.expected, arrived.end))) <= Span(arrived);
  }

  lemma AheadAdds(c: Channel, arrived: Range)
    requires WellFormed(c) && c.expected < arrived.first <= arrived.end
    ensures MissingAfter(c, arrived) == c.missing + Span(Range(c.expected, arrived.first))
    ensures c.missing !! Span(Range(c.expected, arrived.first))
  {
    var hole := Range(c.expected, arrived.first);
    assert Span(Range(c.expected, Max(c.expected, arrived.end))) == Span(hole) + Span(arrived);
    assert c.missing !! Span(arrived) && Span(hole) !! Span(arrived);
  }

  lemma InOrderChangesNothing(c: Channel, arrived: Range)
    requires WellFormed(c) && arrived.first == c.expected
    ensures MissingAfter(c, arrived) == c.missing
  {
    BehindRemoves(c, arrived);
    assert c.missing !! Span(arrived);
  }

  // The three branches of the source, each as the uniform rule reads in its case.

  lemma AdvancedBehind(c: Channel, arrived: Range, repaired: nat)
    requires arrived.first < c.expected && repaired == |c.missing * Span(arrived)|
    ensures Runs(c.missing - Span(arrived)) > MAX_OUTSTANDING_GAPS ==> Advanced(c, arrived) == (c, Err(CapacityExceeded))
    ensures Runs(c.missing - Span(arrived)) <= MAX_OUTSTANDING_GAPS ==>
              var seen := if repaired == 0 then Observation(Duplicate, EMPTY, 0) else Observation(GapFilled, arrived, repaired);
              Advanced(c, arrived) == (Channel(c.missing - Span(arrived), Max(c.expected, arrived.end), c.session, c.started,
                                               c.tally.Observed(seen)), Ok(seen))
  {
    BehindRemoves(c, arrived);
  }

  lemma AdvancedAhead(c: Channel, arrived: Range, hole: Range)
    requires WellFormed(c) && c.expected < arrived.first <= arrived.end && hole == Range(c.expected, arrived.first)
    ensures Runs(c.missing + Span(hole)) > MAX_OUTSTANDING_GAPS ==> Advanced(c, arrived) == (c, Err(CapacityExceeded))
    ensures Runs(c.missing + Span(hole)) <= MAX_OUTSTANDING_GAPS ==>
              var seen := Observation(GapOpened, hole, 0);
              Advanced(c, arrived) == (Channel(c.missing + Span(hole), arrived.end, c.session, c.started,
                                               c.tally.Observed(seen)), Ok(seen))
  {
    AheadAdds(c, arrived);
    assert Classify(c, arrived) == Observation(GapOpened, hole, 0);
  }

  lemma AdvancedInOrder(c: Channel, arrived: Range)
    requires WellFormed(c) && c.expected == arrived.first <= arrived.end
    ensures Advanced(c, arrived) == (c.(expected := arrived.end), Ok(Observation(InOrder, EMPTY, 0)))
  {
    InOrderChangesNothing(c, arrived);
  }

  lemma AdvancedWellFormed(c: Channel, arrived: Range)
    requires WellFormed(c) && c.started && arrived.first <= arrived.end
    ensures WellFormed(Advanced(c, arrived).0)
  {
    forall n | n in MissingAfter(c, arrived) ensures n < Max(c.expected, arrived.end) {
      assert n in c.missing || n in Span(Range(c.expected, Max(c.expected, arrived.end)));
    }
  }

  lemma PacketKeeps(c: Channel, h: History, session: nat, first: nat, count: nat)
    requires Accounted(c, h)
    ensures Accounted(Step(c, Packet(session, first, count)), Remember(c, h, Packet(session, first, count)))
  {
    var e, arrived := Packet(session, first, count), Range(first, first + count);
    if !c.started || session != c.session {
      assert Remember(c, h, e) == History(first, Span(arrived));
      RestartAccounted(Step(c, e), arrived);
    } else {
      var counted := c.(tally := c.tally.Received(count));
      var (after, result) := Advanced(counted, arrived);
      AdvanceKeeps(counted, h, arrived);
      RememberAdvance(c, h, session, first, count, result);
      assert Step(c, e) == after;
    }
  }

  lemma RememberAdvance(c: Channel, h: History, session: nat, first: nat, count: nat, result: Result<Observation>)
    requires c.started && session == c.session && result == Observed(c, session, first, count).1
    ensures Remember(c, h, Packet(session, first, count)) ==
            if result.Ok? then h.(arrived := h.arrived + Span(Range(first, first + count))) else h
  {}

  lemma RestartAccounted(c: Channel, arrived: Range)
    requires c.started && c.missing == {} && c.expected == arrived.end && Conserved(c)
    requires arrived.first <= arrived.end
    ensures Accounted(c, History(arrived.first, Span(arrived)))
  {
    assert Starts({}) == {};
  }

  lemma AdvanceKeeps(c: Channel, h: History, arrived: Range)
    requires Accounted(c, h) && c.started && arrived.first <= arrived.end
    ensures Accounted(Advanced(c, arrived).0, if Advanced(c, arrived).1.Ok? then h.(arrived := h.arrived + Span(arrived)) else h)
  {
    if Advanced(c, arrived).1.Ok? {
      var after := Advanced(c, arrived).0;
      ArrivalStaysExact(c, h, arrived);
      AdvanceConserves(c, arrived);
      assert WellFormed(after);
      var h' := h.(arrived := h.arrived + Span(arrived));
      assert Exact(after, h');
    }
  }

  lemma AdvanceConserves(c: Channel, arrived: Range)
    requires WellFormed(c) && Conserved(c) && arrived.first <= arrived.end
    ensures Conserved(Advanced(c, arrived).0)
  {
    if arrived.first > c.expected {
      AheadConserves(c, arrived, Range(c.expected, arrived.first));
    } else if arrived.first < c.expected {
      BehindConserves(c, arrived, |c.missing * Span(arrived)|);
    } else {
      AdvancedInOrder(c, arrived);
    }
  }

  lemma AheadConserves(c: Channel, arrived: Range, hole: Range)
    requires WellFormed(c) && Conserved(c) && c.expected < arrived.first <= arrived.end && hole == Range(c.expected, arrived.first)
    ensures Conserved(Advanced(c, arrived).0)
  {
    AdvancedAhead(c, arrived, hole);
    AheadAdds(c, arrived);
    JoinCount(c.missing, hole);
    GapTally(c.tally, hole);
  }

  lemma GapTally(t: Tally, hole: Range)
    ensures t.Observed(Observation(GapOpened, hole, 0)) == t.(gapsOpened := t.gapsOpened + 1, missed := t.missed + hole.Count())
  {}

  lemma JoinCount(a: set<nat>, hole: Range)
    requires a !! Span(hole)
    ensures |a + Span(hole)| == |a| + hole.Count()
  {
    SpanSize(hole);
  }

  lemma BehindConserves(c: Channel, arrived: Range, repaired: nat)
    requires Conserved(c) && arrived.first < c.expected && repaired == |c.missing * Span(arrived)|
    ensures Conserved(Advanced(c, arrived).0)
  {
    AdvancedBehind(c, arrived, repaired);
    SplitCount(c.missing, Span(arrived));
    ObservedTally(c.tally, arrived, repaired);
  }

  lemma ObservedTally(t: Tally, arrived: Range, repaired: nat)
    ensures t.Observed(Observation(GapFilled, arrived, repaired)) == t.(recovered := t.recovered + repaired)
    ensures t.Observed(Observation(Duplicate, EMPTY, 0)) == t.(duplicates := t.duplicates + 1)
  {}

  lemma SplitCount(a: set<nat>, b: set<nat>)
    ensures |a| == |a - b| + |a * b|
  {
    assert a == (a - b) + a * b;
  }

  lemma DifferencesAgree(known: set<nat>, seen: set<nat>, passed: set<nat>, arrived: set<nat>)
    requires passed !! seen
    ensures ((known - seen) + passed) - arrived == (known + passed) - (seen + arrived)
  {}

  lemma ArrivalStaysExact(c: Channel, h: History, arrived: Range)
    requires WellFormed(c) && Exact(c, h)
    ensures forall n :: n in MissingAfter(c, arrived) ==> n < Max(c.expected, arrived.end)
    ensures MissingAfter(c, arrived) == Span(Range(h.floor, Max(c.expected, arrived.end))) - (h.arrived + Span(arrived))
  {
    var end := Max(c.expected, arrived.end);
    var passed := Span(Range(c.expected, end));
    assert Span(Range(h.floor, end)) == Span(Range(h.floor, c.expected)) + passed;
    forall n | n in MissingAfter(c, arrived) ensures n < end {
      assert n in c.missing || n in passed;
    }
    DifferencesAgree(Span(Range(h.floor, c.expected)), h.arrived, passed, Span(arrived));
  }

  lemma SnapshotKeeps(c: Channel, h: History, session: nat, at: nat)
    requires Accounted(c, h)
    ensures Accounted(Step(c, Snapshot(session, at)), Remember(c, h, Snapshot(session, at)))
  {
    SnapshotTakenWellFormed(c, session, at);
    SnapshotConserves(c, session, at);
    if c.started && session == c.session {
      TrimmedExactly(c, h, at);
    } else {
      assert AtLeast({}, at) == {} && Span(Range(at, at)) == {};
    }
  }

  lemma SnapshotConserves(c: Channel, session: nat, at: nat)
    requires Conserved(c)
    ensures Conserved(SnapshotTaken(c, session, at).0)
  {
    AbandonedCount(c.missing, at);
  }

  lemma SnapshotTakenWellFormed(c: Channel, session: nat, at: nat)
    requires WellFormed(c)
    ensures WellFormed(SnapshotTaken(c, session, at).0)
  {
    assert Starts({}) == {};
    TrimmingAddsNoRuns(c.missing, at);
  }

  lemma TrimmedExactly(c: Channel, h: History, at: nat)
    requires Exact(c, h)
    ensures AtLeast(c.missing, at) == Span(Range(Max(h.floor, at), Max(c.expected, at))) - h.arrived
  {}

  lemma TrimmingAddsNoRuns(missing: set<nat>, at: nat)
    ensures Runs(AtLeast(missing, at)) <= Runs(missing)
  {
    var s := CanonicalExists(missing);
    TrimExact(s, at);
    CanonicalLength(Trim(s, at));
  }

  // ---- the component --------------------------------------------------------

  class GapTracker {
    const missing: GapSet
    var expected: nat
    var session: nat
    var started: bool
    var tally: Tally

    ghost predicate Valid()
      reads this, missing, missing.ranges
    {
      && missing.Valid()
      && WellFormed(Model())
    }

    ghost function Model(): Channel
      reads this, missing, missing.ranges
      requires missing.count <= missing.ranges.Length
    {
      Channel(missing.Missing(), expected, session, started, tally)
    }

    constructor ()
      ensures Valid() && fresh(missing) && fresh(missing.ranges)
      ensures Model() == NEW_CHANNEL
    {
      missing := new GapSet();
      expected, session, started, tally := 0, 0, false, NO_TALLY;
      new;
      assert Starts({}) == {};
    }

    method Observe(session: nat, first: nat, count: nat) returns (result: Result<Observation>)
      requires Valid()
      modifies this, missing, missing.ranges
      ensures Valid()
      ensures (Model(), result) == Observed(old(Model()), session, first, count)
    {
      assert Starts({}) == {};
      tally := tally.Received(count);
      var arrived := Range(first, first + count);

      if !started {
        started, this.session, expected := true, session, arrived.end;
        result := Ok(Observation(Established, EMPTY, 0));
      } else if session != this.session {
        Reset(session, arrived.end);
        result := Ok(Observation(SessionReset, EMPTY, 0));
      } else {
        result := Advance(arrived);
      }
    }

    /** A packet of the current session. */
    method Advance(arrived: Range) returns (result: Result<Observation>)
      requires Valid() && started && arrived.first <= arrived.end
      modifies this, missing, missing.ranges
      ensures Valid()
      ensures (Model(), result) == Advanced(old(Model()), arrived)
    {
      AdvancedWellFormed(Model(), arrived);
      if arrived.first == expected {
        AdvancedInOrder(Model(), arrived);
        expected := arrived.end;
        result := Ok(Observation(InOrder, EMPTY, 0));
      } else if arrived.first > expected {
        result := OpenGap(arrived);
      } else {
        result := HandleBehind(arrived);
      }
    }

    /** Drops everything held for the old session. */
    method Reset(session: nat, expected: nat)
      requires Valid()
      modifies this, missing, missing.ranges
      ensures missing.Valid()
      ensures Model() == Channel({}, expected, session, old(started),
                                 old(tally).Restarted(|old(missing.Missing())|))
    {
      var lost := missing.TotalMissing();
      tally := tally.Restarted(lost);
      missing.Clear();
      this.session, this.expected := session, expected;
    }

    method OpenGap(arrived: Range) returns (result: Result<Observation>)
      requires Valid() && started && expected < arrived.first <= arrived.end
      modifies this, missing, missing.ranges
      ensures missing.Valid()
      ensures (Model(), result) == Advanced(old(Model()), arrived)
    {
      var hole := Range(expected, arrived.first);
      AdvancedAhead(Model(), arrived, hole);
      var fits := missing.Open(hole);
      if !fits {
        return Err(CapacityExceeded);
      }
      expected := arrived.end;
      tally := tally.Observed(Observation(GapOpened, hole, 0));
      return Ok(Observation(GapOpened, hole, 0));
    }

    method HandleBehind(arrived: Range) returns (result: Result<Observation>)
      requires missing.Valid() && arrived.first < expected
      modifies this, missing, missing.ranges
      ensures missing.Valid()
      ensures (Model(), result) == Advanced(old(Model()), arrived)
    {
      ghost var before := Model();
      ghost var repaired := |before.missing * Span(arrived)|;
      AdvancedBehind(before, arrived, repaired);
      var filled := missing.Fill(arrived);
      if filled.Err? {
        assert Model() == before;
        return Err(filled.error);
      }
      assert filled.value == repaired;
      assert missing.Missing() == before.missing - Span(arrived);
      label Filled:
      if arrived.end > expected {
        expected := arrived.end;
      }
      var seen := if filled.value == 0 then Observation(Duplicate, EMPTY, 0)
                  else Observation(GapFilled, arrived, filled.value);
      tally := tally.Observed(seen);
      assert missing.Missing() == old@Filled(missing.Missing());
      assert Model() == Channel(before.missing - Span(arrived), Max(before.expected, arrived.end),
                                before.session, before.started, before.tally.Observed(seen));
      return Ok(seen);
    }

    method SnapshotAt(session: nat, at: nat) returns (abandoned: nat)
      requires Valid()
      modifies this, missing, missing.ranges
      ensures Valid()
      ensures (Model(), abandoned) == SnapshotTaken(old(Model()), session, at)
    {
      SnapshotTakenWellFormed(Model(), session, at);
      if started && session != this.session {
        abandoned := missing.TotalMissing();
        Reset(session, at);
      } else {
        abandoned := AbandonBelow(session, at);
      }
    }

    method AbandonBelow(session: nat, at: nat) returns (abandoned: nat)
      requires missing.Valid() && (started ==> session == this.session)
      modifies this, missing, missing.ranges
      ensures missing.Valid()
      ensures (Model(), abandoned) == SnapshotTaken(old(Model()), session, at)
    {
      ghost var before := Model();
      AbandonedCount(before.missing, at);
      abandoned := missing.DiscardBelow(at);
      ghost var kept := missing.Missing();
      tally := tally.Abandoned(abandoned);
      this.session := session;
      if !started || at > expected {
        started, expected := true, at;
      }
      assert missing.Missing() == kept == AtLeast(before.missing, at);
      assert abandoned == AbandonedBelow(before.missing, at);
    }
  }
}
