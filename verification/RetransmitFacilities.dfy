/** A venue's retransmission window: the last packets published, in an overwriting ring, and the
    answers it gives to requests for them. */
module RetransmitFacilities {
  import opened Arithmetic
  import opened Errors
  import opened Ranges

  type Bytes = seq<bv8>

  const MAX_MESSAGES_PER_RESPONSE: nat := 60_000

  datatype Packet = Packet(first: nat, count: nat, bytes: Bytes) {
    function Carried(): Range { Range(first, first + count) }
  }

  /** `wanted` refused, or the packets emitted with the range they serve. */
  datatype Answer = Answer(result: Result<Range>, emitted: seq<Packet>)

  // ---- the window -------------------------------------------------------------------

  /** At most `window` packets, the newest ones. */
  function Newest(window: nat, held: seq<Packet>): (s: seq<Packet>)
    ensures |s| <= window && |s| <= |held|
  {
    if |held| <= window then held else held[|held| - window..]
  }

  /** Heartbeats are not kept, and a packet too big for a slot is refused. */
  function Recorded(window: nat, maxDatagram: nat, held: seq<Packet>, p: Packet): (seq<Packet>, Result<()>) {
    if p.count == 0 then (held, Ok(()))
    else if |p.bytes| > maxDatagram then (held, Err(CapacityExceeded))
    else (Newest(window, held + [p]), Ok(()))
  }

  function RecordAll(window: nat, maxDatagram: nat, packets: seq<Packet>): seq<Packet> {
    if packets == [] then []
    else Recorded(window, maxDatagram, RecordAll(window, maxDatagram, packets[..|packets| - 1]), packets[|packets| - 1]).0
  }

  /** The packets of a stream that the facility keeps at all, in publication order. */
  function Keepable(maxDatagram: nat, packets: seq<Packet>): seq<Packet> {
    if packets == [] then []
    else
      var last := packets[|packets| - 1];
      Keepable(maxDatagram, packets[..|packets| - 1]) + if last.count > 0 && |last.bytes| <= maxDatagram then [last] else []
  }

  /** The window is exactly the most recent keepable packets, oldest first. */
  lemma {:induction false} WindowIsNewest(window: nat, maxDatagram: nat, packets: seq<Packet>)
    ensures var held, kept := RecordAll(window, maxDatagram, packets), Keepable(maxDatagram, packets);
            && held == Newest(window, kept)
            && |held| == (if |kept| < window then |kept| else window) && held == kept[|kept| - |held|..]
  {
    if packets != [] {
      var front, last := packets[..|packets| - 1], packets[|packets| - 1];
      WindowIsNewest(window, maxDatagram, front);
      NewestOfNewest(window, Keepable(maxDatagram, front), last);
      if last.count == 0 || |last.bytes| > maxDatagram {
        assert Keepable(maxDatagram, front) + [] == Keepable(maxDatagram, front);
      }
    }
  }

  lemma NewestOfNewest(window: nat, held: seq<Packet>, p: Packet)
    ensures Newest(window, Newest(window, held) + [p]) == Newest(window, held + [p])
  {
    if |held| > window {
      var cut := |held| - window;
      assert held[cut..] + [p] == (held + [p])[cut..];
      if window > 0 {
        assert (held[cut..] + [p])[1..] == (held + [p])[cut + 1..];
      }
    }
  }

  /** No packet is empty and none starts before the one before it ended. */
  ghost predicate Ordered(held: seq<Packet>) {
    held != [] ==>
      && Ordered(held[..|held| - 1])
      && held[|held| - 1].count > 0
      && (|held| > 1 ==> held[|held| - 2].Carried().end <= held[|held| - 1].first)
  }

  /** Each packet starts where the one before it ended, and none is empty. */
  ghost predicate Consecutive(held: seq<Packet>) {
    held != [] ==>
      && Consecutive(held[..|held| - 1])
      && held[|held| - 1].count > 0
      && (|held| > 1 ==> held[|held| - 2].Carried().end == held[|held| - 1].first)
  }

  lemma {:induction false} ConsecutiveIsOrdered(held: seq<Packet>)
    requires Consecutive(held)
    ensures Ordered(held)
  {
    if held != [] {
      ConsecutiveIsOrdered(held[..|held| - 1]);
    }
  }

  lemma {:induction false} OrderedSuffix(held: seq<Packet>, k: nat)
    requires Ordered(held) && k <= |held|
    ensures Ordered(held[k..]) && (Consecutive(held) ==> Consecutive(held[k..]))
  {
    if k < |held| {
      OrderedSuffix(held[..|held| - 1], k);
      assert held[k..][..|held[k..]| - 1] == held[..|held| - 1][k..];
    }
  }

  /** Recording the next packet of the feed keeps the window ordered; when nothing lies between them, and so
      unless a packet was refused for its size, it keeps it consecutive too. */
  lemma RecordingKeepsOrder(window: nat, maxDatagram: nat, held: seq<Packet>, p: Packet)
    requires Ordered(held) && (held != [] ==> p.first >= held[|held| - 1].Carried().end)
    ensures Ordered(Recorded(window, maxDatagram, held, p).0)
    ensures Consecutive(held) && (held != [] ==> p.first == held[|held| - 1].Carried().end) ==>
              Consecutive(Recorded(window, maxDatagram, held, p).0)
  {
    if p.count > 0 && |p.bytes| <= maxDatagram {
      FollowerKeepsOrder(held, p);
      NewestKeepsOrder(window, held + [p]);
    }
  }

  lemma FollowerKeepsOrder(held: seq<Packet>, p: Packet)
    requires Ordered(held) && p.count > 0 && (held != [] ==> p.first >= held[|held| - 1].Carried().end)
    ensures Ordered(held + [p])
    ensures Consecutive(held) && (held != [] ==> p.first == held[|held| - 1].Carried().end) ==> Consecutive(held + [p])
  {
    assert (held + [p])[..|held|] == held;
  }

  lemma NewestKeepsOrder(window: nat, held: seq<Packet>)
    requires Ordered(held)
    ensures Ordered(Newest(window, held)) && (Consecutive(held) ==> Consecutive(Newest(window, held)))
  {
    if |held| > window {
      OrderedSuffix(held, |held| - window);
    }
  }

  function Available(held: seq<Packet>): Range {
    if held == [] then EMPTY else Range(held[0].first, held[|held| - 1].Carried().end)
  }

  ghost function Carries(held: seq<Packet>): set<nat> {
    if held == [] then {} else Carries(held[..|held| - 1]) + Span(held[|held| - 1].Carried())
  }

  lemma {:induction false} CarriedIsAvailable(held: seq<Packet>)
    requires Ordered(held)
    ensures Carries(held) <= Span(Available(held))
    ensures held != [] ==> !Available(held).IsEmpty() && Available(held).first in Carries(held)
  {
    if held != [] {
      CarriedIsAvailable(held[..|held| - 1]);
      assert held[|held| - 1].first in Span(held[|held| - 1].Carried());
    }
  }

  /** Everything in the available range is held exactly when the held packets are consecutive. */
  lemma {:induction false} AvailableExactly(held: seq<Packet>)
    requires Ordered(held)
    ensures Carries(held) == Span(Available(held)) <==> Consecutive(held)
  {
    CarriedIsAvailable(held);
    if held == [] {
      PredicatesMeanSets(EMPTY, EMPTY);
    } else {
      var body, last := held[..|held| - 1], held[|held| - 1];
      AvailableExactly(body);
      CarriedIsAvailable(body);
      if body != [] {
        AvailableGrows(body, last);
      }
    }
  }

  /** One packet more fills the available range up exactly when it starts where the others end. */
  lemma AvailableGrows(body: seq<Packet>, last: Packet)
    requires Ordered(body) && body != [] && last.count > 0 && body[|body| - 1].Carried().end <= last.first
    requires Carries(body) <= Span(Available(body)) && !Available(body).IsEmpty()
    ensures Carries(body) + Span(last.Carried()) == Span(Range(body[0].first, last.Carried().end)) <==>
              Carries(body) == Span(Available(body)) && Available(body).end == last.first
  {
    var all, whole := Carries(body) + Span(last.Carried()), Range(body[0].first, last.Carried().end);
    if all == Span(whole) {
      forall n | n in Span(Available(body)) ensures n in Carries(body) {
        assert n in Span(whole);
      }
      var end := Available(body).end;
      assert end < last.first ==> end in Span(whole);
    }
  }

  // ---- answering ----------------------------------------------------------------------

  /** The packets that overlap the request, in publication order. */
  function Overlapping(held: seq<Packet>, wanted: Range): seq<Packet> {
    if held == [] then []
    else
      var last := held[|held| - 1];
      Overlapping(held[..|held| - 1], wanted) + if last.Carried().Overlaps(wanted) then [last] else []
  }

  /** What the answer says the packets emitted so far cover. */
  function ServedRange(held: seq<Packet>, wanted: Range): Range {
    if held == [] then EMPTY
    else
      var served, last := ServedRange(held[..|held| - 1], wanted), held[|held| - 1].Carried();
      if last.Overlaps(wanted) then Hull(served, last) else served
  }

  function Served(held: seq<Packet>, wanted: Range): Answer {
    if wanted.IsEmpty() then Answer(Ok(EMPTY), [])
    else if wanted.Count() > MAX_MESSAGES_PER_RESPONSE then Answer(Err(CapacityExceeded), [])
    else if held == [] then Answer(Ok(EMPTY), [])
    else if wanted.first < Available(held).first then Answer(Err(RetransmitWindowExceeded), [])
    else if wanted.first >= Available(held).end then Answer(Ok(EMPTY), [])
    else Answer(Ok(ServedRange(held, wanted)), Overlapping(held, wanted))
  }

  lemma {:induction false} OnlyWantedPackets(held: seq<Packet>, wanted: Range, p: Packet)
    ensures p in Overlapping(held, wanted) <==> p in held && p.Carried().Overlaps(wanted)
  {
    if held != [] {
      OnlyWantedPackets(held[..|held| - 1], wanted, p);
      assert held == held[..|held| - 1] + [held[|held| - 1]];
    }
  }

  /** Of an ordered window the answer names the range from the first packet emitted to the last. */
  lemma {:induction false} ServedIsFirstToLast(held: seq<Packet>, wanted: Range)
    requires Ordered(held)
    ensures var some := Overlapping(held, wanted);
            && Ordered(some) && ServedRange(held, wanted) == Available(some)
            && (some != [] ==> held != [] && some[|some| - 1].Carried().end <= held[|held| - 1].Carried().end)
  {
    if held != [] {
      var body, last := held[..|held| - 1], held[|held| - 1];
      ServedIsFirstToLast(body, wanted);
      var some := Overlapping(body, wanted);
      if last.Carried().Overlaps(wanted) {
        CarriedIsAvailable(some);
        assert (some + [last])[..|some|] == some;
      } else {
        assert some + [] == some;
      }
    }
  }

  /** Between two neighbouring packets something is gone, and the request reaches over it from both sides. */
  predicate BreakAt(before: Packet, after: Packet, wanted: Range) {
    before.Carried().end < after.first && wanted.first < before.Carried().end && after.first < wanted.end
  }

  /** The window has no break inside the request. */
  predicate UnbrokenFor(held: seq<Packet>, wanted: Range) {
    forall i :: 0 < i < |held| ==> !BreakAt(held[i - 1], held[i], wanted)
  }

  lemma UnbrokenStep(held: seq<Packet>, wanted: Range)
    requires held != []
    ensures UnbrokenFor(held, wanted) <==>
              UnbrokenFor(held[..|held| - 1], wanted) && (|held| > 1 ==> !BreakAt(held[|held| - 2], held[|held| - 1], wanted))
  {
    var body := held[..|held| - 1];
    forall i | 0 < i < |held| - 1 ensures BreakAt(held[i - 1], held[i], wanted) == BreakAt(body[i - 1], body[i], wanted) {
    }
  }

  /** Once a packet overlaps the request the next ones do too, until one starts past it. */
  lemma {:induction false} LastEmitted(held: seq<Packet>, wanted: Range)
    requires Ordered(held) && Overlapping(held, wanted) != []
    ensures held != [] && wanted.first < held[|held| - 1].Carried().end
    ensures var some := Overlapping(held, wanted);
            some[|some| - 1] == held[|held| - 1] || held[|held| - 1].first >= wanted.end
  {
    var body, last := held[..|held| - 1], held[|held| - 1];
    if !last.Carried().Overlaps(wanted) {
      assert Overlapping(body, wanted) + [] == Overlapping(body, wanted);
      LastEmitted(body, wanted);
    }
  }

  /** What is emitted has no break exactly when the window has none inside the request. */
  lemma {:induction false} EmittedUnbrokenExactly(held: seq<Packet>, wanted: Range)
    requires Ordered(held)
    ensures Consecutive(Overlapping(held, wanted)) <==> UnbrokenFor(held, wanted)
  {
    if held != [] {
      var body, last := held[..|held| - 1], held[|held| - 1];
      EmittedUnbrokenExactly(body, wanted);
      UnbrokenStep(held, wanted);
      var some := Overlapping(body, wanted);
      if last.Carried().Overlaps(wanted) {
        assert (some + [last])[..|some|] == some;
        LastIsNeighbour(body, last, wanted);
      } else {
        assert some + [] == some;
      }
    }
  }

  /** The packet emitted before a packet is its neighbour in the window. */
  lemma LastIsNeighbour(body: seq<Packet>, last: Packet, wanted: Range)
    requires Ordered(body) && last.count > 0 && last.Carried().Overlaps(wanted)
    requires body != [] ==> body[|body| - 1].Carried().end <= last.first
    ensures var some := Overlapping(body, wanted);
            && (some != [] ==> body != [] && some[|some| - 1] == body[|body| - 1]
                               && (some[|some| - 1].Carried().end == last.first <==> !BreakAt(body[|body| - 1], last, wanted)))
            && (some == [] && body != [] ==> !BreakAt(body[|body| - 1], last, wanted))
  {
    if Overlapping(body, wanted) != [] {
      LastEmitted(body, wanted);
    } else if body != [] {
      OnlyWantedPackets(body, wanted, body[|body| - 1]);
    }
  }

  /** An answer names exactly what was emitted if and only if the window has no break inside the request. */
  lemma AnswerIsTrueExactly(held: seq<Packet>, wanted: Range)
    requires Ordered(held) && Served(held, wanted).result.Ok?
    ensures var answer := Served(held, wanted);
            Carries(answer.emitted) == Span(answer.result.value) <==> UnbrokenFor(held, wanted)
  {
    PredicatesMeanSets(EMPTY, EMPTY);
    if wanted.IsEmpty() || held == [] {
    } else if wanted.first >= Available(held).end {
      NothingBehind(held);
    } else {
      ServedIsFirstToLast(held, wanted);
      AvailableExactly(Overlapping(held, wanted));
      EmittedUnbrokenExactly(held, wanted);
    }
  }

  lemma {:induction false} NothingBehind(held: seq<Packet>)
    requires Ordered(held)
    ensures forall i :: 0 <= i < |held| ==> held[i].Carried().end <= Available(held).end
  {
    if held != [] {
      NothingBehind(held[..|held| - 1]);
    }
  }

  /** Of three packets the second is refused for its size. */
  lemma WindowWithBreak(a: Packet, b: Packet, c: Packet)
    requires a == Packet(1, 1, []) && b == Packet(2, 1, [0, 0]) && c == Packet(3, 1, [])
    ensures RecordAll(4, 1, [a, b, c]) == [a, c]
  {
    var none: seq<Packet> := [];
    assert [a, b, c][..2] == [a, b] && [a, b][..1] == [a] && [a][..0] == none;
    assert RecordAll(4, 1, none) == none && none + [a] == [a] && [a] + [c] == [a, c];
    assert RecordAll(4, 1, [a]) == [a] && RecordAll(4, 1, [a, b]) == [a];
  }

  lemma EmittedAcrossBreak(a: Packet, c: Packet)
    requires a.Carried() == Range(1, 2) && c.Carried() == Range(3, 4) && a.count > 0 && c.count > 0
    ensures Ordered([a, c]) && Overlapping([a, c], Range(1, 4)) == [a, c]
    ensures ServedRange([a, c], Range(1, 4)) == Range(1, 4) && 2 !in Carries([a, c])
  {
    var none: seq<Packet> := [];
    assert [a, c][..1] == [a] && [a][..0] == none && none + [a] == [a] && [a] + [c] == [a, c];
    assert Overlapping([a], Range(1, 4)) == [a];
    assert ServedRange([a], Range(1, 4)) == Range(1, 2);
    assert Carries([a]) == Span(Range(1, 2));
  }

  /** A request for all three messages is then answered as if all three had been sent. */
  lemma AnswerCanBeFalse()
    ensures var held := RecordAll(4, 1, [Packet(1, 1, []), Packet(2, 1, [0, 0]), Packet(3, 1, [])]);
            var answer := Served(held, Range(1, 4));
            && Ordered(held) && !UnbrokenFor(held, Range(1, 4))
            && answer.result == Ok(Range(1, 4)) && 2 !in Carries(answer.emitted)
  {
    var a, c := Packet(1, 1, []), Packet(3, 1, []);
    WindowWithBreak(a, Packet(2, 1, [0, 0]), c);
    EmittedAcrossBreak(a, c);
    assert BreakAt([a, c][0], [a, c][1], Range(1, 4));
  }

  /** The first packet emitted holds the start of the request, when any packet does. */
  lemma {:induction false} FirstEmitted(held: seq<Packet>, wanted: Range)
    requires Ordered(held) && !wanted.IsEmpty() && wanted.first in Carries(held)
    ensures Overlapping(held, wanted) != [] && Overlapping(held, wanted)[0].Carried().Contains(wanted.first)
  {
    var body, last := held[..|held| - 1], held[|held| - 1];
    var some := Overlapping(body, wanted);
    if wanted.first in Carries(body) {
      FirstEmitted(body, wanted);
    } else {
      NothingBehind(body);
      NoneEmittedBelow(body, wanted);
      assert some == [];
    }
  }

  lemma {:induction false} NoneEmittedBelow(held: seq<Packet>, wanted: Range)
    requires forall i :: 0 <= i < |held| ==> held[i].Carried().end <= wanted.first
    ensures Overlapping(held, wanted) == []
  {
    if held != [] {
      NoneEmittedBelow(held[..|held| - 1], wanted);
    }
  }

  /** In an ordered window a range is carried by one packet only. */
  lemma OnePacketEach(held: seq<Packet>, p: Packet, q: Packet)
    requires Ordered(held) && p in held && q in held && p.Carried() == q.Carried()
    ensures p == q
  {
    var i, j :| 0 <= i < |held| && 0 <= j < |held| && held[i] == p && held[j] == q;
    if i < j {
      InOrder(held, i, j);
    } else if j < i {
      InOrder(held, j, i);
    }
  }

  /** A request for messages that are all held meets no break. */
  lemma HeldIsUnbroken(held: seq<Packet>, wanted: Range)
    requires Ordered(held) && Span(wanted) <= Carries(held)
    ensures UnbrokenFor(held, wanted)
  {
    forall i | 0 < i < |held| ensures !BreakAt(held[i - 1], held[i], wanted) {
      BreakIsNotCarried(held, i);
      BreakIsWanted(held[i - 1], held[i], wanted);
    }
  }

  lemma BreakIsWanted(before: Packet, after: Packet, wanted: Range)
    ensures BreakAt(before, after, wanted) ==> before.Carried().end in Span(wanted)
  {}

  /** What lies between two neighbours is carried by no packet. */
  lemma {:induction false} BreakIsNotCarried(held: seq<Packet>, i: nat)
    requires Ordered(held) && 0 < i < |held|
    ensures forall n :: held[i - 1].Carried().end <= n < held[i].first ==> n !in Carries(held)
    ensures forall n :: n in Carries(held) ==> n < held[|held| - 1].Carried().end
  {
    var body, last := held[..|held| - 1], held[|held| - 1];
    CarriedIsAvailable(body);
    if i < |held| - 1 {
      BreakIsNotCarried(body, i);
      InOrder(held, i, |held| - 1);
    }
  }

  lemma {:induction false} InOrder(held: seq<Packet>, i: nat, j: nat)
    requires Ordered(held) && i < j < |held|
    ensures held[i].Carried().end <= held[j].first && held[i].count > 0 && held[j].count > 0
  {
    if j < |held| - 1 {
      InOrder(held[..|held| - 1], i, j);
    } else if i < j - 1 {
      InOrder(held[..|held| - 1], i, j - 1);
    } else {
      PositiveAt(held, i);
    }
  }

  lemma {:induction false} PositiveAt(held: seq<Packet>, i: nat)
    requires Ordered(held) && i < |held|
    ensures held[i].count > 0
  {
    if i < |held| - 1 {
      PositiveAt(held[..|held| - 1], i);
    }
  }

  /** A window without a break gives answers without a break. */
  lemma {:induction false} AnswerHasNoBreak(held: seq<Packet>, wanted: Range)
    requires Consecutive(held)
    ensures var some := Overlapping(held, wanted);
            && Consecutive(some)
            && (some != [] ==> some[|some| - 1] == held[|held| - 1] || Available(held).end >= wanted.end)
            && (some != [] ==> Available(held).end > wanted.first)
  {
    if held != [] {
      var body, last := held[..|held| - 1], held[|held| - 1];
      AnswerHasNoBreak(body, wanted);
      var some := Overlapping(body, wanted);
      if last.Carried().Overlaps(wanted) {
        assert (some + [last])[..|some|] == some;
      } else {
        assert some + [] == some;
      }
    }
  }

  /** So every merge the serving loop makes is of ranges that touch, which is what the source asserts. */
  lemma MergesTouch(held: seq<Packet>, next: Packet, wanted: Range)
    requires Consecutive(held + [next]) && next.Carried().Overlaps(wanted)
    ensures ServedRange(held, wanted).IsEmpty() || Touches(ServedRange(held, wanted), next.Carried())
  {
    var more, some := held + [next], Overlapping(held, wanted);
    assert more[..|held|] == held;
    AnswerHasNoBreak(more, wanted);
    assert (some + [next])[..|some|] == some;
    ConsecutiveIsOrdered(held);
    ServedIsFirstToLast(held, wanted);
  }

  lemma {:induction false} EverythingWantedIsEmitted(held: seq<Packet>, wanted: Range)
    ensures Span(wanted) * Carries(held) <= Carries(Overlapping(held, wanted))
  {
    if held != [] {
      var body, last := held[..|held| - 1], held[|held| - 1];
      EverythingWantedIsEmitted(body, wanted);
      var some := Overlapping(body, wanted);
      if last.Carried().Overlaps(wanted) {
        assert (some + [last])[..|some|] == some;
      } else {
        assert some + [] == some;
        PredicatesMeanSets(last.Carried(), wanted);
      }
    }
  }

  /** A request whose start is not older than the window, and not too large, is answered with every wanted
      message that is held, breaks in the window or not. */
  lemma AnswerCoversWhatIsHeld(held: seq<Packet>, wanted: Range)
    requires Ordered(held)
    ensures var answer := Served(held, wanted);
            && (answer.result.Err? <==>
                  && !wanted.IsEmpty()
                  && (wanted.Count() > MAX_MESSAGES_PER_RESPONSE || (held != [] && wanted.first < Available(held).first)))
            && (answer.result.Err? ==>
                  && answer.emitted == []
                  && answer.result.error == if wanted.Count() > MAX_MESSAGES_PER_RESPONSE then CapacityExceeded else RetransmitWindowExceeded)
            && (answer.result.Ok? ==> Span(wanted) * Carries(held) <= Carries(answer.emitted))
  {
    CarriedIsAvailable(held);
    EverythingWantedIsEmitted(held, wanted);
    PredicatesMeanSets(wanted, EMPTY);
  }

  // ---- the facility ----------------------------------------------------------------------

  class RetransmitFacility {
    const slots: array<Packet>
    const maxDatagram: nat
    var next: nat
    var count: nat
    var evicted: nat

    ghost predicate Valid()
      reads this
    {
      && slots.Length > 0 && next < slots.Length && count <= slots.Length
      && (count < slots.Length ==> next == count && evicted == 0)
    }

    /** The slot of the `i`-th oldest packet. */
    function Index(i: nat): (at: nat)
      requires Valid()
      reads this
      ensures at < slots.Length
    {
      ((if count < slots.Length then 0 else next) + i) % slots.Length
    }

    ghost function Held(): (s: seq<Packet>)
      requires Valid()
      reads this, slots
      ensures |s| == count
    {
      if count < slots.Length then slots[..count] else slots[next..] + slots[..next]
    }

    lemma HeldAt(i: nat)
      requires Valid() && i < count
      ensures Held()[i] == slots[Index(i)]
    {
      WrapsOnce(if count < slots.Length then i else next + i, slots.Length);
    }

    constructor (window: nat, maxDatagram: nat)
      requires window > 0
      ensures Valid() && fresh(slots) && slots.Length == window && this.maxDatagram == maxDatagram
      ensures Held() == [] && evicted == 0
    {
      this.maxDatagram := maxDatagram;
      slots := new Packet[window](_ => Packet(0, 0, []));
      next, count, evicted := 0, 0, 0;
    }

    method Record(p: Packet) returns (result: Result<()>)
      requires Valid()
      modifies this, slots
      ensures Valid()
      ensures (Held(), result) == Recorded(slots.Length, maxDatagram, old(Held()), p)
      ensures evicted + count == old(evicted) + old(count) + if p.count > 0 && result.Ok? then 1 else 0
    {
      if p.count == 0 { return Ok(()); }
      if |p.bytes| > maxDatagram { return Err(CapacityExceeded); }
      Store(p);
      return Ok(());
    }

    /** Writes the next slot and moves on, evicting the oldest packet once the ring is full. */
    method Store(p: Packet)
      requires Valid()
      modifies this, slots
      ensures Valid()
      ensures Held() == Newest(slots.Length, old(Held()) + [p])
      ensures evicted + count == old(evicted) + old(count) + 1
    {
      ghost var held, before, at := Held(), slots[..], next;
      WrapsOnce(next + 1, slots.Length);
      slots[next] := p;
      next := (next + 1) % slots.Length;
      if count < slots.Length {
        count := count + 1;
        assert slots[..count] == held + [p];
      } else {
        evicted := evicted + 1;
        assert held == before[at..] + before[..at];
        Overwritten(held, before, slots[..], at, p);
      }
      assert next == 0 ==> slots[next..] + slots[..next] == slots[..slots.Length];
    }

    /** `emitted` is what the caller is handed, packet by packet. */
    method Serve(wanted: Range) returns (result: Result<Range>, emitted: seq<Packet>)
      requires Valid()
      ensures Answer(result, emitted) == Served(Held(), wanted)
    {
      if wanted.IsEmpty() { return Ok(EMPTY), []; }
      if wanted.Count() > MAX_MESSAGES_PER_RESPONSE { return Err(CapacityExceeded), []; }
      if count == 0 { return Ok(EMPTY), []; }
      HeldAt(0);
      HeldAt(count - 1);
      var have := Range(slots[Index(0)].first, slots[Index(count - 1)].Carried().end);
      if wanted.first < have.first { return Err(RetransmitWindowExceeded), []; }
      if wanted.first >= have.end { return Ok(EMPTY), []; }
      var served: Range;
      served, emitted := Collect(wanted);
      result := Ok(served);
    }

    method Collect(wanted: Range) returns (served: Range, emitted: seq<Packet>)
      requires Valid()
      ensures served == ServedRange(Held(), wanted) && emitted == Overlapping(Held(), wanted)
    {
      ghost var held := Held();
      served, emitted := EMPTY, [];
      for i := 0 to count
        invariant served == ServedRange(held[..i], wanted) && emitted == Overlapping(held[..i], wanted)
      {
        HeldAt(i);
        assert held[..i + 1][..i] == held[..i];
        var p := slots[Index(i)];
        var carried := p.Carried();
        if carried.Overlaps(wanted) {
          served := if served.IsEmpty() then carried else Hull(served, carried);
          emitted := emitted + [p];
        }
      }
      assert held[..count] == held;
    }
  }

  /** Overwriting the oldest slot of a full ring drops the oldest packet and adds the new one. */
  lemma Overwritten(held: seq<Packet>, before: seq<Packet>, after: seq<Packet>, at: nat, p: Packet)
    requires at < |before| && after == before[at := p] && held == before[at..] + before[..at]
    ensures at + 1 < |before| ==> after[at + 1..] + after[..at + 1] == held[1..] + [p]
    ensures at + 1 == |before| ==> after == held[1..] + [p]
    ensures held[1..] + [p] == (held + [p])[1..]
  {
    assert held[1..] == before[at + 1..] + before[..at];
  }
}
