/** Publishing delivered messages into a bounded ring in sequence order.

    Messages above the next sequence wait in a window indexed by `sequence % pending`. `room` is how
    many pushes the ring takes before it refuses one, which ends the call; any behaviour of the
    consumer is some value of it. `published` is what the ring has taken, in order. */
module Publishers {
  import opened Arithmetic

  type Bytes = seq<bv8>

  const MAX_BODY: nat := 256

  datatype Record = Record(sequence: nat, line: nat, recovered: bool, body: Bytes)
  {
    predicate Fits() { |body| <= MAX_BODY }
  }

  /** A slot is `Free` when its flag is down, whatever record it still holds. */
  datatype Slot = Free | Held(record: Record)

  datatype State = State(next: nat, window: seq<Slot>, published: seq<Record>)

  datatype Offer = Offer(record: Record, room: nat)

  function Index(sequence: nat, pending: nat): (i: nat)
    requires pending > 0
    ensures i < pending
  {
    sequence % pending
  }

  /** One turn of the drain loop: the record in the next slot goes out. */
  function Released(p: State): State
    requires p.window != [] && p.window[Index(p.next, |p.window|)].Held?
  {
    var i := Index(p.next, |p.window|);
    State(p.next + 1, p.window[i := Free], p.published + [p.window[i].record])
  }

  /** Everything contiguous above `next`, until the ring refuses. */
  function Drained(p: State, room: nat): (State, bool)
    requires p.window != []
    decreases room
  {
    if p.window[Index(p.next, |p.window|)].Free? then (p, true)
    else if room == 0 then (p, false)
    else Drained(Released(p), room - 1)
  }

  function Direct(p: State, record: Record): State {
    p.(next := p.next + 1, published := p.published + [record])
  }

  function Offered(p: State, record: Record, room: nat): (State, bool)
    requires p.window != []
  {
    var pending := |p.window|;
    if record.sequence < p.next then (p, true)
    else if !record.Fits() then (p, false)
    else if record.sequence == p.next then
      if room == 0 then (p, false) else Drained(Direct(p, record), room - 1)
    else if record.sequence - p.next >= pending then (p, false)
    else if Aliased(p, record.sequence) then (p, false)
    else (p.(window := p.window[Index(record.sequence, pending) := Held(record)]), true)
  }

  /** The unconditional check before a slot is written. */
  predicate Aliased(p: State, sequence: nat)
    requires p.window != []
  {
    var slot := p.window[Index(sequence, |p.window|)];
    slot.Held? && slot.record.sequence != sequence
  }

  // ---- what holds ------------------------------------------------------------------

  /** The records published are numbered first, first + 1, ... with nothing skipped or repeated. */
  ghost predicate InOrder(published: seq<Record>, first: nat) {
    forall k :: 0 <= k < |published| ==> published[k].sequence == first + k
  }

  ghost predicate AtHome(p: State, i: nat)
    requires i < |p.window|
  {
    p.window[i].Held? ==>
      var sequence := p.window[i].record.sequence;
      p.next <= sequence < p.next + |p.window| && Index(sequence, |p.window|) == i
  }

  ghost predicate Inv(p: State, first: nat) {
    && p.window != []
    && p.next == first + |p.published|
    && InOrder(p.published, first)
    && forall i :: 0 <= i < |p.window| ==> AtHome(p, i)
  }

  /** Numbers less than a window apart and in the same slot are equal. */
  lemma OnePerSlot(a: nat, b: nat, pending: nat)
    requires pending > 0 && Index(a, pending) == Index(b, pending)
    requires a < b + pending && b < a + pending
    ensures a == b
  {
    OnePerResidue(a, b, pending);
  }

  /** The record in the next slot is the next record: what the drain loop asserts. */
  lemma NextSlotHoldsNext(p: State, first: nat)
    requires Inv(p, first)
    ensures var slot := p.window[Index(p.next, |p.window|)]; slot.Held? ==> slot.record.sequence == p.next
  {
    var i := Index(p.next, |p.window|);
    assert AtHome(p, i);
    if p.window[i].Held? {
      OnePerSlot(p.window[i].record.sequence, p.next, |p.window|);
    }
  }

  /** Within reach of the window the alias check never refuses. */
  lemma NeverAliased(p: State, first: nat, sequence: nat)
    requires Inv(p, first) && p.next <= sequence < p.next + |p.window|
    ensures !Aliased(p, sequence)
  {
    var i := Index(sequence, |p.window|);
    assert AtHome(p, i);
    if p.window[i].Held? {
      OnePerSlot(p.window[i].record.sequence, sequence, |p.window|);
    }
  }

  lemma ReleasedKeeps(p: State, first: nat)
    requires Inv(p, first) && p.window[Index(p.next, |p.window|)].Held?
    ensures Inv(Released(p), first)
  {
    NextSlotHoldsNext(p, first);
    var after := Released(p);
    forall i | 0 <= i < |after.window| ensures AtHome(after, i) {
      assert AtHome(p, i);
    }
  }

  lemma {:induction false} DrainedKeeps(p: State, first: nat, room: nat)
    requires Inv(p, first)
    ensures Inv(Drained(p, room).0, first)
    decreases room
  {
    if p.window[Index(p.next, |p.window|)].Held? && room > 0 {
      ReleasedKeeps(p, first);
      DrainedKeeps(Released(p), first, room - 1);
    }
  }

  lemma DirectKeeps(p: State, first: nat, record: Record)
    requires Inv(p, first) && record.sequence == p.next && p.window[Index(p.next, |p.window|)].Free?
    ensures Inv(Direct(p, record), first)
  {
    var after := Direct(p, record);
    forall i | 0 <= i < |after.window| ensures AtHome(after, i) {
      assert AtHome(p, i);
    }
  }

  lemma HeldKeeps(p: State, first: nat, record: Record)
    requires Inv(p, first) && p.next < record.sequence < p.next + |p.window|
    ensures Inv(p.(window := p.window[Index(record.sequence, |p.window|) := Held(record)]), first)
  {
    var after := p.(window := p.window[Index(record.sequence, |p.window|) := Held(record)]);
    forall i | 0 <= i < |after.window| ensures AtHome(after, i) {
      assert AtHome(p, i);
    }
  }

  // ---- the one call that breaks it ---------------------------------------------------

  /** Offering the next sequence while it is already held and the ring has room: the record goes out
      directly and its old copy stays behind in the window. */
  predicate Reoffers(p: State, record: Record, room: nat)
    requires p.window != []
  {
    record.sequence == p.next && record.Fits() && room > 0 && p.window[Index(p.next, |p.window|)].Held?
  }

  ghost predicate StaleAt(p: State, i: nat)
    requires i < |p.window|
  {
    p.window[i].Held? && p.window[i].record.sequence < p.next
  }

  /** A record published under a wrong number, or one that will be. */
  ghost predicate Spoiled(p: State, first: nat) {
    || (exists k :: 0 <= k < |p.published| && p.published[k].sequence != first + k)
    || (exists i :: 0 <= i < |p.window| && StaleAt(p, i))
  }

  lemma SpoiledIsNotInv(p: State, first: nat)
    requires Spoiled(p, first)
    ensures !Inv(p, first)
  {
    if i :| 0 <= i < |p.window| && StaleAt(p, i) {
      assert !AtHome(p, i);
    }
  }

  lemma ReleasedStaysSpoiled(p: State, first: nat)
    requires p.window != [] && p.next == first + |p.published|
    requires Spoiled(p, first) && p.window[Index(p.next, |p.window|)].Held?
    ensures Spoiled(Released(p), first)
  {
    var after := Released(p);
    if k :| 0 <= k < |p.published| && p.published[k].sequence != first + k {
      assert after.published[k].sequence != first + k;
    } else {
      var i :| 0 <= i < |p.window| && StaleAt(p, i);
      if i == Index(p.next, |p.window|) {
        assert after.published[|p.published|].sequence != first + |p.published|;
      } else {
        assert StaleAt(after, i);
      }
    }
  }

  lemma {:induction false} DrainedStaysSpoiled(p: State, first: nat, room: nat)
    requires p.window != [] && p.next == first + |p.published| && Spoiled(p, first)
    ensures Spoiled(Drained(p, room).0, first)
    decreases room
  {
    if p.window[Index(p.next, |p.window|)].Held? && room > 0 {
      ReleasedStaysSpoiled(p, first);
      DrainedStaysSpoiled(Released(p), first, room - 1);
    }
  }

  /** What the re-offered record leaves behind is now too old. */
  lemma ReofferSpoils(p: State, first: nat, record: Record, room: nat)
    requires Inv(p, first) && Reoffers(p, record, room)
    ensures Spoiled(Offered(p, record, room).0, first)
  {
    NextSlotHoldsNext(p, first);
    assert StaleAt(Direct(p, record), Index(p.next, |p.window|));
    DrainedStaysSpoiled(Direct(p, record), first, room - 1);
  }

  /** An offer keeps the order of publication exactly when it does not re-offer a held `next`. */
  lemma OfferKeepsExactly(p: State, first: nat, record: Record, room: nat)
    requires Inv(p, first)
    ensures Inv(Offered(p, record, room).0, first) <==> !Reoffers(p, record, room)
  {
    if record.sequence < p.next || !record.Fits() {
    } else if record.sequence > p.next {
      if record.sequence - p.next < |p.window| {
        HeldKeeps(p, first, record);
      }
    } else if room > 0 {
      var direct := Direct(p, record);
      if p.window[Index(p.next, |p.window|)].Free? {
        DirectKeeps(p, first, record);
        DrainedKeeps(direct, first, room - 1);
      } else {
        ReofferSpoils(p, first, record, room);
        SpoiledIsNotInv(Drained(direct, room - 1).0, first);
      }
    }
  }

  // ---- whole runs --------------------------------------------------------------------

  function Start(first: nat, pending: nat): State {
    State(first, seq(pending, _ => Free), [])
  }

  function After(start: State, offers: seq<Offer>): (p: State)
    requires start.window != []
    ensures |p.window| == |start.window|
  {
    if offers == [] then start
    else
      var before, last := After(start, offers[..|offers| - 1]), offers[|offers| - 1];
      WindowKeepsItsSize(before, last.record, last.room);
      Offered(before, last.record, last.room).0
  }

  function Run(first: nat, pending: nat, offers: seq<Offer>): (p: State)
    requires pending > 0
    ensures |p.window| == pending
  {
    After(Start(first, pending), offers)
  }

  lemma WindowKeepsItsSize(p: State, record: Record, room: nat)
    requires p.window != []
    ensures |Offered(p, record, room).0.window| == |p.window|
  {
    if record.sequence == p.next && record.Fits() && room > 0 {
      DrainKeepsSize(Direct(p, record), room - 1);
    }
  }

  lemma {:induction false} DrainKeepsSize(p: State, room: nat)
    requires p.window != []
    ensures |Drained(p, room).0.window| == |p.window|
    decreases room
  {
    if p.window[Index(p.next, |p.window|)].Held? && room > 0 {
      DrainKeepsSize(Released(p), room - 1);
    }
  }

  /** No offer publishes a sequence that is also held. */
  ghost predicate NeverReoffers(start: State, offers: seq<Offer>)
    requires start.window != []
  {
    offers != [] ==>
      && NeverReoffers(start, offers[..|offers| - 1])
      && !Reoffers(After(start, offers[..|offers| - 1]), offers[|offers| - 1].record, offers[|offers| - 1].room)
  }

  ghost predicate AlwaysSound(start: State, first: nat, offers: seq<Offer>)
    requires start.window != []
  {
    && Inv(After(start, offers), first)
    && (offers != [] ==> AlwaysSound(start, first, offers[..|offers| - 1]))
  }

  /** For any order and duplication of offers: the records published are in order and every held record is
      ahead of `next` in its own slot, throughout, exactly when no offer re-offers. */
  lemma {:induction false} SoundExactly(start: State, first: nat, offers: seq<Offer>)
    requires Inv(start, first)
    ensures AlwaysSound(start, first, offers) <==> NeverReoffers(start, offers)
  {
    if offers != [] {
      var front, last := offers[..|offers| - 1], offers[|offers| - 1];
      SoundExactly(start, first, front);
      if AlwaysSound(start, first, front) {
        OfferKeepsExactly(After(start, front), first, last.record, last.room);
      }
    }
  }

  // ---- a refused drain ---------------------------------------------------------------

  predicate Settled(p: State)
    requires p.window != []
  {
    p.window[Index(p.next, |p.window|)].Free?
  }

  /** The `room` messages right behind `next` are all held. */
  predicate HeldBehind(p: State, room: nat)
    requires p.window != []
  {
    forall n :: p.next < n <= p.next + room ==> p.window[Index(n, |p.window|)].Held?
  }

  /** An offer of `next` to a ring that takes it but not all of what is held right behind it. */
  predicate RefusesDrain(p: State, record: Record, room: nat)
    requires p.window != []
  {
    record.sequence == p.next && record.Fits() && room > 0 && HeldBehind(p, room)
  }

  /** A caller can see this beforehand: whenever the ring took `next` it had room for all held right behind it. */
  ghost predicate NoDrainRefused(start: State, offers: seq<Offer>)
    requires start.window != []
  {
    offers != [] ==>
      var front, last := offers[..|offers| - 1], offers[|offers| - 1];
      NoDrainRefused(start, front) && !RefusesDrain(After(start, front), last.record, last.room)
  }

  /** A drain is refused exactly when the ring is full before the first free slot. */
  lemma {:induction false} DrainRefusedExactly(p: State, room: nat)
    requires p.window != []
    ensures !Drained(p, room).1 <==> room < |p.window| && p.window[Index(p.next, |p.window|)].Held? && HeldBehind(p, room)
    decreases room
  {
    if p.window[Index(p.next, |p.window|)].Held? && room > 0 {
      DrainRefusedExactly(Released(p), room - 1);
      ReleasedBehind(p, room);
    }
  }

  lemma ReleasedBehind(p: State, room: nat)
    requires p.window != [] && p.window[Index(p.next, |p.window|)].Held? && room > 0
    ensures var after := Released(p);
            room < |p.window| && HeldBehind(p, room) <==>
              room - 1 < |p.window| && after.window[Index(after.next, |p.window|)].Held? && HeldBehind(after, room - 1)
  {
    var after, pending := Released(p), |p.window|;
    forall n | p.next < n <= p.next + room && room < pending
      ensures after.window[Index(n, pending)] == p.window[Index(n, pending)]
    {
      if Index(n, pending) == Index(p.next, pending) {
        OnePerSlot(n, p.next, pending);
      }
    }
    SameSlotAgain(p.next, pending);
    if after.window[Index(after.next, pending)].Held? && HeldBehind(after, room - 1) {
      forall n | p.next < n <= p.next + room ensures after.window[Index(n, pending)].Held? {
      }
    }
  }

  lemma SameSlotAgain(n: nat, pending: nat)
    requires pending > 0
    ensures Index(n + pending, pending) == Index(n, pending)
  {
    var q, r := n / pending, n % pending;
    assert pending * (q + 1) == pending * q + pending;
    QuotientIs(n + pending, pending, q + 1, r);
  }

  /** Seen from the answer: `next` is published and the offer answered false. */
  lemma RefusedExactly(p: State, record: Record, room: nat)
    requires p.window != [] && Settled(p)
    ensures RefusesDrain(p, record, room) <==>
              record.sequence == p.next && record.Fits() && room > 0 && !Offered(p, record, room).1
  {
    if record.sequence == p.next && record.Fits() && room > 0 {
      var direct := Direct(p, record);
      DrainRefusedExactly(direct, room - 1);
      SameSlotAgain(p.next, |p.window|);
      forall n | p.next < n <= p.next + room && HeldBehind(direct, room - 1) && direct.window[Index(direct.next, |p.window|)].Held?
        ensures p.window[Index(n, |p.window|)].Held?
      {
        assert n == direct.next || direct.next < n <= direct.next + (room - 1);
      }
    }
  }

  lemma {:induction false} DrainEnds(p: State, room: nat)
    requires p.window != []
    ensures |Drained(p, room).0.window| == |p.window|
    ensures Drained(p, room).1 <==> Settled(Drained(p, room).0)
    decreases room
  {
    if p.window[Index(p.next, |p.window|)].Held? && room > 0 {
      DrainEnds(Released(p), room - 1);
    }
  }

  lemma HeldElsewhere(p: State, record: Record)
    requires p.window != [] && p.next < record.sequence < p.next + |p.window|
    ensures var after := p.(window := p.window[Index(record.sequence, |p.window|) := Held(record)]);
            after.window[Index(p.next, |p.window|)] == p.window[Index(p.next, |p.window|)]
  {
    if Index(record.sequence, |p.window|) == Index(p.next, |p.window|) {
      OnePerSlot(record.sequence, p.next, |p.window|);
    }
  }

  /** While no drain is refused nothing is ever re-offered, whatever the caller does: a refused direct push
      is harmless. */
  lemma {:induction false} KeepingUpIsEnough(start: State, first: nat, offers: seq<Offer>)
    requires Inv(start, first) && Settled(start) && NoDrainRefused(start, offers)
    ensures AlwaysSound(start, first, offers) && Settled(After(start, offers))
  {
    if offers != [] {
      var front, last := offers[..|offers| - 1], offers[|offers| - 1];
      KeepingUpIsEnough(start, first, front);
      var p := After(start, front);
      OfferKeepsExactly(p, first, last.record, last.room);
      RefusedExactly(p, last.record, last.room);
      if last.record.sequence == p.next && last.record.Fits() && last.room > 0 {
        DrainEnds(Direct(p, last.record), last.room - 1);
      } else if p.next < last.record.sequence < p.next + |p.window| {
        HeldElsewhere(p, last.record);
      }
    }
  }

  /** What a refused drain leaves: everything in order, and `next` still held. */
  ghost predicate Stuck(p: State, first: nat) { Inv(p, first) && !Settled(p) }

  lemma RefusedDrainSticks(p: State, first: nat, record: Record, room: nat)
    requires Inv(p, first) && Settled(p) && RefusesDrain(p, record, room)
    ensures Stuck(Offered(p, record, room).0, first)
  {
    RefusedExactly(p, record, room);
    DirectKeeps(p, first, record);
    DrainedKeeps(Direct(p, record), first, room - 1);
    DrainEnds(Direct(p, record), room - 1);
  }

  lemma StuckStays(p: State, first: nat, record: Record, room: nat)
    requires Stuck(p, first) && !Reoffers(p, record, room)
    ensures var after := Offered(p, record, room).0;
            Stuck(after, first) && after.published == p.published && after.next == p.next
  {
    OfferKeepsExactly(p, first, record, room);
    if p.next < record.sequence < p.next + |p.window| {
      HeldElsewhere(p, record);
    }
  }

  /** After a refused drain a run either publishes nothing more, for ever, or re-offers. */
  lemma {:induction false} NothingMoreWithoutReoffer(p: State, first: nat, more: seq<Offer>)
    requires Stuck(p, first) && NeverReoffers(p, more)
    ensures Stuck(After(p, more), first)
    ensures After(p, more).published == p.published && After(p, more).next == p.next
  {
    if more != [] {
      NothingMoreWithoutReoffer(p, first, more[..|more| - 1]);
      StuckStays(After(p, more[..|more| - 1]), first, more[|more| - 1].record, more[|more| - 1].room);
    }
  }

  // ---- and what follows from it --------------------------------------------------------

  /** A state from which the order cannot be kept up: spoiled, or stuck until it is. */
  ghost predicate Doomed(p: State, first: nat) {
    p.window != [] && p.next == first + |p.published| && (Spoiled(p, first) || Stuck(p, first))
  }

  lemma {:induction false} DrainCounts(p: State, first: nat, room: nat)
    requires p.window != [] && p.next == first + |p.published|
    ensures Drained(p, room).0.next == first + |Drained(p, room).0.published|
    decreases room
  {
    if p.window[Index(p.next, |p.window|)].Held? && room > 0 {
      DrainCounts(Released(p), first, room - 1);
    }
  }

  lemma DirectStaysSpoiled(p: State, first: nat, record: Record)
    requires p.next == first + |p.published| && Spoiled(p, first)
    ensures Spoiled(Direct(p, record), first)
  {
    var after := Direct(p, record);
    if k :| 0 <= k < |p.published| && p.published[k].sequence != first + k {
      assert after.published[k].sequence != first + k;
    } else {
      var i :| 0 <= i < |p.window| && StaleAt(p, i);
      assert StaleAt(after, i);
    }
  }

  /** The alias check keeps a stale record in its slot. */
  lemma HeldStaysSpoiled(p: State, first: nat, record: Record)
    requires p.window != [] && Spoiled(p, first) && p.next < record.sequence && !Aliased(p, record.sequence)
    ensures Spoiled(p.(window := p.window[Index(record.sequence, |p.window|) := Held(record)]), first)
  {
    var after := p.(window := p.window[Index(record.sequence, |p.window|) := Held(record)]);
    if i :| 0 <= i < |p.window| && StaleAt(p, i) {
      assert StaleAt(after, i);
    }
  }

  lemma OfferStaysSpoiled(p: State, first: nat, record: Record, room: nat)
    requires p.window != [] && p.next == first + |p.published| && Spoiled(p, first)
    ensures Spoiled(Offered(p, record, room).0, first)
  {
    if record.sequence == p.next && record.Fits() && room > 0 {
      DirectStaysSpoiled(p, first, record);
      DrainedStaysSpoiled(Direct(p, record), first, room - 1);
    } else if p.next < record.sequence < p.next + |p.window| && record.Fits() && !Aliased(p, record.sequence) {
      HeldStaysSpoiled(p, first, record);
    }
  }

  lemma OfferStaysDoomed(p: State, first: nat, record: Record, room: nat)
    requires Doomed(p, first)
    ensures Doomed(Offered(p, record, room).0, first)
  {
    WindowKeepsItsSize(p, record, room);
    if record.sequence == p.next && record.Fits() && room > 0 {
      DrainCounts(Direct(p, record), first, room - 1);
    }
    if Spoiled(p, first) {
      OfferStaysSpoiled(p, first, record, room);
    } else if Reoffers(p, record, room) {
      ReofferSpoils(p, first, record, room);
    } else {
      StuckStays(p, first, record, room);
    }
  }

  lemma {:induction false} RefusedOnceIsDoomed(start: State, first: nat, offers: seq<Offer>)
    requires Inv(start, first) && Settled(start) && !NoDrainRefused(start, offers)
    ensures Doomed(After(start, offers), first)
  {
    var front, last := offers[..|offers| - 1], offers[|offers| - 1];
    if NoDrainRefused(start, front) {
      KeepingUpIsEnough(start, first, front);
      RefusedDrainSticks(After(start, front), first, last.record, last.room);
    } else {
      RefusedOnceIsDoomed(start, first, front);
      OfferStaysDoomed(After(start, front), first, last.record, last.room);
    }
  }

  function Plain(sequence: nat): Record { Record(sequence, 0, false, []) }

  /** The caller carries on: it offers what comes next, to a ring with room for the whole window. */
  function CarriedOn(p: State): (q: State)
    requires p.window != []
    ensures |q.window| == |p.window|
  {
    WindowKeepsItsSize(p, Plain(p.next), |p.window| + 1);
    Offered(p, Plain(p.next), |p.window| + 1).0
  }

  function CarriedFar(p: State, k: nat): (q: State)
    requires p.window != []
    ensures |q.window| == |p.window|
  {
    if k == 0 then p else CarriedOn(CarriedFar(p, k - 1))
  }

  lemma {:induction false} CarriedFarther(p: State, k: nat)
    requires p.window != []
    ensures CarriedFar(CarriedOn(p), k) == CarriedFar(p, k + 1)
  {
    if k > 0 {
      CarriedFarther(p, k - 1);
    }
  }

  /** The first number from `n` on whose slot is `i`. */
  lemma ComesRound(n: nat, i: nat, pending: nat) returns (t: nat)
    requires i < pending
    ensures n <= t < n + pending && Index(t, pending) == i
  {
    var q, r := n / pending, n % pending;
    assert n == pending * q + r;
    if i >= r {
      t := n - r + i;
      QuotientIs(t, pending, q, i);
    } else {
      t := n - r + pending + i;
      assert pending * (q + 1) == pending * q + pending;
      QuotientIs(t, pending, q + 1, i);
    }
  }

  lemma {:induction false} WrongStays(p: State, first: nat, room: nat)
    requires p.window != [] && !InOrder(p.published, first)
    ensures !InOrder(Drained(p, room).0.published, first)
    decreases room
  {
    DrainOnlyAdvances(p, room);
    var k :| 0 <= k < |p.published| && p.published[k].sequence != first + k;
    assert Drained(p, room).0.published[k] == p.published[k];
  }

  /** A drain with room enough either publishes the stale record of slot `i` under a wrong number or stops
      short of the number `t` that comes round to it. */
  lemma {:induction false} DrainMeetsStale(p: State, first: nat, room: nat, i: nat, t: nat)
    requires p.window != [] && p.next == first + |p.published| && i < |p.window| && StaleAt(p, i)
    requires Index(t, |p.window|) == i && p.next <= t && room > t - p.next
    ensures var (q, ok) := Drained(p, room);
            || !InOrder(q.published, first)
            || (|q.window| == |p.window| && Settled(q) && StaleAt(q, i) && p.next <= q.next < t && q.next == first + |q.published|)
    decreases room
  {
    var here := Index(p.next, |p.window|);
    if p.window[here].Held? {
      var after := Released(p);
      if here == i {
        assert after.published[|p.published|].sequence != first + |p.published|;
        WrongStays(after, first, room - 1);
      } else {
        DrainMeetsStale(after, first, room - 1, i, t);
      }
    }
  }

  /** One more message in sequence brings the stale record a step closer to being published. */
  lemma StepTowardsStale(p: State, first: nat, i: nat, t: nat)
    requires p.window != [] && p.next == first + |p.published| && i < |p.window| && StaleAt(p, i)
    requires Index(t, |p.window|) == i && p.next < t <= p.next + |p.window|
    ensures var q := CarriedOn(p);
            || !InOrder(q.published, first)
            || (Settled(q) && StaleAt(q, i) && p.next < q.next < t && q.next == first + |q.published|)
  {
    DrainMeetsStale(Direct(p, Plain(p.next)), first, |p.window|, i, t);
  }

  /** After the first of `k` messages nothing is offered that is still held. */
  ghost predicate SettledBetween(p: State, k: nat)
    requires p.window != []
  {
    forall j :: 0 < j < k ==> Settled(CarriedFar(p, j))
  }

  lemma {:induction false} StaleIsPublished(p: State, first: nat, i: nat, t: nat) returns (k: nat)
    requires p.window != [] && p.next == first + |p.published| && i < |p.window| && StaleAt(p, i)
    requires Index(t, |p.window|) == i && p.next < t <= p.next + |p.window|
    ensures k <= t - p.next && !InOrder(CarriedFar(p, k).published, first)
    ensures SettledBetween(p, k)
    decreases t - p.next
  {
    StepTowardsStale(p, first, i, t);
    var q := CarriedOn(p);
    if InOrder(q.published, first) {
      k := StaleIsPublished(q, first, i, t);
      CarriedFarther(p, k);
      forall j | 0 < j < k + 1 ensures Settled(CarriedFar(p, j)) {
        CarriedFarther(p, j - 1);
        assert j == 1 ==> CarriedFar(q, j - 1) == q;
      }
      k := k + 1;
    } else {
      k := 1;
      assert CarriedFar(p, 0) == p;
    }
  }

  /** From a spoiled state at most a window's worth of messages in sequence brings out a wrong number, and
      only the first of them can be a re-offer: none is when the drain had come to its end. */
  lemma SpoiledGoesWrong(p: State, first: nat) returns (k: nat)
    requires p.window != [] && p.next == first + |p.published| && Spoiled(p, first)
    ensures k <= |p.window| && !InOrder(CarriedFar(p, k).published, first)
    ensures SettledBetween(p, k)
  {
    if InOrder(p.published, first) {
      var i :| 0 <= i < |p.window| && StaleAt(p, i);
      var t := ComesRound(p.next + 1, i, |p.window|);
      k := StaleIsPublished(p, first, i, t);
    } else {
      k := 0;
    }
  }

  lemma DoomedGoesWrong(p: State, first: nat) returns (k: nat)
    requires Doomed(p, first)
    ensures k <= |p.window| + 1 && !InOrder(CarriedFar(p, k).published, first)
  {
    if Spoiled(p, first) {
      k := SpoiledGoesWrong(p, first);
    } else {
      ReofferSpoils(p, first, Plain(p.next), |p.window| + 1);
      DrainCounts(Direct(p, Plain(p.next)), first, |p.window|);
      k := SpoiledGoesWrong(CarriedOn(p), first);
      CarriedFarther(p, k);
      k := k + 1;
    }
  }

  /** With nothing held from `bound` on, a drain with that much room runs to its end. */
  lemma {:induction false} DrainCompletes(p: State, first: nat, room: nat, bound: nat)
    requires Inv(p, first) && p.next <= bound && room >= bound - p.next
    requires forall i :: 0 <= i < |p.window| && p.window[i].Held? ==> p.window[i].record.sequence < bound
    ensures Drained(p, room).1
    decreases room
  {
    if p.window[Index(p.next, |p.window|)].Held? {
      NextSlotHoldsNext(p, first);
      ReleasedKeeps(p, first);
      DrainCompletes(Released(p), first, room - 1, bound);
    }
  }

  lemma {:induction false} CarryingOnKeeps(p: State, first: nat, k: nat)
    requires Inv(p, first) && Settled(p)
    ensures Inv(CarriedFar(p, k), first) && Settled(CarriedFar(p, k))
  {
    if k > 0 {
      CarryingOnKeeps(p, first, k - 1);
      var q := CarriedFar(p, k - 1);
      var direct := Direct(q, Plain(q.next));
      DirectKeeps(q, first, Plain(q.next));
      forall i | 0 <= i < |direct.window| && direct.window[i].Held?
        ensures direct.window[i].record.sequence < q.next + |q.window|
      {
        assert AtHome(q, i);
      }
      DrainCompletes(direct, first, |q.window|, q.next + |q.window|);
      DrainedKeeps(direct, first, |q.window|);
      DrainEnds(direct, |q.window|);
    }
  }

  /** For any order and duplication of offers: what has been published is in order, and stays so however far
      the caller carries on in sequence, exactly when no drain of the run was refused. */
  lemma InOrderForEverExactly(first: nat, pending: nat, offers: seq<Offer>)
    requires pending > 0
    ensures (forall k: nat :: InOrder(CarriedFar(Run(first, pending, offers), k).published, first))
       <==> NoDrainRefused(Start(first, pending), offers)
  {
    var start, p := Start(first, pending), Run(first, pending, offers);
    if NoDrainRefused(start, offers) {
      KeepingUpIsEnough(start, first, offers);
      forall k: nat ensures InOrder(CarriedFar(p, k).published, first) {
        CarryingOnKeeps(p, first, k);
      }
    } else {
      RefusedOnceIsDoomed(start, first, offers);
      var k := DoomedGoesWrong(p, first);
      assert !InOrder(CarriedFar(p, k).published, first);
    }
  }

  // ---- what an answer means -----------------------------------------------------------

  ghost predicate HeldIn(p: State, sequence: nat) {
    exists i :: 0 <= i < |p.window| && p.window[i].Held? && p.window[i].record.sequence == sequence
  }

  /** The message in slot `i`, still to come and where it belongs. */
  ghost predicate Waiting(p: State, i: nat, sequence: nat) {
    && i < |p.window| && p.window[i].Held? && p.window[i].record.sequence == sequence
    && p.next <= sequence < p.next + |p.window| && Index(sequence, |p.window|) == i
  }

  lemma {:induction false} DrainLosesNothing(p: State, room: nat, i: nat, sequence: nat)
    requires Waiting(p, i, sequence)
    ensures sequence < Drained(p, room).0.next || HeldIn(Drained(p, room).0, sequence)
    decreases room
  {
    var here := Index(p.next, |p.window|);
    if p.window[here].Held? && room > 0 {
      if i == here {
        OnePerSlot(sequence, p.next, |p.window|);
        DrainOnlyAdvances(Released(p), room - 1);
      } else {
        DrainLosesNothing(Released(p), room - 1, i, sequence);
      }
    }
  }

  lemma {:induction false} DrainOnlyAdvances(p: State, room: nat)
    requires p.window != []
    ensures Drained(p, room).0.next >= p.next && p.published <= Drained(p, room).0.published
    decreases room
  {
    if p.window[Index(p.next, |p.window|)].Held? && room > 0 {
      DrainOnlyAdvances(Released(p), room - 1);
    }
  }

  /** A true answer means the message is published or held, and nothing held before is dropped. */
  lemma TrueMeansKept(p: State, first: nat, record: Record, room: nat)
    requires Inv(p, first) && Offered(p, record, room).1
    ensures var after := Offered(p, record, room).0; record.sequence < after.next || HeldIn(after, record.sequence)
  {
    if record.sequence == p.next {
      DrainOnlyAdvances(Direct(p, record), room - 1);
    } else if record.sequence > p.next {
      assert Offered(p, record, room).0.window[Index(record.sequence, |p.window|)] == Held(record);
    }
  }

  /** Exactly when an offer is answered true: a message published before, the next one when the ring takes it with
      everything held right behind it, or one within the window. */
  lemma AnswersExactly(p: State, first: nat, record: Record, room: nat)
    requires Inv(p, first) && Settled(p)
    ensures Offered(p, record, room).1 <==>
              || record.sequence < p.next
              || (record.Fits() && record.sequence == p.next && room > 0 && !HeldBehind(p, room))
              || (record.Fits() && p.next < record.sequence < p.next + |p.window|)
  {
    RefusedExactly(p, record, room);
    if p.next < record.sequence < p.next + |p.window| {
      NeverAliased(p, first, record.sequence);
    }
  }

  /** Everything published or held is a record that was offered, unchanged. */
  ghost predicate FromOffers(p: State, offered: seq<Record>) {
    && (forall r :: r in p.published ==> r in offered)
    && (forall i :: 0 <= i < |p.window| && p.window[i].Held? ==> p.window[i].record in offered)
  }

  lemma {:induction false} DrainPublishesOffers(p: State, room: nat, offered: seq<Record>)
    requires p.window != [] && FromOffers(p, offered)
    ensures FromOffers(Drained(p, room).0, offered)
    decreases room
  {
    if p.window[Index(p.next, |p.window|)].Held? && room > 0 {
      DrainPublishesOffers(Released(p), room - 1, offered);
    }
  }

  function Records(offers: seq<Offer>): seq<Record> {
    if offers == [] then [] else Records(offers[..|offers| - 1]) + [offers[|offers| - 1].record]
  }

  /** Over any run nothing is published that was not offered. */
  lemma {:induction false} PublishedWasOffered(start: State, offers: seq<Offer>)
    requires start.window != [] && FromOffers(start, [])
    ensures FromOffers(After(start, offers), Records(offers))
  {
    if offers != [] {
      var front, last := offers[..|offers| - 1], offers[|offers| - 1];
      PublishedWasOffered(start, front);
      var p, offered := After(start, front), Records(offers);
      assert FromOffers(p, offered) && last.record in offered;
      if last.record.sequence == p.next && last.record.Fits() && last.room > 0 {
        DrainPublishesOffers(Direct(p, last.record), last.room - 1, offered);
      }
    }
  }

  /** No offer drops a held message, re-offers included: it stays held until its number has been passed. */
  lemma NothingHeldIsDropped(p: State, first: nat, record: Record, room: nat, sequence: nat)
    requires Inv(p, first) && HeldIn(p, sequence)
    ensures var after := Offered(p, record, room).0; sequence < after.next || HeldIn(after, sequence)
  {
    var i :| 0 <= i < |p.window| && p.window[i].Held? && p.window[i].record.sequence == sequence;
    var after := Offered(p, record, room).0;
    assert AtHome(p, i);
    if record.sequence == p.next && record.Fits() && room > 0 {
      var direct := Direct(p, record);
      if sequence == p.next {
        DrainOnlyAdvances(direct, room - 1);
      } else {
        assert Waiting(direct, i, sequence);
        DrainLosesNothing(direct, room - 1, i, sequence);
      }
    } else if p.next < record.sequence < p.next + |p.window| && record.Fits() {
      NeverAliased(p, first, record.sequence);
      assert after.window[i].Held? && after.window[i].record.sequence == sequence;
    } else {
      assert after == p;
    }
  }

  // ---- a run that goes wrong -----------------------------------------------------------

  /** 2 is held, 1 fills the ring's last place, 2 is offered again once there is room, and its old copy is
      later published a second time under the number 2 + pending. */
  lemma ReofferPublishesTwice()
    ensures
      var offers := [Offer(Plain(2), 0), Offer(Plain(1), 1), Offer(Plain(2), 1), Offer(Plain(3), 9), Offer(Plain(4), 9)];
      var p := Run(1, 3, offers);
      RefusesDrain(Run(1, 3, offers[..1]), Plain(1), 1) && !NeverReoffers(Start(1, 3), offers[..3]) && |p.published| == 5 && p.published[4] == Plain(2)
  {
    var o := [Offer(Plain(2), 0), Offer(Plain(1), 1), Offer(Plain(2), 1), Offer(Plain(3), 9), Offer(Plain(4), 9)];
    var p0 := State(1, [Free, Free, Free], []);
    assert Run(1, 3, o[..0]) == p0;
    var p1 := p0.(window := [Free, Free, Held(Plain(2))]);
    assert o[..1][..0] == o[..0];
    assert Run(1, 3, o[..1]) == p1;
    var p2 := State(2, p1.window, [Plain(1)]);
    assert Drained(p2, 0) == (p2, false);
    assert o[..2][..1] == o[..1];
    assert Run(1, 3, o[..2]) == p2;
    var p3 := State(3, p1.window, [Plain(1), Plain(2)]);
    assert Drained(p3, 0) == (p3, true);
    assert o[..3][..2] == o[..2];
    assert Run(1, 3, o[..3]) == p3;
    var p4 := State(4, p1.window, [Plain(1), Plain(2), Plain(3)]);
    assert Drained(p4, 8) == (p4, true);
    assert o[..4][..3] == o[..3];
    assert Run(1, 3, o[..4]) == p4;
    var direct := State(5, p1.window, [Plain(1), Plain(2), Plain(3), Plain(4)]);
    var p5 := State(6, [Free, Free, Free], [Plain(1), Plain(2), Plain(3), Plain(4), Plain(2)]);
    assert Released(direct) == p5;
    assert Drained(p5, 7) == (p5, true);
    assert Drained(direct, 8) == (p5, true);
    assert o[..5] == o && o[..5][..4] == o[..4];
  }

  // ---- the publisher ---------------------------------------------------------------------

  class Publisher {
    const held: array<Record>
    const have: array<bool>
    var next: nat
    var published: seq<Record>

    ghost predicate Valid() {
      held.Length == have.Length && have.Length > 0
    }

    ghost function Window(): (w: seq<Slot>)
      requires Valid()
      reads held, have
      ensures |w| == have.Length
    {
      seq(have.Length, i requires 0 <= i < have.Length reads held, have => if have[i] then Held(held[i]) else Free)
    }

    ghost function Model(): (p: State)
      requires Valid()
      reads this, held, have
      ensures |p.window| == have.Length
    {
      State(next, Window(), published)
    }

    constructor (firstSequence: nat, pending: nat)
      requires pending > 0
      ensures Valid() && have.Length == pending && Model() == Run(firstSequence, pending, [])
      ensures fresh(held) && fresh(have)
    {
      held := new Record[pending](_ => Record(0, 0, false, []));
      have := new bool[pending](_ => false);
      next, published := firstSequence, [];
    }

    method Release()
      requires Valid() && have[Index(next, have.Length)]
      modifies this, have
      ensures Model() == Released(old(Model()))
    {
      var slot := next % have.Length;
      ghost var after := Released(Model());
      published := published + [held[slot]];
      have[slot] := false;
      next := next + 1;
      assert Window() == after.window;
    }

    method DrainPending(room: nat) returns (ok: bool)
      requires Valid()
      modifies this, have
      ensures (Model(), ok) == Drained(old(Model()), room)
    {
      var left: nat := room;
      while have[Index(next, have.Length)]
        invariant left <= room && Drained(Model(), left) == Drained(old(Model()), room)
        decreases left
      {
        if left == 0 { return false; }
        Release();
        left := left - 1;
      }
      return true;
    }

    method Offer(record: Record, room: nat) returns (ok: bool)
      requires Valid()
      modifies this, held, have
      ensures (Model(), ok) == Offered(old(Model()), record, room)
    {
      if record.sequence < next { return true; }
      if |record.body| > MAX_BODY { return false; }
      if record.sequence == next {
        if room == 0 { return false; }
        published := published + [record];
        next := next + 1;
        ok := DrainPending(room - 1);
        return;
      }
      if record.sequence - next >= have.Length { return false; }
      var slot := record.sequence % have.Length;
      if have[slot] && held[slot].sequence != record.sequence { return false; }
      ghost var window := Window()[slot := Held(record)];
      held[slot] := record;
      have[slot] := true;
      assert Window() == window;
      return true;
    }
  }
}